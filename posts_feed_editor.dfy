/**
 * The PostsFeed block editor of src/blocks/editors/PostsFeedEditor.tsx:
 * inline edits of a post's title or excerpt inside the block's `posts` list.
 */
module PostsFeedEditor {
  import opened Wrappers
  import opened Json
  import ObjectLists

  /** The two fields handlePostUpdate edits. */
  datatype Field = Title | Excerpt

  function FieldName(f: Field): (k: string)
    ensures k != "id"
  {
    match f
    case Title => "title"
    case Excerpt => "excerpt"
  }

  /** `posts = []`: an undefined `posts` property is the empty list. */
  function PostsOrEmpty(posts: Option<seq<Props>>): seq<Props>
  {
    if posts.Some? then posts.value else []
  }

  /** The list handlePostUpdate builds: `{ ...post, [field]: value }` for the posts with that id. */
  function UpdatedPosts(posts: seq<Props>, postId: string, field: Field, value: string): seq<Props>
  {
    ObjectLists.UpdateById(posts, Str(postId), map[FieldName(field) := Str(value)])
  }

  function AsArray(posts: seq<Props>): (v: Value)
    ensures v.Arr? && |v.items| == |posts|
    ensures forall i :: 0 <= i < |posts| ==> v.items[i] == Obj(posts[i])
  {
    Arr(seq(|posts|, i requires 0 <= i < |posts| => Obj(posts[i])))
  }

  /** The update handlePostUpdate emits: exactly `{ posts: updated }`. */
  function HandlePostUpdate(posts: Option<seq<Props>>, postId: string, field: Field, value: string): (u: Props)
    ensures u.Keys == {"posts"}
    ensures u["posts"] == AsArray(UpdatedPosts(PostsOrEmpty(posts), postId, field, value))
  {
    map["posts" := AsArray(UpdatedPosts(PostsOrEmpty(posts), postId, field, value))]
  }

  /**
   * The length, the order and every id are kept; a post with another id is
   * unchanged; a post with the id has the field set to the value and keeps
   * every other key.
   */
  lemma UpdatedPostsSpec(posts: seq<Props>, postId: string, field: Field, value: string)
    ensures var r := UpdatedPosts(posts, postId, field, value);
            && |r| == |posts|
            && (forall i :: 0 <= i < |r| ==> Get(r[i], "id") == Get(posts[i], "id"))
            && (forall i :: 0 <= i < |r| && !ObjectLists.HasId(posts[i], Str(postId)) ==> r[i] == posts[i])
            && (forall i :: 0 <= i < |r| && ObjectLists.HasId(posts[i], Str(postId)) ==>
                  && r[i].Keys == posts[i].Keys + {FieldName(field)}
                  && r[i][FieldName(field)] == Str(value)
                  && (forall k :: k in posts[i] && k != FieldName(field) ==> r[i][k] == posts[i][k]))
  {
    var r := UpdatedPosts(posts, postId, field, value);
    forall i | 0 <= i < |r|
      ensures Get(r[i], "id") == Get(posts[i], "id")
    {
      if ObjectLists.HasId(posts[i], Str(postId)) {
        ObjectLists.UpdateMerges(posts, Str(postId), map[FieldName(field) := Str(value)], i, "id");
      }
    }
  }

  /** One post's editors: a title editor always, an excerpt editor when `excerpt` is defined. */
  datatype PostEditors = PostEditors(title: Option<Value>, excerpt: Option<Value>)

  datatype View = EmptyPlaceholder | PostList(editors: seq<PostEditors>)

  function PostEditorsOf(post: Props): (e: PostEditors)
    ensures e.excerpt.Some? <==> "excerpt" in post
  {
    PostEditors(Get(post, "title"), if "excerpt" in post then Some(Or(Get(post, "excerpt"), Str(""))) else None)
  }

  /** The rendered editor: the placeholder for no posts, otherwise one entry per post in order. */
  function Render(posts: Option<seq<Props>>): (v: View)
    ensures v.EmptyPlaceholder? <==> |PostsOrEmpty(posts)| == 0
    ensures v.PostList? ==> |v.editors| == |PostsOrEmpty(posts)|
    ensures v.PostList? ==> forall i :: 0 <= i < |v.editors| ==>
              (v.editors[i].excerpt.Some? <==> "excerpt" in PostsOrEmpty(posts)[i])
  {
    var ps := PostsOrEmpty(posts);
    if |ps| == 0 then EmptyPlaceholder
    else PostList(seq(|ps|, i requires 0 <= i < |ps| => PostEditorsOf(ps[i])))
  }
}
