/**
 * The post hooks of cms-frontend-builder/lib/hooks/use-posts.ts: the post
 * list kept in client state and one post, formatted from posts rows.
 */
module UsePosts {
  import opened Wrappers
  import opened Json
  import ObjectLists
  import opened PostStore

  function StatusName(s: PostStatus): string
  {
    match s
    case PostDraft => "draft"
    case PostPublished => "published"
    case Archived => "archived"
  }

  function OptionalStr(o: Option<string>): Value
  {
    if o.Some? then Str(o.value) else Null
  }

  /** The object a post row is formatted as: no cover image, and `publishedAt` copied from `published_at`. */
  function ListedPost(row: PostRow): (p: Props)
    ensures p.Keys == {"id", "title", "slug", "status", "publishedAt", "published_at", "coverImage", "excerpt", "content"}
    ensures p["coverImage"] == Null
    ensures p["publishedAt"] == p["published_at"]
    ensures row.publishedAt.None? <==> p["publishedAt"] == Null
    ensures row.publishedAt.Some? ==> p["publishedAt"] == Num(row.publishedAt.value)
    ensures p["content"] == row.content
    ensures ObjectLists.HasId(p, Num(row.id))
  {
    var published := if row.publishedAt.Some? then Num(row.publishedAt.value) else Null;
    map["id" := Num(row.id), "title" := Str(row.title), "slug" := Str(row.slug),
        "status" := Str(StatusName(row.status)), "publishedAt" := published, "published_at" := published,
        "coverImage" := Null, "excerpt" := OptionalStr(row.excerpt), "content" := row.content]
  }

  /** What usePosts keeps after listPosts answered: nothing on an error, else every row formatted, in order. */
  function ListedPosts(result: Result<seq<PostRow>, PostError>): (r: seq<Props>)
    ensures result.Err? ==> r == []
    ensures result.Ok? ==> |r| == |result.value|
    ensures result.Ok? ==> forall i :: 0 <= i < |r| ==> r[i] == ListedPost(result.value[i])
  {
    match result
    case Err(_) => []
    case Ok(rows) => seq(|rows|, i requires 0 <= i < |rows| => ListedPost(rows[i]))
  }

  /** usePost skips fetching without a tenant id, without a post id, and for the "new" post. */
  predicate Fetches(tenantId: Option<string>, postKey: string)
  {
    tenantId.Some? && tenantId.value != "" && postKey != "" && postKey != "new"
  }

  /** The state of usePosts. */
  class PostsHook {
    var posts: seq<Props>
    var isLoading: bool

    constructor ()
      ensures posts == [] && isLoading
    {
      posts := [];
      isLoading := true;
    }

    /** The effect: with no tenant nothing is fetched; otherwise the list becomes the formatted rows, or [] on an error. */
    method Refresh(tenantId: Option<string>, result: Result<seq<PostRow>, PostError>)
      modifies this
      ensures !isLoading
      ensures tenantId.None? || tenantId.value == "" ==> posts == old(posts)
      ensures tenantId.Some? && tenantId.value != "" ==> posts == ListedPosts(result)
    {
      if tenantId.None? || tenantId.value == "" {
        isLoading := false;
        return;
      }
      isLoading := true;
      if result.Err? {
        posts := [];
        isLoading := false;
        return;
      }
      posts := ListedPosts(result);
      isLoading := false;
    }

    method AddPost(post: Props)
      modifies this
      ensures posts == ObjectLists.Prepend(old(posts), post) && isLoading == old(isLoading)
    {
      posts := ObjectLists.Prepend(posts, post);
    }

    method UpdatePost(id: Value, updates: Props)
      modifies this
      ensures posts == ObjectLists.UpdateById(old(posts), id, updates) && isLoading == old(isLoading)
    {
      posts := ObjectLists.UpdateById(posts, id, updates);
    }

    method DeletePost(id: Value)
      modifies this
      ensures posts == ObjectLists.DeleteById(old(posts), id) && isLoading == old(isLoading)
    {
      posts := ObjectLists.DeleteById(posts, id);
    }
  }

  /** The state of usePost; `result` is what getPostById answered. */
  class PostHook {
    var post: Option<Props>
    var isLoading: bool

    constructor ()
      ensures post.None? && isLoading
    {
      post := None;
      isLoading := true;
    }

    method Refresh(tenantId: Option<string>, postKey: string, result: Result<PostRow, PostError>)
      modifies this
      ensures !isLoading
      ensures !Fetches(tenantId, postKey) || result.Err? ==> post == old(post)
      ensures Fetches(tenantId, postKey) && result.Ok? ==> post == Some(ListedPost(result.value))
    {
      if !Fetches(tenantId, postKey) {
        isLoading := false;
        return;
      }
      isLoading := true;
      if result.Err? {
        isLoading := false;
        return;
      }
      post := Some(ListedPost(result.value));
      isLoading := false;
    }
  }
}
