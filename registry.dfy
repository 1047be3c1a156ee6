/**
 * The block registry of src/blocks/registry.tsx and the editor registry of
 * src/blocks/editors/registry.ts: which block types exist, and what the
 * Hero and PostsFeed components show for a property bag.
 */
module Registry {
  import opened Wrappers
  import opened Json
  import opened PageStore

  /** The keys of `Blocks`. */
  const BlockTypes: set<string> := {"Hero", "PostsFeed"}

  /** The keys of `BlockEditors`. */
  const EditorTypes: set<string> := {"Hero", "PostsFeed"}

  /** What Hero shows: the title, and the subtitle and image only when they are truthy. */
  datatype HeroView = HeroView(title: Option<Value>, subtitle: Option<Value>, image: Option<Value>)

  /** One article of PostsFeed: the title, and the excerpt only when it is truthy. */
  datatype PostCard = PostCard(title: Option<Value>, excerpt: Option<Value>)

  /**
   * What PostsFeed shows. `Broken` stands for a `posts` value the component
   * cannot take apart (it throws on `.length` or `.map`).
   */
  datatype FeedView = NoPostsPlaceholder | Articles(cards: seq<PostCard>) | Broken

  datatype View = HeroBlock(hero: HeroView) | FeedBlock(feed: FeedView)

  /** A property of an element that may not be an object. */
  function Field(v: Value, k: string): Option<Value>
  {
    if v.Obj? then Get(v.fields, k) else None
  }

  /** Keep a value only when it is truthy, as `{x && ...}` renders. */
  function WhenTruthy(o: Option<Value>): (r: Option<Value>)
    ensures r.Some? <==> Present(o)
    ensures r.Some? ==> r == o
  {
    if Present(o) then o else None
  }

  function Hero(props: Props): (v: HeroView)
    ensures v.title == Get(props, "title")
    ensures v.subtitle.Some? <==> Present(Get(props, "subtitle"))
    ensures v.image.Some? <==> Present(Get(props, "image"))
  {
    HeroView(Get(props, "title"), WhenTruthy(Get(props, "subtitle")), WhenTruthy(Get(props, "image")))
  }

  function Card(post: Value): PostCard
  {
    PostCard(Field(post, "title"), WhenTruthy(Field(post, "excerpt")))
  }

  /** PostsFeed with `posts = []` as the default for an undefined property. */
  function PostsFeed(props: Props): (v: FeedView)
    ensures v == NoPostsPlaceholder <==>
              Get(props, "posts").None? || Get(props, "posts") == Some(Arr([])) || Get(props, "posts") == Some(Str(""))
    ensures Get(props, "posts").Some? && Get(props, "posts").value.Arr? && v.Articles? ==>
              |v.cards| == |Get(props, "posts").value.items| > 0
    ensures v.Articles? ==>
              && Get(props, "posts").Some? && Get(props, "posts").value.Arr?
              && var items := Get(props, "posts").value.items;
                 forall i :: 0 <= i < |v.cards| ==>
                   && v.cards[i].title == Field(items[i], "title")
                   && (v.cards[i].excerpt.Some? <==> Present(Field(items[i], "excerpt")))
                   && (v.cards[i].excerpt.Some? ==> v.cards[i].excerpt == Field(items[i], "excerpt"))
  {
    match Get(props, "posts")
    case None => NoPostsPlaceholder
    case Some(Arr(items)) =>
      if |items| == 0 then NoPostsPlaceholder
      else Articles(seq(|items|, i requires 0 <= i < |items| => Card(items[i])))
    case Some(Str(s)) => if s == "" then NoPostsPlaceholder else Broken
    case Some(_) => Broken
  }

  /** The component a registered type names, applied to the props. */
  function Component(typ: string, props: Props): View
    requires typ in BlockTypes
  {
    if typ == "Hero" then HeroBlock(Hero(props)) else FeedBlock(PostsFeed(props))
  }

  /** BlockRenderer: nothing (after a warning) for an unregistered type, otherwise the component with the block's props. */
  function Render(block: Section): (r: Option<View>)
    ensures r.None? <==> block.typ != "Hero" && block.typ != "PostsFeed"
    ensures r.Some? ==> block.typ in BlockTypes && r.value == Component(block.typ, block.props)
  {
    if block.typ in BlockTypes then Some(Component(block.typ, block.props)) else None
  }
}
