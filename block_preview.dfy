/**
 * The block preview of src/components/editor/block-preview.tsx: a switch on
 * the block type, the gallery's first six images and its add-image update,
 * the posts-feed placeholder count, and the text-and-image layout.
 */
module BlockPreview {
  import opened Wrappers
  import opened Json
  import Seqs
  import BlockEditor

  datatype Preview =
    | HeroPreview
    | TextImagePreview(imageRight: bool)
    | GalleryPreview(count: nat, shown: seq<Value>)
    | PostsFeedPreview(cards: nat)
    | CtaPreview
    | UnknownPreview

  /** `data.imagePosition === "right"`: the image is on the right only for exactly that string. */
  predicate ImageRight(data: Props)
  {
    Get(data, "imagePosition") == Some(Str("right"))
  }

  /** `images.slice(0, 6)` */
  function GalleryShown(images: seq<Value>): (r: seq<Value>)
    ensures |r| <= 6 && |r| <= |images|
    ensures r == images[..|r|]
    ensures |images| <= 6 ==> r == images
  {
    Seqs.Take(images, 6)
  }

  /** `Number(data.limit) || 3`, then `Array.from({ length })`, which makes no cards for a negative length. */
  function FeedCards(data: Props): (n: nat)
    ensures "limit" !in data ==> n == 3
    ensures var l := ToNumber(Get(data, "limit")); l.None? || l.value == 0 ==> n == 3
    ensures var l := ToNumber(Get(data, "limit")); l.Some? && l.value > 0 ==> n == l.value
    ensures var l := ToNumber(Get(data, "limit")); l.Some? && l.value < 0 ==> n == 0
  {
    var l := ToNumber(Get(data, "limit"));
    if l.None? || l.value == 0 then 3
    else if l.value < 0 then 0
    else l.value
  }

  /** The add-image update: `{ images: [...images, v] }`. */
  function AddImage(data: Props, v: string): (u: Props)
    ensures u.Keys == {"images"}
    ensures u["images"].Arr? && u["images"].items == BlockEditor.ImagesOf(data) + [Str(v)]
  {
    map["images" := Arr(BlockEditor.ImagesOf(data) + [Str(v)])]
  }

  /** BlockPreview's switch; any other type shows "Unknown block type". */
  function PreviewOf(typ: string, data: Props): (p: Preview)
    ensures p.UnknownPreview? <==> typ !in BlockEditor.Labels
  {
    if typ == "hero" then HeroPreview
    else if typ == "text-image" then TextImagePreview(ImageRight(data))
    else if typ == "gallery" then
      var images := BlockEditor.ImagesOf(data);
      GalleryPreview(|images|, GalleryShown(images))
    else if typ == "posts-feed" then PostsFeedPreview(FeedCards(data))
    else if typ == "cta" then CtaPreview
    else UnknownPreview
  }

  /** An added image lands at the end of the list and is previewed while the gallery has fewer than six. */
  lemma AddedImageShown(data: Props, v: string)
    requires |BlockEditor.ImagesOf(data)| < 6
    ensures var after := data["images" := AddImage(data, v)["images"]];
            && BlockEditor.ImagesOf(after) == BlockEditor.ImagesOf(data) + [Str(v)]
            && GalleryShown(BlockEditor.ImagesOf(after))[|BlockEditor.ImagesOf(data)|] == Str(v)
  {
    var after := data["images" := AddImage(data, v)["images"]];
    assert Get(after, "images") == Some(Arr(BlockEditor.ImagesOf(data) + [Str(v)]));
  }

  /**
   * The editor and the preview read a missing imagePosition differently:
   * the editor shows "right" while the preview lays the image out on the left.
   */
  lemma PositionDefaultsDiffer(data: Props)
    requires "imagePosition" !in data
    ensures BlockEditor.ShownPosition(data) == Str("right")
    ensures PreviewOf("text-image", data) == TextImagePreview(false)
  {
  }

  /** For a positive numeric limit the editor's shown count and the preview's card count agree. */
  lemma LimitsAgree(data: Props, n: int)
    requires Get(data, "limit") == Some(Num(n)) && n > 0
    ensures BlockEditor.ShownLimit(data) == Num(FeedCards(data))
  {
  }
}
