/**
 * The property editor of cms-frontend-builder/components/editor/block-editor.tsx:
 * a heading per block type, one field panel per type, and field edits that
 * each emit an update of a single property.
 */
module BlockEditor {
  import opened Wrappers
  import opened Json
  import Seqs
  import BlockList

  /** `blockTypeLabels` */
  const Labels: map<string, string> := map[
    "hero" := "Hero Section",
    "text-image" := "Text + Image",
    "gallery" := "Image Gallery",
    "posts-feed" := "Posts Feed",
    "cta" := "Call to Action"]

  datatype Panel = HeroFields | TextImageFields | GalleryFields | PostsFeedFields | CtaFields | NoFields

  /** The `block.type === ...` dispatch; no panel for any other type. */
  function PanelOf(typ: string): Panel
  {
    if typ == "hero" then HeroFields
    else if typ == "text-image" then TextImageFields
    else if typ == "gallery" then GalleryFields
    else if typ == "posts-feed" then PostsFeedFields
    else if typ == "cta" then CtaFields
    else NoFields
  }

  /** The label map, the field dispatch and the add-block menu cover the same five types. */
  lemma TypesAgree(typ: string)
    ensures typ in Labels <==> PanelOf(typ) != NoFields
    ensures typ in Labels <==> BlockList.InMenu(typ)
  {
    BlockList.MenuTypes();
  }

  /** The properties a panel edits as text. */
  function TextFields(p: Panel): set<string>
  {
    match p
    case HeroFields => {"title", "subtitle", "image"}
    case TextImageFields => {"heading", "text", "imagePosition", "image"}
    case GalleryFields => {}
    case PostsFeedFields => {"category"}
    case CtaFields => {"title", "buttonLabel", "buttonLink"}
    case NoFields => {}
  }

  /** `String(data.key || "")`, before the conversion to a string. */
  function Shown(data: Props, key: string): Value
  {
    Or(Get(data, key), Str(""))
  }

  /** `String(data.limit || 3)`, before the conversion to a string. */
  function ShownLimit(data: Props): (v: Value)
    ensures !Present(Get(data, "limit")) ==> v == Num(3)
    ensures Present(Get(data, "limit")) ==> v == data["limit"]
  {
    Or(Get(data, "limit"), Num(3))
  }

  /** `String(data.imagePosition || "right")`, before the conversion to a string. */
  function ShownPosition(data: Props): (v: Value)
    ensures !Present(Get(data, "imagePosition")) ==> v == Str("right")
    ensures Present(Get(data, "imagePosition")) ==> v == data["imagePosition"]
  {
    Or(Get(data, "imagePosition"), Str("right"))
  }

  /** A text field edit: `onUpdate({ [field]: value })`. */
  function TextEdit(p: Panel, field: string, value: string): (u: Props)
    requires field in TextFields(p)
    ensures u.Keys == {field} && u[field] == Str(value)
  {
    map[field := Str(value)]
  }

  /** `Number(value)`, with a NaN held as `null`, the value it is saved as. */
  function NumberOf(value: string): (v: Value)
    ensures ToNumber(Some(Str(value))).Some? ==> v == Num(ToNumber(Some(Str(value))).value)
    ensures ToNumber(Some(Str(value))).None? ==> v == Null
  {
    match ToNumber(Some(Str(value)))
    case Some(n) => Num(n)
    case None => Null
  }

  /** The posts-feed count edit: `onUpdate({ limit: Number(value) })`, so the limit is stored as a number. */
  function LimitEdit(value: string): (u: Props)
    ensures u.Keys == {"limit"} && (u["limit"].Num? || u["limit"].Null?)
  {
    map["limit" := NumberOf(value)]
  }

  /** `(data.images as string[]) || []`; a value that is not a list counts as no images. */
  function ImagesOf(data: Props): (r: seq<Value>)
    ensures Get(data, "images").Some? && data["images"].Arr? ==> r == data["images"].items
    ensures !(Get(data, "images").Some? && data["images"].Arr?) ==> r == []
  {
    if "images" in data && data["images"].Arr? then data["images"].items else []
  }

  /** `images.filter((_, j) => j !== i)`, with the index running from the front. */
  function WithoutIndex(images: seq<Value>, i: int): seq<Value>
    decreases |images|
  {
    if images == [] then []
    else (if i == 0 then [] else [images[0]]) + WithoutIndex(images[1..], i - 1)
  }

  /** The filter drops exactly image `i`, keeping the others in their order. */
  lemma {:induction false} WithoutIndexSpec(images: seq<Value>, i: int)
    ensures 0 <= i < |images| ==> WithoutIndex(images, i) == images[..i] + images[i + 1..]
    ensures !(0 <= i < |images|) ==> WithoutIndex(images, i) == images
    decreases |images|
  {
    if images != [] {
      WithoutIndexSpec(images[1..], i - 1);
      if 0 < i < |images| {
        assert images[1..][..i - 1] == images[1..i];
        assert images[1..][i - 1 + 1..] == images[i + 1..];
        assert [images[0]] + images[1..i] == images[..i];
      } else if i == 0 {
        assert images[1..] == images[i + 1..];
      } else {
        assert [images[0]] + images[1..] == images;
      }
    }
  }

  /** Removing gallery image `i`: the list without that image. */
  function RemoveImage(data: Props, i: nat): (u: Props)
    requires i < |ImagesOf(data)|
    ensures u.Keys == {"images"}
    ensures u["images"] == Arr(ImagesOf(data)[..i] + ImagesOf(data)[i + 1..])
    ensures u["images"] == Arr(Seqs.RemoveAt(ImagesOf(data), i))
  {
    WithoutIndexSpec(ImagesOf(data), i);
    map["images" := Arr(WithoutIndex(ImagesOf(data), i))]
  }
}
