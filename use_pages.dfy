/**
 * The page hooks of src/lib/hooks/use-pages.ts: the page list kept in
 * client state, one page with its latest sections, and a page's sections
 * turned into editor blocks.
 */
module UsePages {
  import opened Wrappers
  import opened Json
  import opened Ids
  import Strings
  import ObjectLists
  import opened PageStore

  /** An editor block: `{ id, type, data, props }`. */
  datatype Block = Block(id: string, typ: string, data: Props, props: Props)

  /** A page of usePage, with its latest version's sections as blocks. */
  datatype PageDetail = PageDetail(id: nat, title: string, slug: string, status: Status, updatedAt: Instant, blocks: seq<Section>)

  function StatusName(s: Status): string
  {
    match s
    case Draft => "draft"
    case Published => "published"
  }

  /** The object a listed page row is formatted as. */
  function ListedPage(row: PageRow): (p: Props)
    ensures p.Keys == {"id", "title", "slug", "status", "updatedAt", "updated_at", "blocks"}
    ensures p["updatedAt"] == p["updated_at"] == Num(row.updatedAt)
    ensures p["blocks"] == Arr([])
    ensures ObjectLists.HasId(p, Num(row.id))
  {
    map["id" := Num(row.id), "title" := Str(row.title), "slug" := Str(row.slug),
        "status" := Str(StatusName(row.status)), "updatedAt" := Num(row.updatedAt),
        "updated_at" := Num(row.updatedAt), "blocks" := Arr([])]
  }

  /** What usePages keeps after listPages answered: nothing on an error, else every row formatted, in order. */
  function ListedPages(result: Result<seq<PageRow>, PageError>): (r: seq<Props>)
    ensures result.Err? ==> r == []
    ensures result.Ok? ==> |r| == |result.value|
    ensures result.Ok? ==> forall i :: 0 <= i < |r| ==> r[i] == ListedPage(result.value[i])
  {
    match result
    case Err(_) => []
    case Ok(rows) => seq(|rows|, i requires 0 <= i < |rows| => ListedPage(rows[i]))
  }

  /** `section.id || \`block-${index}\`` */
  function BlockId(section: Section, index: nat): (id: string)
    ensures section.id.Some? && section.id.value != "" ==> id == section.id.value
    ensures section.id.None? || section.id.value == "" ==> id == "block-" + Strings.NatToString(index)
  {
    if section.id.Some? && section.id.value != "" then section.id.value else "block-" + Strings.NatToString(index)
  }

  /** usePageBlocks' conversion of sections to blocks. */
  function SectionsToBlocks(sections: seq<Section>): (r: seq<Block>)
    ensures |r| == |sections|
    ensures forall i :: 0 <= i < |r| ==>
              r[i] == Block(BlockId(sections[i], i), sections[i].typ, sections[i].props, sections[i].props)
  {
    seq(|sections|, i requires 0 <= i < |sections| =>
      Block(BlockId(sections[i], i), sections[i].typ, sections[i].props, sections[i].props))
  }

  /** `version?.content?.sections || []` */
  function VersionSections(version: Option<VersionRow>): (r: seq<Section>)
    ensures version.Some? && version.value.content.sections.Some? ==> r == version.value.content.sections.value
    ensures version.None? || version.value.content.sections.None? ==> r == []
  {
    if version.Some? && version.value.content.sections.Some? then version.value.content.sections.value else []
  }

  /** Converting a longer list converts the common prefix the same way. */
  lemma SectionsToBlocksPrefix(sections: seq<Section>, n: nat)
    requires n <= |sections|
    ensures SectionsToBlocks(sections[..n]) == SectionsToBlocks(sections)[..n]
  {
    var a := SectionsToBlocks(sections[..n]);
    var b := SectionsToBlocks(sections)[..n];
    assert |a| == |b|;
    forall i | 0 <= i < n ensures a[i] == b[i] {
      assert sections[..n][i] == sections[i];
    }
  }

  /** usePage and usePageBlocks skip fetching unless a tenant id and a real page id are given. */
  predicate Fetches(tenantId: Option<string>, pageKey: string)
  {
    tenantId.Some? && tenantId.value != "" && pageKey != "" && pageKey != "new"
  }

  /** The state of usePages. */
  class PagesHook {
    var pages: seq<Props>
    var isLoading: bool

    constructor ()
      ensures pages == [] && isLoading
    {
      pages := [];
      isLoading := true;
    }

    /** The effect: with no tenant nothing is fetched; otherwise the list becomes the formatted rows, or [] on an error. */
    method Refresh(tenantId: Option<string>, result: Result<seq<PageRow>, PageError>)
      modifies this
      ensures !isLoading
      ensures tenantId.None? || tenantId.value == "" ==> pages == old(pages)
      ensures tenantId.Some? && tenantId.value != "" ==> pages == ListedPages(result)
    {
      if tenantId.None? || tenantId.value == "" {
        isLoading := false;
        return;
      }
      isLoading := true;
      if result.Err? {
        pages := [];
        isLoading := false;
        return;
      }
      pages := ListedPages(result);
      isLoading := false;
    }

    method AddPage(page: Props)
      modifies this
      ensures pages == ObjectLists.Prepend(old(pages), page) && isLoading == old(isLoading)
    {
      pages := ObjectLists.Prepend(pages, page);
    }

    method UpdatePage(id: Value, updates: Props)
      modifies this
      ensures pages == ObjectLists.UpdateById(old(pages), id, updates) && isLoading == old(isLoading)
    {
      pages := ObjectLists.UpdateById(pages, id, updates);
    }

    method DeletePage(id: Value)
      modifies this
      ensures pages == ObjectLists.DeleteById(old(pages), id) && isLoading == old(isLoading)
    {
      pages := ObjectLists.DeleteById(pages, id);
    }
  }

  /**
   * The state of usePage. The effect's three lookups are passed in: whether
   * the tenant row exists, the page row `maybeSingle` found for the page id
   * and tenant, and the page's highest-numbered version.
   */
  class PageHook {
    var page: Option<PageDetail>
    var isLoading: bool

    constructor ()
      ensures page.None? && isLoading
    {
      page := None;
      isLoading := true;
    }

    method Refresh(tenantId: Option<string>, pageKey: string, tenantFound: bool,
                   row: Option<PageRow>, version: Option<VersionRow>)
      modifies this
      ensures !isLoading
      ensures !Fetches(tenantId, pageKey) || !tenantFound || row.None? ==> page == old(page)
      ensures Fetches(tenantId, pageKey) && tenantFound && row.Some? ==>
                page == Some(PageDetail(row.value.id, row.value.title, row.value.slug, row.value.status,
                                        row.value.updatedAt, VersionSections(version)))
    {
      if !Fetches(tenantId, pageKey) {
        isLoading := false;
        return;
      }
      isLoading := true;
      if !tenantFound || row.None? {
        isLoading := false;
        return;
      }
      var p := row.value;
      page := Some(PageDetail(p.id, p.title, p.slug, p.status, p.updatedAt, VersionSections(version)));
      isLoading := false;
    }
  }

  /** The state of usePageBlocks; `version` is the page's highest-numbered version, if any. */
  class PageBlocksHook {
    var blocks: seq<Block>
    var isLoading: bool

    constructor ()
      ensures blocks == [] && isLoading
    {
      blocks := [];
      isLoading := true;
    }

    method Refresh(tenantId: Option<string>, pageKey: string, version: Option<VersionRow>)
      modifies this
      ensures !isLoading
      ensures !Fetches(tenantId, pageKey) ==> blocks == old(blocks)
      ensures Fetches(tenantId, pageKey) ==> blocks == SectionsToBlocks(VersionSections(version))
    {
      if !Fetches(tenantId, pageKey) {
        isLoading := false;
        return;
      }
      isLoading := true;
      blocks := SectionsToBlocks(VersionSections(version));
      isLoading := false;
    }
  }
}
