/**
 * The `pages` and `page_versions` tables and the server actions of
 * src/actions/pages.ts over them. Every action receives the tenant id the
 * request resolved to (`None` when no tenant resolves) and, where a row is
 * stamped, the current time.
 *
 * The central invariant: for every page, the version numbers in the table
 * strictly increase in insertion order. A save appends the page's highest
 * number plus one; create and clone hard-code version 1 only on a page that
 * was just inserted and so has no versions yet.
 */
module PageStore {
  import opened Wrappers
  import opened Json
  import Seqs
  import opened Ids
  import Strings


  datatype Status = Draft | Published

  /** One entry of a version's `content.sections`. */
  datatype Section = Section(id: Option<string>, typ: string, props: Props)

  /** A version's `content` column, `{ sections }`; an undefined `sections` is dropped. */
  datatype Content = Content(sections: Option<seq<Section>>)

  datatype PageRow = PageRow(id: nat, tenantId: TenantId, slug: string, title: string, status: Status, updatedAt: Instant)

  datatype VersionRow = VersionRow(
    id: nat, pageId: nat, tenantId: TenantId, number: nat,
    content: Content, meta: Props, createdBy: Option<string>)

  datatype PageError =
    | TenantNotFound
    | PageNotFound
    | VersionNotFound
      /** The message of a `.single()` that found no row. */
    | NoSingleRow
      /** Any other error the database returns. */
    | DatabaseError

  /** A page row with the content of its latest version (`null` when it has none). */
  datatype PageWithContent = PageWithContent(page: PageRow, content: Option<Content>)

  // ---------------------------------------------------------------------
  // Queries on the pages table

  function IdAndTenant(tenant: TenantId, id: nat): PageRow -> bool
  {
    (p: PageRow) => p.id == id && p.tenantId == tenant
  }

  function SlugAndTenant(tenant: TenantId, slug: string): PageRow -> bool
  {
    (p: PageRow) => p.slug == slug && p.tenantId == tenant
  }

  function OfTenant(tenant: TenantId): PageRow -> bool
  {
    (p: PageRow) => p.tenantId == tenant
  }

  /** The rows `.eq("id", id).eq("tenant_id", tenant)` selects. */
  function PagesWithId(ps: seq<PageRow>, tenant: TenantId, id: nat): (r: seq<PageRow>)
    ensures forall i :: 0 <= i < |r| ==> r[i] in ps && r[i].id == id && r[i].tenantId == tenant
    ensures forall i :: 0 <= i < |ps| && ps[i].id == id && ps[i].tenantId == tenant ==> ps[i] in r
  {
    Seqs.Filter(ps, IdAndTenant(tenant, id))
  }

  /** The rows `.eq("tenant_id", tenant).eq("slug", slug)` selects. */
  function PagesWithSlug(ps: seq<PageRow>, tenant: TenantId, slug: string): (r: seq<PageRow>)
    ensures forall i :: 0 <= i < |r| ==> r[i] in ps && r[i].slug == slug && r[i].tenantId == tenant
    ensures forall i :: 0 <= i < |ps| && ps[i].slug == slug && ps[i].tenantId == tenant ==> ps[i] in r
  {
    Seqs.Filter(ps, SlugAndTenant(tenant, slug))
  }

  /** The rows `.eq("tenant_id", tenant)` selects, in table order. */
  function PagesOfTenant(ps: seq<PageRow>, tenant: TenantId): (r: seq<PageRow>)
    ensures forall i :: 0 <= i < |r| ==> r[i] in ps && r[i].tenantId == tenant
    ensures forall i :: 0 <= i < |ps| && ps[i].tenantId == tenant ==> ps[i] in r
  {
    Seqs.Filter(ps, OfTenant(tenant))
  }

  /** The tenant's page with this id, as `.single()` returns it. */
  function FindPage(ps: seq<PageRow>, tenant: TenantId, id: nat): Option<PageRow>
  {
    Seqs.Single(PagesWithId(ps, tenant, id))
  }

  /** Some page row has this id and belongs to this tenant. */
  ghost predicate HasPage(ps: seq<PageRow>, id: nat, tenant: TenantId)
  {
    exists j :: 0 <= j < |ps| && ps[j].id == id && ps[j].tenantId == tenant
  }

  /** Page ids strictly increase along the table, so they are unique. */
  ghost predicate IdsIncrease(ps: seq<PageRow>)
  {
    forall i, j :: 0 <= i < j < |ps| ==> ps[i].id < ps[j].id
  }

  lemma {:induction false} PagesWithIdUnique(ps: seq<PageRow>, tenant: TenantId, id: nat)
    requires IdsIncrease(ps)
    ensures |PagesWithId(ps, tenant, id)| <= 1
    decreases |ps|
  {
    if ps != [] {
      PagesWithIdUnique(ps[1..], tenant, id);
      if ps[0].id == id {
        assert forall i :: 0 <= i < |ps[1..]| ==> ps[1..][i].id != id by {
          forall i | 0 <= i < |ps[1..]| ensures ps[1..][i].id != id {
            assert ps[1..][i] == ps[i + 1];
          }
        }
        NoIdNoRows(ps[1..], tenant, id);
      }
    }
  }

  lemma {:induction false} NoIdNoRows(ps: seq<PageRow>, tenant: TenantId, id: nat)
    requires forall i :: 0 <= i < |ps| ==> ps[i].id != id
    ensures PagesWithId(ps, tenant, id) == []
    decreases |ps|
  {
    if ps != [] {
      NoIdNoRows(ps[1..], tenant, id);
    }
  }

  /** With unique ids, the lookup finds a row exactly when the tenant owns a page with that id. */
  lemma FindPageOwned(ps: seq<PageRow>, tenant: TenantId, id: nat)
    requires IdsIncrease(ps)
    ensures FindPage(ps, tenant, id).Some? <==> HasPage(ps, id, tenant)
    ensures FindPage(ps, tenant, id).Some? ==>
              var p := FindPage(ps, tenant, id).value;
              p in ps && p.id == id && p.tenantId == tenant
  {
    PagesWithIdUnique(ps, tenant, id);
    var r := PagesWithId(ps, tenant, id);
    if HasPage(ps, id, tenant) {
      var j :| 0 <= j < |ps| && ps[j].id == id && ps[j].tenantId == tenant;
      assert ps[j] in r;
    }
    if r != [] {
      assert r[0] in ps;
      var j :| 0 <= j < |ps| && ps[j] == r[0];
      assert ps[j].id == id;
    }
  }

  /** `pages` with `status` set on the rows `matches` selects (an `update ... eq(...)`). */
  function WithStatus(ps: seq<PageRow>, id: nat, tenant: Option<TenantId>, s: Status): (r: seq<PageRow>)
    ensures |r| == |ps|
    ensures forall i :: 0 <= i < |ps| ==>
              r[i] == if Matches(ps[i], id, tenant) then ps[i].(status := s) else ps[i]
  {
    if ps == [] then []
    else [if Matches(ps[0], id, tenant) then ps[0].(status := s) else ps[0]] + WithStatus(ps[1..], id, tenant, s)
  }

  /** The row has this id and, when a tenant filter is given, that tenant. */
  predicate Matches(p: PageRow, id: nat, tenant: Option<TenantId>)
  {
    p.id == id && (tenant.None? || p.tenantId == tenant.value)
  }

  /** `order("updated_at", { ascending: false })` */
  predicate NewerFirst(a: PageRow, b: PageRow)
  {
    a.updatedAt >= b.updatedAt
  }

  lemma NewerFirstOrder()
    ensures Seqs.Total(NewerFirst) && Seqs.Transitive(NewerFirst)
  {
  }

  // ---------------------------------------------------------------------
  // Queries on the page_versions table

  /** The page's versions in insertion order. */
  function VersionsOf(vs: seq<VersionRow>, pageId: nat): (r: seq<VersionRow>)
    ensures forall i :: 0 <= i < |r| ==> r[i] in vs && r[i].pageId == pageId
    ensures forall i :: 0 <= i < |vs| && vs[i].pageId == pageId ==> vs[i] in r
    decreases |vs|
  {
    if vs == [] then []
    else
      var init := vs[..|vs| - 1];
      assert forall i :: 0 <= i < |init| ==> init[i] == vs[i];
      VersionsOf(init, pageId) + (if vs[|vs| - 1].pageId == pageId then [vs[|vs| - 1]] else [])
  }

  /**
   * The page's version with the highest number, as
   * `.order("version_number", { ascending: false }).limit(1).single()` returns it.
   */
  function Latest(vs: seq<VersionRow>, pageId: nat): (r: Option<VersionRow>)
    ensures r.None? <==> forall i :: 0 <= i < |vs| ==> vs[i].pageId != pageId
    ensures r.Some? ==> r.value in vs && r.value.pageId == pageId
    ensures r.Some? ==> forall i :: 0 <= i < |vs| && vs[i].pageId == pageId ==> vs[i].number <= r.value.number
    decreases |vs|
  {
    if vs == [] then None
    else
      var init := vs[..|vs| - 1];
      var last := vs[|vs| - 1];
      assert forall i :: 0 <= i < |init| ==> init[i] == vs[i];
      var prev := Latest(init, pageId);
      if last.pageId == pageId && (prev.None? || prev.value.number <= last.number) then Some(last) else prev
  }

  /** `(highest?.version_number || 0) + 1`: one more than every number the page has, and 1 for a page with none. */
  function NextNumber(vs: seq<VersionRow>, pageId: nat): (n: nat)
    ensures n >= 1
    ensures forall i :: 0 <= i < |vs| && vs[i].pageId == pageId ==> vs[i].number < n
    ensures (forall i :: 0 <= i < |vs| ==> vs[i].pageId != pageId) ==> n == 1
    ensures n == 1 || exists i :: 0 <= i < |vs| && vs[i].pageId == pageId && vs[i].number == n - 1
  {
    var top := Latest(vs, pageId);
    if top.Some? then
      assert top.value in vs;
      top.value.number + 1
    else 1
  }

  /** Per page, version numbers strictly increase in insertion order; in particular they are unique. */
  ghost predicate NumbersIncrease(vs: seq<VersionRow>)
  {
    forall i, j :: 0 <= i < j < |vs| && vs[i].pageId == vs[j].pageId ==> vs[i].number < vs[j].number
  }

  /** Appending a row numbered by `NextNumber` keeps the numbers increasing. */
  lemma AppendNextIncreasing(vs: seq<VersionRow>, row: VersionRow)
    requires NumbersIncrease(vs)
    requires row.number == NextNumber(vs, row.pageId)
    ensures NumbersIncrease(vs + [row])
  {
    var ws := vs + [row];
    forall i, j | 0 <= i < j < |ws| && ws[i].pageId == ws[j].pageId
      ensures ws[i].number < ws[j].number
    {
      if j == |vs| {
        assert ws[i] == vs[i];
      }
    }
  }

  /** A page none of whose versions exist yet gets number 1, so hard-coding 1 on a fresh page is safe. */
  lemma FreshPageNumbers(vs: seq<VersionRow>, pageId: nat, row: VersionRow)
    requires NumbersIncrease(vs)
    requires forall i :: 0 <= i < |vs| ==> vs[i].pageId < pageId
    requires row.pageId == pageId && row.number == 1
    ensures NextNumber(vs, pageId) == 1
    ensures VersionsOf(vs, pageId) == []
    ensures NumbersIncrease(vs + [row])
  {
    AppendNextIncreasing(vs, row);
  }

  /** Under the invariant, the highest-numbered version is the one inserted last. */
  lemma {:induction false} LatestIsLastInserted(vs: seq<VersionRow>, pageId: nat)
    requires NumbersIncrease(vs)
    ensures var r := VersionsOf(vs, pageId);
            Latest(vs, pageId) == if r == [] then None else Some(r[|r| - 1])
    decreases |vs|
  {
    if vs != [] {
      var init := vs[..|vs| - 1];
      var last := vs[|vs| - 1];
      IncreasingInit(vs);
      LatestIsLastInserted(init, pageId);
      if last.pageId == pageId {
        EarlierRowsLower(vs);
        assert Latest(vs, pageId) == Some(last);
        assert VersionsOf(vs, pageId) == VersionsOf(init, pageId) + [last];
      } else {
        assert Latest(vs, pageId) == Latest(init, pageId);
        assert VersionsOf(vs, pageId) == VersionsOf(init, pageId);
      }
    }
  }

  /** Every earlier row of the last row's page has a lower number. */
  lemma EarlierRowsLower(vs: seq<VersionRow>)
    requires vs != [] && NumbersIncrease(vs)
    ensures forall v :: v in vs[..|vs| - 1] && v.pageId == vs[|vs| - 1].pageId ==> v.number < vs[|vs| - 1].number
  {
    var init := vs[..|vs| - 1];
    forall v | v in init && v.pageId == vs[|vs| - 1].pageId
      ensures v.number < vs[|vs| - 1].number
    {
      var k :| 0 <= k < |init| && init[k] == v;
      assert vs[k] == v;
    }
  }

  /** Dropping the last row keeps the numbers increasing. */
  lemma IncreasingInit(vs: seq<VersionRow>)
    requires vs != [] && NumbersIncrease(vs)
    ensures NumbersIncrease(vs[..|vs| - 1])
  {
    var init := vs[..|vs| - 1];
    forall i, j | 0 <= i < j < |init| && init[i].pageId == init[j].pageId
      ensures init[i].number < init[j].number
    {
      assert init[i] == vs[i] && init[j] == vs[j];
    }
  }

  /** `order("version_number", { ascending: false })` */
  predicate HigherFirst(a: VersionRow, b: VersionRow)
  {
    a.number >= b.number
  }

  /** The page's versions, highest number first. */
  function VersionsNewestFirst(vs: seq<VersionRow>, pageId: nat): seq<VersionRow>
  {
    Seqs.SortBy(VersionsOf(vs, pageId), HigherFirst)
  }

  /**
   * The listing holds exactly the page's versions, each once per row, and
   * orders them by number, highest first.
   */
  lemma VersionsNewestFirstSpec(vs: seq<VersionRow>, pageId: nat)
    ensures multiset(VersionsNewestFirst(vs, pageId)) == multiset(VersionsOf(vs, pageId))
    ensures var r := VersionsNewestFirst(vs, pageId);
            forall i, j :: 0 <= i < j < |r| ==> r[i].number >= r[j].number
    ensures forall v :: v in VersionsNewestFirst(vs, pageId) <==> v in vs && v.pageId == pageId
    ensures VersionsOf(vs, pageId) == [] ==> VersionsNewestFirst(vs, pageId) == []
  {
    var s := VersionsOf(vs, pageId);
    var r := VersionsNewestFirst(vs, pageId);
    assert Seqs.Total(HigherFirst) && Seqs.Transitive(HigherFirst);
    Seqs.SortBySorted(s, HigherFirst);
    forall i, j | 0 <= i < j < |r| ensures r[i].number >= r[j].number {
      Seqs.SortedPairwise(r, HigherFirst, i, j);
    }
    Seqs.SameMembers(r, s);
    forall v | v in vs && v.pageId == pageId ensures v in r {
      var i :| 0 <= i < |vs| && vs[i] == v;
    }
  }

  /** Every version row belongs to a page of the same tenant. */
  ghost predicate VersionsOwned(ps: seq<PageRow>, vs: seq<VersionRow>)
  {
    forall i :: 0 <= i < |vs| ==> HasPage(ps, vs[i].pageId, vs[i].tenantId)
  }

  /** The invariant the tables keep. */
  ghost predicate Consistent(ps: seq<PageRow>, vs: seq<VersionRow>, nextPageId: nat, nextVersionId: nat)
  {
    && IdsIncrease(ps)
    && (forall i :: 0 <= i < |ps| ==> ps[i].id < nextPageId)
    && (forall i, j :: 0 <= i < j < |vs| ==> vs[i].id < vs[j].id)
    && (forall i :: 0 <= i < |vs| ==> vs[i].id < nextVersionId && vs[i].pageId < nextPageId)
    && NumbersIncrease(vs)
    && VersionsOwned(ps, vs)
  }

  /** A version appended for an owned page, with the next id and number, keeps the invariant. */
  lemma ConsistentAddVersion(ps: seq<PageRow>, vs: seq<VersionRow>, np: nat, nv: nat, row: VersionRow)
    requires Consistent(ps, vs, np, nv)
    requires row.id == nv && HasPage(ps, row.pageId, row.tenantId)
    requires row.number == NextNumber(vs, row.pageId)
    ensures Consistent(ps, vs + [row], np, nv + 1)
  {
    AppendNextIncreasing(vs, row);
    var j :| 0 <= j < |ps| && ps[j].id == row.pageId && ps[j].tenantId == row.tenantId;
    var ws := vs + [row];
    assert forall i :: 0 <= i < |vs| ==> ws[i] == vs[i];
  }

  /** A page appended with the next id keeps the invariant and has no versions. */
  lemma ConsistentAddPage(ps: seq<PageRow>, vs: seq<VersionRow>, np: nat, nv: nat, p: PageRow)
    requires Consistent(ps, vs, np, nv)
    requires p.id == np
    ensures Consistent(ps + [p], vs, np + 1, nv)
    ensures forall i :: 0 <= i < |vs| ==> vs[i].pageId != p.id
  {
    var qs := ps + [p];
    forall i | 0 <= i < |vs| ensures HasPage(qs, vs[i].pageId, vs[i].tenantId) {
      var j :| 0 <= j < |ps| && ps[j].id == vs[i].pageId && ps[j].tenantId == vs[i].tenantId;
      assert qs[j] == ps[j];
    }
  }

  /** Changing a status changes no id and no tenant, so the invariant holds. */
  lemma ConsistentWithStatus(ps: seq<PageRow>, vs: seq<VersionRow>, np: nat, nv: nat, id: nat, tenant: Option<TenantId>, s: Status)
    requires Consistent(ps, vs, np, nv)
    ensures Consistent(WithStatus(ps, id, tenant, s), vs, np, nv)
  {
    var qs := WithStatus(ps, id, tenant, s);
    assert forall i :: 0 <= i < |ps| ==> qs[i].id == ps[i].id && qs[i].tenantId == ps[i].tenantId;
    SameKeysIncrease(ps, qs);
    SameKeysOwned(ps, qs, vs);
  }

  /** Rows with the same ids at the same positions keep the ids increasing. */
  lemma SameKeysIncrease(ps: seq<PageRow>, qs: seq<PageRow>)
    requires |qs| == |ps| && IdsIncrease(ps)
    requires forall i :: 0 <= i < |ps| ==> qs[i].id == ps[i].id
    ensures IdsIncrease(qs)
  {
    forall i, j | 0 <= i < j < |qs| ensures qs[i].id < qs[j].id {
      assert ps[i].id < ps[j].id;
    }
  }

  /** Rows with the same ids and tenants at the same positions own the same versions. */
  lemma SameKeysOwned(ps: seq<PageRow>, qs: seq<PageRow>, vs: seq<VersionRow>)
    requires |qs| == |ps| && VersionsOwned(ps, vs)
    requires forall i :: 0 <= i < |ps| ==> qs[i].id == ps[i].id && qs[i].tenantId == ps[i].tenantId
    ensures VersionsOwned(qs, vs)
  {
    forall i | 0 <= i < |vs| ensures HasPage(qs, vs[i].pageId, vs[i].tenantId) {
      var j :| 0 <= j < |ps| && ps[j].id == vs[i].pageId && ps[j].tenantId == vs[i].tenantId;
      assert qs[j].id == ps[j].id && qs[j].tenantId == ps[j].tenantId;
    }
  }

  /** A page's versions all carry the page's tenant, so listing by page id alone leaks nothing. */
  lemma VersionsCarryPageTenant(ps: seq<PageRow>, vs: seq<VersionRow>, np: nat, nv: nat, tenant: TenantId, pageId: nat)
    requires Consistent(ps, vs, np, nv)
    requires HasPage(ps, pageId, tenant)
    ensures forall v :: v in VersionsOf(vs, pageId) ==> v.tenantId == tenant
  {
    forall v | v in VersionsOf(vs, pageId) ensures v.tenantId == tenant {
      var i :| 0 <= i < |vs| && vs[i] == v;
      var j :| 0 <= j < |ps| && ps[j].id == pageId && ps[j].tenantId == tenant;
      var k :| 0 <= k < |ps| && ps[k].id == pageId && ps[k].tenantId == v.tenantId;
      assert !(j < k) && !(k < j);
    }
  }

  /** The page's latest content, `latestVersion?.content || null`. */
  function LatestContent(vs: seq<VersionRow>, pageId: nat): (c: Option<Content>)
    ensures c.Some? <==> exists i :: 0 <= i < |vs| && vs[i].pageId == pageId
  {
    var top := Latest(vs, pageId);
    if top.Some? then Some(top.value.content) else None
  }

  /** `newTitle || \`${title} (Copy)\`` */
  function CloneTitle(newTitle: Option<string>, title: string): (t: string)
    ensures newTitle.Some? && newTitle.value != "" ==> t == newTitle.value
    ensures newTitle.None? || newTitle.value == "" ==> t == title + " (Copy)"
  {
    if newTitle.Some? && newTitle.value != "" then newTitle.value else title + " (Copy)"
  }

  /** The `meta` of a restored row: the old meta with the provenance keys set over it. */
  function RestoredMeta(old_meta: Props, versionId: nat, restoredAt: string): (m: Props)
    ensures m.Keys == old_meta.Keys + {"restored_from", "restored_at"}
    ensures m["restored_from"] == Str(Strings.NatToString(versionId))
    ensures m["restored_at"] == Str(restoredAt)
    ensures forall k :: k in old_meta && k != "restored_from" && k != "restored_at" ==> m[k] == old_meta[k]
  {
    Spread(old_meta, map["restored_from" := Str(Strings.NatToString(versionId)), "restored_at" := Str(restoredAt)])
  }

  // ---------------------------------------------------------------------
  // The tables

  class Store {
    var pages: seq<PageRow>
    var versions: seq<VersionRow>
    var nextPageId: nat
    var nextVersionId: nat

    ghost predicate Valid()
      reads this
    {
      Consistent(pages, versions, nextPageId, nextVersionId)
    }

    constructor ()
      ensures Valid()
      ensures pages == [] && versions == []
    {
      pages := [];
      versions := [];
      nextPageId := 0;
      nextVersionId := 0;
    }

    /**
     * getPageById: the tenant's page with its latest content. `fails` says
     * that the page select returns an error other than finding no row.
     */
    function GetPageById(tenant: Option<TenantId>, pageId: nat, fails: bool): (r: Result<PageWithContent, PageError>)
      reads this
      requires Valid()
      ensures tenant.None? ==> r == Err(TenantNotFound)
      ensures tenant.Some? && fails ==> r == Err(DatabaseError)
      ensures tenant.Some? && !fails ==> (r.Ok? <==> HasPage(pages, pageId, tenant.value))
      ensures tenant.Some? && !fails && !r.Ok? ==> r == Err(NoSingleRow)
      ensures r.Ok? ==> r.value.page in pages && r.value.page.id == pageId && r.value.page.tenantId == tenant.value
      ensures r.Ok? ==> r.value.content == LatestContent(versions, pageId)
    {
      if tenant.None? then Err(TenantNotFound)
      else if fails then Err(DatabaseError)
      else
        FindPageOwned(pages, tenant.value, pageId);
        match FindPage(pages, tenant.value, pageId)
        case None => Err(NoSingleRow)
        case Some(p) => Ok(PageWithContent(p, LatestContent(versions, p.id)))
    }

    /**
     * getPageBySlug: the tenant's single page with this slug and its latest
     * content. `fails` as for getPageById.
     */
    function GetPageBySlug(tenant: Option<TenantId>, slug: string, fails: bool): (r: Result<PageWithContent, PageError>)
      reads this
      ensures tenant.None? ==> r == Err(TenantNotFound)
      ensures tenant.Some? && fails ==> r == Err(DatabaseError)
      ensures tenant.Some? && !fails ==> (r.Ok? <==> |PagesWithSlug(pages, tenant.value, slug)| == 1)
      ensures tenant.Some? && !fails && !r.Ok? ==> r == Err(NoSingleRow)
      ensures r.Ok? ==> r.value.page in pages && r.value.page.slug == slug && r.value.page.tenantId == tenant.value
      ensures r.Ok? ==> r.value.content == LatestContent(versions, r.value.page.id)
    {
      if tenant.None? then Err(TenantNotFound)
      else if fails then Err(DatabaseError)
      else
        match Seqs.Single(PagesWithSlug(pages, tenant.value, slug))
        case None => Err(NoSingleRow)
        case Some(p) => Ok(PageWithContent(p, LatestContent(versions, p.id)))
    }

    /**
     * listVersions: the page's versions, highest number first. `fails` says
     * that the versions select is rejected.
     */
    function ListVersions(tenant: Option<TenantId>, pageId: nat, fails: bool): (r: Result<seq<VersionRow>, PageError>)
      reads this
      requires Valid()
      ensures tenant.None? ==> r == Err(TenantNotFound)
      ensures tenant.Some? && !HasPage(pages, pageId, tenant.value) ==> r == Err(PageNotFound)
      ensures tenant.Some? && HasPage(pages, pageId, tenant.value) ==> (r.Ok? <==> !fails)
      ensures tenant.Some? && HasPage(pages, pageId, tenant.value) && fails ==> r == Err(DatabaseError)
      ensures r.Ok? ==> forall v :: v in r.value <==> v in versions && v.pageId == pageId
      ensures r.Ok? ==> forall v :: v in r.value ==> v.tenantId == tenant.value
      ensures r.Ok? ==> forall i, j :: 0 <= i < j < |r.value| ==> r.value[i].number > r.value[j].number
    {
      if tenant.None? then Err(TenantNotFound)
      else if FindPage(pages, tenant.value, pageId).None? then
        FindPageOwned(pages, tenant.value, pageId);
        Err(PageNotFound)
      else if fails then
        FindPageOwned(pages, tenant.value, pageId);
        Err(DatabaseError)
      else
        FindPageOwned(pages, tenant.value, pageId);
        VersionsNewestFirstSpec(versions, pageId);
        VersionsCarryPageTenant(pages, versions, nextPageId, nextVersionId, tenant.value, pageId);
        NewestFirstStrict(versions, pageId);
        Ok(VersionsNewestFirst(versions, pageId))
    }

    /** listPages: the tenant's pages, most recently updated first. `fails` says that the select is rejected. */
    function ListPages(tenant: Option<TenantId>, fails: bool): (r: Result<seq<PageRow>, PageError>)
      reads this
      ensures tenant.None? ==> r == Err(TenantNotFound)
      ensures tenant.Some? && fails ==> r == Err(DatabaseError)
      ensures tenant.Some? && !fails ==> r.Ok? && multiset(r.value) == multiset(PagesOfTenant(pages, tenant.value))
      ensures r.Ok? ==> forall p :: p in r.value <==> p in pages && p.tenantId == tenant.value
      ensures r.Ok? ==> forall i, j :: 0 <= i < j < |r.value| ==> r.value[i].updatedAt >= r.value[j].updatedAt
    {
      if tenant.None? then Err(TenantNotFound)
      else if fails then Err(DatabaseError)
      else
        var s := PagesOfTenant(pages, tenant.value);
        var sorted := Seqs.SortBy(s, NewerFirst);
        NewerFirstOrder();
        Seqs.SortBySorted(s, NewerFirst);
        Seqs.SameMembers(sorted, s);
        assert forall i, j :: 0 <= i < j < |sorted| ==> sorted[i].updatedAt >= sorted[j].updatedAt by {
          forall i, j | 0 <= i < j < |sorted| ensures sorted[i].updatedAt >= sorted[j].updatedAt {
            Seqs.SortedPairwise(sorted, NewerFirst, i, j);
          }
        }
        Ok(sorted)
    }

    /** Insert a fresh page row. */
    method InsertPage(tenant: TenantId, slug: string, title: string, now: Instant) returns (p: PageRow)
      requires Valid()
      modifies this
      ensures Valid()
      ensures p == PageRow(old(nextPageId), tenant, slug, title, Draft, now)
      ensures pages == old(pages) + [p] && versions == old(versions)
      ensures nextPageId == old(nextPageId) + 1 && nextVersionId == old(nextVersionId)
      ensures forall i :: 0 <= i < |versions| ==> versions[i].pageId != p.id
    {
      p := PageRow(nextPageId, tenant, slug, title, Draft, now);
      ConsistentAddPage(pages, versions, nextPageId, nextVersionId, p);
      pages := pages + [p];
      nextPageId := nextPageId + 1;
    }

    /** Insert a version row numbered after the page's current highest. */
    method AppendVersion(pageId: nat, tenant: TenantId, content: Content, meta: Props, createdBy: Option<string>)
      returns (row: VersionRow)
      requires Valid()
      requires HasPage(pages, pageId, tenant)
      modifies this
      ensures Valid()
      ensures row == VersionRow(old(nextVersionId), pageId, tenant, NextNumber(old(versions), pageId), content, meta, createdBy)
      ensures versions == old(versions) + [row] && pages == old(pages)
      ensures nextVersionId == old(nextVersionId) + 1 && nextPageId == old(nextPageId)
    {
      row := VersionRow(nextVersionId, pageId, tenant, NextNumber(versions, pageId), content, meta, createdBy);
      ConsistentAddVersion(pages, versions, nextPageId, nextVersionId, row);
      versions := versions + [row];
      nextVersionId := nextVersionId + 1;
    }

    /** Insert version 1 of a page that has no versions yet. */
    method InsertFirstVersion(pageId: nat, tenant: TenantId, content: Content, createdBy: Option<string>)
      returns (row: VersionRow)
      requires Valid()
      requires HasPage(pages, pageId, tenant)
      requires forall i :: 0 <= i < |versions| ==> versions[i].pageId != pageId
      modifies this
      ensures Valid()
      ensures row == VersionRow(old(nextVersionId), pageId, tenant, 1, content, map[], createdBy)
      ensures versions == old(versions) + [row] && pages == old(pages)
      ensures nextVersionId == old(nextVersionId) + 1 && nextPageId == old(nextPageId)
    {
      row := AppendVersion(pageId, tenant, content, map[], createdBy);
    }

    /**
     * savePageSections: a new version `{ sections }` numbered after the
     * page's highest. `fails` says that the version insert is rejected.
     */
    method SavePageSections(tenant: Option<TenantId>, pageId: nat, sections: Option<seq<Section>>, fails: bool)
      returns (r: Result<VersionRow, PageError>)
      requires Valid()
      modifies this
      ensures Valid()
      ensures tenant.None? ==> r == Err(TenantNotFound)
      ensures tenant.Some? && !HasPage(old(pages), pageId, tenant.value) ==> r == Err(PageNotFound)
      ensures tenant.Some? && HasPage(old(pages), pageId, tenant.value) && fails ==> r == Err(DatabaseError)
      ensures r.Err? ==> unchanged(this)
      ensures tenant.Some? && HasPage(old(pages), pageId, tenant.value) && !fails ==>
                r == Ok(VersionRow(old(nextVersionId), pageId, tenant.value, NextNumber(old(versions), pageId),
                                   Content(sections), map[], None))
      ensures r.Ok? ==> versions == old(versions) + [r.value] && pages == old(pages)
    {
      if tenant.None? {
        return Err(TenantNotFound);
      }
      FindPageOwned(pages, tenant.value, pageId);
      var page := FindPage(pages, tenant.value, pageId);
      if page.None? {
        return Err(PageNotFound);
      }
      if fails {
        return Err(DatabaseError);
      }
      var row := AppendVersion(pageId, tenant.value, Content(sections), map[], None);
      r := Ok(row);
    }

    /**
     * publishPage: every page with this id becomes published, whatever its
     * tenant. `fails` says that the update is rejected: the action then
     * throws (`ok` is false) and nothing changes. The revalidation request
     * to the tenant's domain cannot change the outcome.
     */
    method PublishPage(pageId: nat, tenantDomain: string, fails: bool) returns (ok: bool)
      requires Valid()
      modifies this
      ensures Valid()
      ensures ok <==> !fails
      ensures ok ==> pages == WithStatus(old(pages), pageId, None, Published)
      ensures !ok ==> pages == old(pages)
      ensures versions == old(versions) && nextPageId == old(nextPageId) && nextVersionId == old(nextVersionId)
    {
      if fails {
        return false;
      }
      ConsistentWithStatus(pages, versions, nextPageId, nextVersionId, pageId, None, Published);
      pages := WithStatus(pages, pageId, None, Published);
      ok := true;
    }

    /**
     * setDraft: the tenant's page with this id goes back to draft. `fails`
     * says that the update returns an error other than finding no row.
     */
    method SetDraft(tenant: Option<TenantId>, pageId: nat, fails: bool) returns (r: Result<PageRow, PageError>)
      requires Valid()
      modifies this
      ensures Valid()
      ensures versions == old(versions) && nextPageId == old(nextPageId) && nextVersionId == old(nextVersionId)
      ensures tenant.None? ==> r == Err(TenantNotFound) && pages == old(pages)
      ensures tenant.Some? && fails ==> r == Err(DatabaseError) && pages == old(pages)
      ensures tenant.Some? && !fails && !HasPage(old(pages), pageId, tenant.value) ==> r == Err(NoSingleRow) && pages == old(pages)
      ensures tenant.Some? && !fails && HasPage(old(pages), pageId, tenant.value) ==>
                pages == WithStatus(old(pages), pageId, tenant, Draft) &&
                FindPage(old(pages), tenant.value, pageId).Some? &&
                r == Ok(FindPage(old(pages), tenant.value, pageId).value.(status := Draft))
    {
      if tenant.None? {
        return Err(TenantNotFound);
      }
      if fails {
        return Err(DatabaseError);
      }
      FindPageOwned(pages, tenant.value, pageId);
      var page := FindPage(pages, tenant.value, pageId);
      if page.None? {
        assert forall i :: 0 <= i < |pages| ==> !Matches(pages[i], pageId, tenant);
        assert WithStatus(pages, pageId, tenant, Draft) == pages;
        return Err(NoSingleRow);
      }
      ConsistentWithStatus(pages, versions, nextPageId, nextVersionId, pageId, tenant, Draft);
      pages := WithStatus(pages, pageId, tenant, Draft);
      r := Ok(page.value.(status := Draft));
    }

    /**
     * clonePage: a new draft page of the same tenant with slug `newSlug`,
     * seeded with version 1 holding the original's latest content when the
     * original has a version. `insertFails` says that the page insert is
     * rejected; `versionFails` that the version insert is, an error the
     * action ignores.
     */
    method ClonePage(tenant: Option<TenantId>, pageId: nat, newSlug: string, newTitle: Option<string>, now: Instant,
                     insertFails: bool, versionFails: bool)
      returns (r: Result<PageRow, PageError>)
      requires Valid()
      modifies this
      ensures Valid()
      ensures tenant.None? ==> r == Err(TenantNotFound)
      ensures tenant.Some? && !HasPage(old(pages), pageId, tenant.value) ==> r == Err(PageNotFound)
      ensures tenant.Some? && HasPage(old(pages), pageId, tenant.value) && insertFails ==> r == Err(DatabaseError)
      ensures r.Err? ==> unchanged(this)
      ensures tenant.Some? && HasPage(old(pages), pageId, tenant.value) && !insertFails ==>
                FindPage(old(pages), tenant.value, pageId).Some? &&
                var original := FindPage(old(pages), tenant.value, pageId).value;
                var p := PageRow(old(nextPageId), tenant.value, newSlug, CloneTitle(newTitle, original.title), Draft, now);
                && r == Ok(p)
                && pages == old(pages) + [p]
                && versions == old(versions) + (
                     if versionFails then [] else
                     match LatestContent(old(versions), pageId)
                     case None => []
                     case Some(c) => [VersionRow(old(nextVersionId), p.id, tenant.value, 1, c, map[], None)])
    {
      if tenant.None? {
        return Err(TenantNotFound);
      }
      FindPageOwned(pages, tenant.value, pageId);
      var original := FindPage(pages, tenant.value, pageId);
      if original.None? {
        return Err(PageNotFound);
      }
      if insertFails {
        return Err(DatabaseError);
      }
      var latest := LatestContent(versions, pageId);
      var p := InsertPage(tenant.value, newSlug, CloneTitle(newTitle, original.value.title), now);
      assert pages[|pages| - 1] == p;
      if latest.Some? && !versionFails {
        var _ := InsertFirstVersion(p.id, tenant.value, latest.value, None);
      }
      r := Ok(p);
    }

    /**
     * createPage: a new draft page with version 1 holding no sections.
     * `insertFails` says that the page insert is rejected; `versionFails`
     * that the version insert is, an error the action ignores: the page is
     * then returned without a version.
     */
    method CreatePage(tenant: Option<TenantId>, title: string, slug: string, now: Instant,
                      insertFails: bool, versionFails: bool)
      returns (r: Result<PageRow, PageError>)
      requires Valid()
      modifies this
      ensures Valid()
      ensures tenant.None? ==> r == Err(TenantNotFound) && unchanged(this)
      ensures tenant.Some? && insertFails ==> r == Err(DatabaseError) && unchanged(this)
      ensures tenant.Some? && !insertFails ==>
                var p := PageRow(old(nextPageId), tenant.value, slug, title, Draft, now);
                && r == Ok(p)
                && pages == old(pages) + [p]
                && versions == old(versions) +
                     (if versionFails then [] else [VersionRow(old(nextVersionId), p.id, tenant.value, 1, Content(Some([])), map[], None)])
    {
      if tenant.None? {
        return Err(TenantNotFound);
      }
      if insertFails {
        return Err(DatabaseError);
      }
      var p := InsertPage(tenant.value, slug, title, now);
      assert pages[|pages| - 1] == p;
      if !versionFails {
        var _ := InsertFirstVersion(p.id, tenant.value, Content(Some([])), None);
      }
      r := Ok(p);
    }

    /**
     * restoreVersion: a new head version of the page copying the content of
     * one of the page's own versions, with provenance added to its meta. The
     * restored row itself stays as it is. `fails` says that the insert of
     * the new version is rejected.
     */
    method RestoreVersion(tenant: Option<TenantId>, pageId: nat, versionId: nat, restoredAt: string, fails: bool)
      returns (r: Result<VersionRow, PageError>)
      requires Valid()
      modifies this
      ensures Valid()
      ensures tenant.None? ==> r == Err(TenantNotFound)
      ensures tenant.Some? && !HasPage(old(pages), pageId, tenant.value) ==> r == Err(PageNotFound)
      ensures tenant.Some? && HasPage(old(pages), pageId, tenant.value) && FindVersion(old(versions), versionId, pageId).None? ==>
                r == Err(VersionNotFound)
      ensures tenant.Some? && HasPage(old(pages), pageId, tenant.value) && FindVersion(old(versions), versionId, pageId).Some? ==>
                (r.Ok? <==> !fails) && (fails ==> r == Err(DatabaseError))
      ensures r.Err? ==> unchanged(this)
      ensures r.Ok? ==>
                var source := FindVersion(old(versions), versionId, pageId).value;
                && tenant.Some? && HasPage(old(pages), pageId, tenant.value)
                && source in old(versions) && source.id == versionId && source.pageId == pageId
                && r.value == VersionRow(old(nextVersionId), pageId, tenant.value, NextNumber(old(versions), pageId),
                                         source.content, RestoredMeta(source.meta, versionId, restoredAt), None)
                && versions == old(versions) + [r.value] && pages == old(pages)
    {
      if tenant.None? {
        return Err(TenantNotFound);
      }
      FindPageOwned(pages, tenant.value, pageId);
      var page := FindPage(pages, tenant.value, pageId);
      if page.None? {
        return Err(PageNotFound);
      }
      var source := FindVersion(versions, versionId, pageId);
      if source.None? {
        return Err(VersionNotFound);
      }
      if fails {
        return Err(DatabaseError);
      }
      var row := AppendVersion(pageId, tenant.value, source.value.content,
                               RestoredMeta(source.value.meta, versionId, restoredAt), None);
      r := Ok(row);
    }
  }

  /** The rows `.eq("id", versionId).eq("page_id", pageId)` selects. */
  function VersionsWithId(vs: seq<VersionRow>, versionId: nat, pageId: nat): (r: seq<VersionRow>)
    ensures forall i :: 0 <= i < |r| ==> r[i] in vs && r[i].id == versionId && r[i].pageId == pageId
    ensures forall i :: 0 <= i < |vs| && vs[i].id == versionId && vs[i].pageId == pageId ==> vs[i] in r
  {
    if vs == [] then []
    else (if vs[0].id == versionId && vs[0].pageId == pageId then [vs[0]] else []) + VersionsWithId(vs[1..], versionId, pageId)
  }

  /** The version to restore, as `.single()` returns it. */
  function FindVersion(vs: seq<VersionRow>, versionId: nat, pageId: nat): Option<VersionRow>
  {
    Seqs.Single(VersionsWithId(vs, versionId, pageId))
  }

  /** A version with this id on another page is never found, so restore cannot copy across pages. */
  lemma FindVersionOwnPage(vs: seq<VersionRow>, versionId: nat, pageId: nat)
    requires forall i :: 0 <= i < |vs| && vs[i].id == versionId ==> vs[i].pageId != pageId
    ensures FindVersion(vs, versionId, pageId).None?
  {
    var r := VersionsWithId(vs, versionId, pageId);
    assert forall i :: 0 <= i < |r| ==> r[i] in vs;
  }

  /** With numbers increasing, the newest-first listing is strictly decreasing. */
  lemma NewestFirstStrict(vs: seq<VersionRow>, pageId: nat)
    requires NumbersIncrease(vs)
    ensures var r := VersionsNewestFirst(vs, pageId);
            forall i, j :: 0 <= i < j < |r| ==> r[i].number > r[j].number
  {
    var r := VersionsNewestFirst(vs, pageId);
    VersionsNewestFirstSpec(vs, pageId);
    VersionsOfNoDuplicates(vs, pageId);
    forall i, j | 0 <= i < j < |r| ensures r[i].number > r[j].number {
      NoRepeatsDistinct(r, VersionsOf(vs, pageId), i, j);
      var a :| 0 <= a < |vs| && vs[a] == r[i];
      var b :| 0 <= b < |vs| && vs[b] == r[j];
      assert a != b;
    }
  }

  /** Each row of the table appears at most once in a page's versions. */
  lemma {:induction false} VersionsOfNoDuplicates(vs: seq<VersionRow>, pageId: nat)
    requires NumbersIncrease(vs)
    ensures forall v :: multiset(VersionsOf(vs, pageId))[v] <= 1
    decreases |vs|
  {
    if vs != [] {
      var init := vs[..|vs| - 1];
      var last := vs[|vs| - 1];
      assert NumbersIncrease(init) by {
        assert forall i :: 0 <= i < |init| ==> init[i] == vs[i];
      }
      VersionsOfNoDuplicates(init, pageId);
      if last.pageId == pageId {
        assert forall k :: 0 <= k < |init| ==> init[k] != last by {
          forall k | 0 <= k < |init| ensures init[k] != last {
            assert vs[k] == init[k];
          }
        }
        assert last !in VersionsOf(init, pageId);
      }
    }
  }

  /** A list with the multiset of a repeat-free list holds different elements at different positions. */
  lemma NoRepeatsDistinct<T>(r: seq<T>, s: seq<T>, i: nat, j: nat)
    requires multiset(r) == multiset(s)
    requires forall v :: multiset(s)[v] <= 1
    requires i < j < |r|
    ensures r[i] != r[j]
  {
    var x := r[i];
    assert r == r[..j] + [r[j]] + r[j + 1..];
    assert r[i] in r[..j];
    assert multiset(r)[x] >= multiset(r[..j])[x] + multiset{r[j]}[x];
  }
}
