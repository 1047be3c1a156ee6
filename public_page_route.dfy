/**
 * GET /api/public/page (src/app/api/public/page/route.ts): the published
 * page of a tenant with a slug, read straight from the pages table.
 */
module PublicPageRoute {
  import opened Wrappers
  import Seqs
  import opened PageStore
  import opened Ids

  /** `{ page }` with status 200, or `{ error }` with status 404. */
  datatype Response = PageFound(page: PageRow) | NotFound

  /** `searchParams.get("slug") || "/"` */
  function SlugParam(slug: Option<string>): (s: string)
    ensures slug.None? || slug.value == "" ==> s == "/"
    ensures slug.Some? && slug.value != "" ==> s == slug.value
  {
    if slug.Some? && slug.value != "" then slug.value else "/"
  }

  /** The rows of the tenant with this slug and status "published". */
  function PublishedWithSlug(ps: seq<PageRow>, tenant: TenantId, slug: string): seq<PageRow>
  {
    Seqs.Filter(ps, (p: PageRow) => p.tenantId == tenant && p.slug == slug && p.status == Published)
  }

  /**
   * The response. A missing `tenant` parameter compares `tenant_id` with
   * null, which the database rejects, so it answers 404 as any other
   * database error (`fails`) does.
   */
  function Get(ps: seq<PageRow>, tenant: Option<TenantId>, slug: Option<string>, fails: bool): (r: Response)
    ensures tenant.None? || fails ==> r == NotFound
    ensures r.PageFound? ==>
              && tenant.Some? && !fails && r.page in ps
              && r.page.tenantId == tenant.value
              && r.page.slug == SlugParam(slug)
              && r.page.status == Published
    ensures tenant.Some? && !fails ==>
              (r.PageFound? <==> |PublishedWithSlug(ps, tenant.value, SlugParam(slug))| == 1)
  {
    if tenant.None? || fails then NotFound
    else
      match Seqs.Single(PublishedWithSlug(ps, tenant.value, SlugParam(slug)))
      case Some(p) => PageFound(p)
      case None => NotFound
  }

  /** The only matching published row is the answer. */
  lemma {:induction false} UniqueMatchFound(ps: seq<PageRow>, tenant: TenantId, slug: Option<string>, k: nat)
    requires k < |ps|
    requires ps[k].tenantId == tenant && ps[k].slug == SlugParam(slug) && ps[k].status == Published
    requires forall i :: 0 <= i < |ps| && i != k ==>
               !(ps[i].tenantId == tenant && ps[i].slug == SlugParam(slug) && ps[i].status == Published)
    ensures Get(ps, Some(tenant), slug, false) == PageFound(ps[k])
  {
    var f := (p: PageRow) => p.tenantId == tenant && p.slug == SlugParam(slug) && p.status == Published;
    assert ps == ps[..k] + [ps[k]] + ps[k + 1..];
    Seqs.FilterAppend(ps[..k] + [ps[k]], ps[k + 1..], f);
    Seqs.FilterAppend(ps[..k], [ps[k]], f);
    NoneMatch(ps[..k], f);
    NoneMatch(ps[k + 1..], f);
  }

  lemma {:induction false} NoneMatch(s: seq<PageRow>, f: PageRow -> bool)
    requires forall i :: 0 <= i < |s| ==> !f(s[i])
    ensures Seqs.Filter(s, f) == []
    decreases |s|
  {
    if s != [] {
      NoneMatch(s[1..], f);
    }
  }

  /** A page moved back to draft is no longer publicly readable, whatever slug is asked for. */
  lemma DraftNotServed(ps: seq<PageRow>, tenant: TenantId, pageId: nat, slug: Option<string>)
    ensures var r := Get(WithStatus(ps, pageId, Some(tenant), Draft), Some(tenant), slug, false);
            r.PageFound? ==> r.page.id != pageId
  {
    var qs := WithStatus(ps, pageId, Some(tenant), Draft);
    var r := Get(qs, Some(tenant), slug, false);
    if r.PageFound? {
      var i :| 0 <= i < |qs| && qs[i] == r.page;
    }
  }
}
