/**
 * The `posts` table and the server actions of src/actions/posts.ts over it,
 * scoped by the tenant id the request resolved to (`None` when none does).
 */
module PostStore {
  import opened Wrappers
  import opened Json
  import Seqs
  import opened Ids


  datatype PostStatus = PostDraft | PostPublished | Archived

  datatype PostRow = PostRow(
    id: nat, tenantId: TenantId, title: string, slug: string, excerpt: Option<string>,
    content: Value, status: PostStatus, publishedAt: Option<Instant>, updatedAt: Instant)

  /** The fields savePost receives. The cover image is accepted but never stored. */
  datatype PostInput = PostInput(
    title: string, slug: string, excerpt: Option<string>, content: Value,
    coverImage: Option<string>, status: Option<PostStatus>)

  /** `NoSingleRow` is the error of a `.single()` that found no row; `DatabaseError` any other. */
  datatype PostError = TenantNotFound | NoSingleRow | DatabaseError

  /** `data.excerpt || null` */
  function StoredExcerpt(excerpt: Option<string>): (e: Option<string>)
    ensures e.Some? <==> excerpt.Some? && excerpt.value != ""
    ensures e.Some? ==> e == excerpt
  {
    if excerpt.Some? && excerpt.value != "" then excerpt else None
  }

  /** `data.status || "draft"` */
  function StoredStatus(status: Option<PostStatus>): (s: PostStatus)
    ensures status.None? ==> s == PostDraft
    ensures status.Some? ==> s == status.value
  {
    status.GetOr(PostDraft)
  }

  /** `data.status === "published" ? now : null` */
  function StoredPublishedAt(status: Option<PostStatus>, now: Instant): (t: Option<Instant>)
    ensures t.Some? <==> status == Some(PostPublished)
    ensures t.Some? ==> t.value == now
  {
    if status == Some(PostPublished) then Some(now) else None
  }

  /** The row `id` becomes when savePost writes `data` over it at `now`. */
  function Written(row: PostRow, data: PostInput, now: Instant): (r: PostRow)
    ensures r.id == row.id && r.tenantId == row.tenantId && r.updatedAt == row.updatedAt
    ensures r.title == data.title && r.slug == data.slug && r.content == data.content
    ensures r.excerpt == StoredExcerpt(data.excerpt) && r.status == StoredStatus(data.status)
    ensures r.publishedAt == StoredPublishedAt(data.status, now)
  {
    row.(title := data.title, slug := data.slug, excerpt := StoredExcerpt(data.excerpt), content := data.content,
         status := StoredStatus(data.status), publishedAt := StoredPublishedAt(data.status, now))
  }

  /** A row is stamped with a publication time exactly when it is published. */
  predicate Stamped(p: PostRow)
  {
    p.publishedAt.Some? <==> p.status == PostPublished
  }

  /** Whatever savePost writes is stamped, so saving as draft clears the publication time. */
  lemma WrittenStamped(row: PostRow, data: PostInput, now: Instant)
    ensures Stamped(Written(row, data, now))
    ensures data.status != Some(PostPublished) ==> Written(row, data, now).publishedAt.None?
  {
  }

  predicate Selects(p: PostRow, id: nat, tenant: TenantId)
  {
    p.id == id && p.tenantId == tenant
  }

  /** The table with `f` applied to the rows `.eq("id", id).eq("tenant_id", tenant)` selects. */
  function UpdateWhere(ps: seq<PostRow>, id: nat, tenant: TenantId, f: PostRow -> PostRow): (r: seq<PostRow>)
    ensures |r| == |ps|
    ensures forall i :: 0 <= i < |ps| ==> r[i] == if Selects(ps[i], id, tenant) then f(ps[i]) else ps[i]
  {
    if ps == [] then []
    else [if Selects(ps[0], id, tenant) then f(ps[0]) else ps[0]] + UpdateWhere(ps[1..], id, tenant, f)
  }

  /** The table without the rows `.eq("id", id).eq("tenant_id", tenant)` selects. */
  function DeleteWhere(ps: seq<PostRow>, id: nat, tenant: TenantId): (r: seq<PostRow>)
    ensures forall p :: p in r <==> p in ps && !Selects(p, id, tenant)
  {
    Seqs.Filter(ps, KeptBy(id, tenant))
  }

  /** The filter a delete keeps. */
  function KeptBy(id: nat, tenant: TenantId): PostRow -> bool
  {
    (p: PostRow) => !Selects(p, id, tenant)
  }

  /** The filter an `eq("id", id).eq("tenant_id", tenant)` keeps. */
  function SelectedBy(id: nat, tenant: TenantId): PostRow -> bool
  {
    (p: PostRow) => Selects(p, id, tenant)
  }

  /** The tenant's row with this id, as `.single()` returns it. */
  function FindPost(ps: seq<PostRow>, id: nat, tenant: TenantId): (r: Option<PostRow>)
    ensures r.Some? ==> r.value in ps && Selects(r.value, id, tenant)
  {
    Seqs.Single(Seqs.Filter(ps, SelectedBy(id, tenant)))
  }

  ghost predicate HasPost(ps: seq<PostRow>, id: nat, tenant: TenantId)
  {
    exists i :: 0 <= i < |ps| && Selects(ps[i], id, tenant)
  }

  ghost predicate IdsIncrease(ps: seq<PostRow>)
  {
    forall i, j :: 0 <= i < j < |ps| ==> ps[i].id < ps[j].id
  }

  lemma {:induction false} SelectedUnique(ps: seq<PostRow>, id: nat, tenant: TenantId)
    requires IdsIncrease(ps)
    ensures |Seqs.Filter(ps, SelectedBy(id, tenant))| <= 1
    decreases |ps|
  {
    if ps != [] {
      var f := SelectedBy(id, tenant);
      SelectedUnique(ps[1..], id, tenant);
      if Selects(ps[0], id, tenant) {
        forall i | 0 <= i < |ps[1..]| ensures !f(ps[1..][i]) {
          assert ps[1..][i] == ps[i + 1];
        }
        NoneSelected(ps[1..], f);
      }
    }
  }

  lemma {:induction false} NoneSelected(s: seq<PostRow>, f: PostRow -> bool)
    requires forall i :: 0 <= i < |s| ==> !f(s[i])
    ensures Seqs.Filter(s, f) == []
    decreases |s|
  {
    if s != [] {
      NoneSelected(s[1..], f);
    }
  }

  /** With unique ids, the lookup finds the row exactly when the tenant has a post with that id. */
  lemma FindPostOwned(ps: seq<PostRow>, id: nat, tenant: TenantId)
    requires IdsIncrease(ps)
    ensures FindPost(ps, id, tenant).Some? <==> HasPost(ps, id, tenant)
  {
    SelectedUnique(ps, id, tenant);
    if HasPost(ps, id, tenant) {
      var i :| 0 <= i < |ps| && Selects(ps[i], id, tenant);
      assert ps[i] in Seqs.Filter(ps, SelectedBy(id, tenant));
    }
  }

  /** The row an update selected, after the update. */
  lemma UpdatedRow(ps: seq<PostRow>, id: nat, tenant: TenantId, f: PostRow -> PostRow)
    requires IdsIncrease(ps) && HasPost(ps, id, tenant)
    requires forall p :: f(p).id == p.id && f(p).tenantId == p.tenantId
    ensures FindPost(ps, id, tenant).Some?
    ensures FindPost(UpdateWhere(ps, id, tenant, f), id, tenant) == Some(f(FindPost(ps, id, tenant).value))
  {
    var i :| 0 <= i < |ps| && Selects(ps[i], id, tenant);
    FindAt(ps, id, tenant, i);
    var qs := UpdateWhere(ps, id, tenant, f);
    UpdateKeepsIds(ps, id, tenant, f);
    assert qs[i] == f(ps[i]);
    FindAt(qs, id, tenant, i);
  }

  /** With unique ids, `.single()` returns the row at any index the filter selects. */
  lemma FindAt(ps: seq<PostRow>, id: nat, tenant: TenantId, i: nat)
    requires IdsIncrease(ps) && i < |ps| && Selects(ps[i], id, tenant)
    ensures FindPost(ps, id, tenant) == Some(ps[i])
  {
    SelectedUnique(ps, id, tenant);
    var sel := Seqs.Filter(ps, SelectedBy(id, tenant));
    assert ps[i] in sel;
    assert sel[0] == ps[i];
  }

  /** An update that keeps ids keeps them increasing. */
  lemma UpdateKeepsIds(ps: seq<PostRow>, id: nat, tenant: TenantId, f: PostRow -> PostRow)
    requires IdsIncrease(ps)
    requires forall p :: f(p).id == p.id
    ensures IdsIncrease(UpdateWhere(ps, id, tenant, f))
  {
    var qs := UpdateWhere(ps, id, tenant, f);
    forall i, j | 0 <= i < j < |qs| ensures qs[i].id < qs[j].id {
      assert qs[i].id == ps[i].id && qs[j].id == ps[j].id;
    }
  }

  predicate NewestUpdateFirst(a: PostRow, b: PostRow)
  {
    a.updatedAt >= b.updatedAt
  }

  /** The tenant's rows in table order. */
  function PostsOfTenant(ps: seq<PostRow>, tenant: TenantId): seq<PostRow>
  {
    Seqs.Filter(ps, (p: PostRow) => p.tenantId == tenant)
  }

  /** The table's invariant: increasing ids below the next id, and every row stamped consistently. */
  ghost predicate TableValid(ps: seq<PostRow>, nextPostId: nat)
  {
    && IdsIncrease(ps)
    && (forall i :: 0 <= i < |ps| ==> ps[i].id < nextPostId)
    && (forall i :: 0 <= i < |ps| ==> Stamped(ps[i]))
  }

  /** An update that keeps ids and tenants and stamps its rows keeps the invariant. */
  lemma UpdateKeepsValid(ps: seq<PostRow>, next: nat, id: nat, tenant: TenantId, f: PostRow -> PostRow)
    requires TableValid(ps, next)
    requires forall p :: f(p).id == p.id && f(p).tenantId == p.tenantId && Stamped(f(p))
    ensures TableValid(UpdateWhere(ps, id, tenant, f), next)
  {
    var qs := UpdateWhere(ps, id, tenant, f);
    UpdateKeepsIds(ps, id, tenant, f);
    forall i | 0 <= i < |qs| ensures qs[i].id < next && Stamped(qs[i]) {
      assert qs[i] == if Selects(ps[i], id, tenant) then f(ps[i]) else ps[i];
    }
  }

  /** An update that selects nothing changes nothing. */
  lemma UpdateNone(ps: seq<PostRow>, id: nat, tenant: TenantId, f: PostRow -> PostRow)
    requires !HasPost(ps, id, tenant)
    ensures UpdateWhere(ps, id, tenant, f) == ps
  {
    var qs := UpdateWhere(ps, id, tenant, f);
    assert forall i :: 0 <= i < |ps| ==> qs[i] == ps[i];
  }

  class Store {
    var posts: seq<PostRow>
    var nextPostId: nat

    ghost predicate Valid()
      reads this
    {
      TableValid(posts, nextPostId)
    }

    constructor ()
      ensures Valid() && posts == []
    {
      posts := [];
      nextPostId := 0;
    }

    /** listPosts: the tenant's posts, most recently updated first. `fails` says that the select is rejected. */
    function ListPosts(tenant: Option<TenantId>, fails: bool): (r: Result<seq<PostRow>, PostError>)
      reads this
      ensures tenant.None? ==> r == Err(TenantNotFound)
      ensures tenant.Some? && fails ==> r == Err(DatabaseError)
      ensures tenant.Some? && !fails ==> r.Ok? && multiset(r.value) == multiset(PostsOfTenant(posts, tenant.value))
      ensures r.Ok? ==> forall p :: p in r.value <==> p in posts && p.tenantId == tenant.value
      ensures r.Ok? ==> forall i, j :: 0 <= i < j < |r.value| ==> r.value[i].updatedAt >= r.value[j].updatedAt
    {
      if tenant.None? then Err(TenantNotFound)
      else if fails then Err(DatabaseError)
      else
        var s := PostsOfTenant(posts, tenant.value);
        var sorted := Seqs.SortBy(s, NewestUpdateFirst);
        assert Seqs.Total(NewestUpdateFirst) && Seqs.Transitive(NewestUpdateFirst);
        Seqs.SortBySorted(s, NewestUpdateFirst);
        Seqs.SameMembers(sorted, s);
        assert forall i, j :: 0 <= i < j < |sorted| ==> sorted[i].updatedAt >= sorted[j].updatedAt by {
          forall i, j | 0 <= i < j < |sorted| ensures sorted[i].updatedAt >= sorted[j].updatedAt {
            Seqs.SortedPairwise(sorted, NewestUpdateFirst, i, j);
          }
        }
        Ok(sorted)
    }

    /** getPostById. `fails` says that the select returns an error other than finding no row. */
    function GetPostById(tenant: Option<TenantId>, postId: nat, fails: bool): (r: Result<PostRow, PostError>)
      reads this
      requires Valid()
      ensures tenant.None? ==> r == Err(TenantNotFound)
      ensures tenant.Some? && fails ==> r == Err(DatabaseError)
      ensures tenant.Some? && !fails ==> (r.Ok? <==> HasPost(posts, postId, tenant.value))
      ensures tenant.Some? && !fails && r.Err? ==> r == Err(NoSingleRow)
      ensures r.Ok? ==> r.value in posts && r.value.id == postId && r.value.tenantId == tenant.value
    {
      if tenant.None? then Err(TenantNotFound)
      else if fails then Err(DatabaseError)
      else
        FindPostOwned(posts, postId, tenant.value);
        match FindPost(posts, postId, tenant.value)
        case None => Err(NoSingleRow)
        case Some(p) => Ok(p)
    }

    /**
     * savePost: with an id, overwrite the tenant's row with that id; without
     * one (`null` or the empty string), insert a new row for the tenant.
     * `fails` says that the update or the insert returns an error other
     * than finding no row.
     */
    method SavePost(tenant: Option<TenantId>, postId: Option<nat>, data: PostInput, now: Instant, fails: bool)
      returns (r: Result<PostRow, PostError>)
      requires Valid()
      modifies this
      ensures Valid()
      ensures tenant.None? ==> r == Err(TenantNotFound) && unchanged(this)
      ensures tenant.Some? && fails ==> r == Err(DatabaseError) && unchanged(this)
      ensures tenant.Some? && !fails && postId.Some? ==>
                && posts == UpdateWhere(old(posts), postId.value, tenant.value, p => Written(p, data, now))
                && nextPostId == old(nextPostId)
                && (HasPost(old(posts), postId.value, tenant.value) <==> r.Ok?)
                && (r.Ok? ==> (FindPost(old(posts), postId.value, tenant.value).Some? &&
                               r.value == Written(FindPost(old(posts), postId.value, tenant.value).value, data, now)))
                && (r.Err? ==> r == Err(NoSingleRow) && posts == old(posts))
      ensures tenant.Some? && !fails && postId.None? ==>
                var p := Written(PostRow(old(nextPostId), tenant.value, "", "", None, Null, PostDraft, None, now), data, now);
                r == Ok(p) && posts == old(posts) + [p] && nextPostId == old(nextPostId) + 1
    {
      if tenant.None? {
        return Err(TenantNotFound);
      }
      if fails {
        return Err(DatabaseError);
      }
      if postId.Some? {
        r := UpdateSelected(tenant.value, postId.value, p => Written(p, data, now));
      } else {
        var p := Written(PostRow(nextPostId, tenant.value, "", "", None, Null, PostDraft, None, now), data, now);
        posts := posts + [p];
        nextPostId := nextPostId + 1;
        r := Ok(p);
      }
    }

    /** `update(f(row)).eq("id", id).eq("tenant_id", tenant).select().single()` */
    method UpdateSelected(tenant: TenantId, postId: nat, f: PostRow -> PostRow) returns (r: Result<PostRow, PostError>)
      requires Valid()
      requires forall p :: f(p).id == p.id && f(p).tenantId == p.tenantId && Stamped(f(p))
      modifies this
      ensures Valid()
      ensures nextPostId == old(nextPostId)
      ensures posts == UpdateWhere(old(posts), postId, tenant, f)
      ensures HasPost(old(posts), postId, tenant) <==> r.Ok?
      ensures r.Ok? ==> FindPost(old(posts), postId, tenant).Some? && r.value == f(FindPost(old(posts), postId, tenant).value)
      ensures r.Err? ==> r == Err(NoSingleRow) && posts == old(posts)
    {
      FindPostOwned(posts, postId, tenant);
      var found := FindPost(posts, postId, tenant);
      if found.None? {
        UpdateNone(posts, postId, tenant, f);
        return Err(NoSingleRow);
      }
      UpdatedRow(posts, postId, tenant, f);
      UpdateKeepsValid(posts, nextPostId, postId, tenant, f);
      posts := UpdateWhere(posts, postId, tenant, f);
      r := Ok(f(found.value));
    }

    /**
     * publishPost: the tenant's post becomes published, stamped with `now`.
     * `fails` says that the update returns an error other than finding no row.
     */
    method PublishPost(tenant: Option<TenantId>, postId: nat, now: Instant, fails: bool) returns (r: Result<PostRow, PostError>)
      requires Valid()
      modifies this
      ensures Valid()
      ensures nextPostId == old(nextPostId)
      ensures tenant.None? ==> r == Err(TenantNotFound) && posts == old(posts)
      ensures tenant.Some? && fails ==> r == Err(DatabaseError) && posts == old(posts)
      ensures tenant.Some? && !fails ==>
                && posts == UpdateWhere(old(posts), postId, tenant.value, p => Published(p, now))
                && (HasPost(old(posts), postId, tenant.value) <==> r.Ok?)
                && (r.Ok? ==> (FindPost(old(posts), postId, tenant.value).Some? &&
                               r.value == Published(FindPost(old(posts), postId, tenant.value).value, now)))
                && (r.Err? ==> r == Err(NoSingleRow) && posts == old(posts))
    {
      if tenant.None? {
        return Err(TenantNotFound);
      }
      if fails {
        return Err(DatabaseError);
      }
      r := UpdateSelected(tenant.value, postId, p => Published(p, now));
    }

    /**
     * deletePost: the tenant's rows with this id go; success even when there
     * was none. `fails` says that the delete is rejected.
     */
    method DeletePost(tenant: Option<TenantId>, postId: nat, fails: bool) returns (r: Result<bool, PostError>)
      requires Valid()
      modifies this
      ensures Valid()
      ensures nextPostId == old(nextPostId)
      ensures tenant.None? ==> r == Err(TenantNotFound) && posts == old(posts)
      ensures tenant.Some? && fails ==> r == Err(DatabaseError) && posts == old(posts)
      ensures tenant.Some? && !fails ==> r == Ok(true) && posts == DeleteWhere(old(posts), postId, tenant.value)
    {
      if tenant.None? {
        return Err(TenantNotFound);
      }
      if fails {
        return Err(DatabaseError);
      }
      DeleteKeepsOrder(posts, postId, tenant.value);
      posts := DeleteWhere(posts, postId, tenant.value);
      r := Ok(true);
    }
  }

  /** `{ status: "published", published_at: now }` */
  function Published(p: PostRow, now: Instant): (q: PostRow)
    ensures q == p.(status := PostPublished, publishedAt := Some(now))
    ensures Stamped(q)
  {
    p.(status := PostPublished, publishedAt := Some(now))
  }

  /** Deleting keeps the remaining rows in their order, so ids still increase. */
  lemma DeleteKeepsOrder(ps: seq<PostRow>, id: nat, tenant: TenantId)
    requires IdsIncrease(ps)
    ensures IdsIncrease(DeleteWhere(ps, id, tenant))
  {
    var rel := (a: PostRow, b: PostRow) => a.id < b.id;
    assert Seqs.Pairwise(ps, rel);
    Seqs.FilterPairwise(ps, KeptBy(id, tenant), rel);
    var r := DeleteWhere(ps, id, tenant);
    assert Seqs.Pairwise(r, rel);
    assert forall i, j :: 0 <= i < j < |r| ==> rel(r[i], r[j]);
  }

  /** Deleting never removes a row of another tenant, nor one with another id. */
  lemma DeleteOnlySelected(ps: seq<PostRow>, id: nat, tenant: TenantId)
    ensures forall p :: p in ps && (p.tenantId != tenant || p.id != id) ==> p in DeleteWhere(ps, id, tenant)
    ensures forall p :: p in DeleteWhere(ps, id, tenant) ==> !(p.id == id && p.tenantId == tenant)
  {
  }
}
