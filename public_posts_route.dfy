/**
 * GET /api/public/posts (src/app/api/public/posts/route.ts): a tenant's
 * published posts, latest publication first, at most `limit` of them.
 */
module PublicPostsRoute {
  import opened Wrappers
  import Seqs
  import Strings
  import opened PostStore
  import opened Ids

  /** `{ posts }` with status 200, or `{ error }` with status 404. */
  datatype Response = PostsFound(posts: seq<PostRow>) | NotFound

  /** `parseInt(searchParams.get("limit") || "10")`; `None` is NaN. */
  function LimitParam(limit: Option<string>): (n: Option<int>)
    ensures limit.None? || limit.value == "" ==> n == Some(10)
  {
    if limit.Some? && limit.value != "" then Strings.ParseInt(limit.value)
    else
      assert Strings.AllDigits("10");
      assert "10"[..1] == "1" && "1"[..0] == "";
      assert Strings.DigitsValue("1") == 1;
      assert Strings.DigitsValue("10") == 10;
      Strings.ParseInt("10")
  }

  /**
   * `order("published_at", { ascending: false })`: later first, and rows
   * without a publication time before all others, as the database sorts
   * nulls in a descending order.
   */
  predicate LaterFirst(a: PostRow, b: PostRow)
  {
    a.publishedAt.None? || (b.publishedAt.Some? && a.publishedAt.value >= b.publishedAt.value)
  }

  lemma LaterFirstOrder()
    ensures Seqs.Total(LaterFirst) && Seqs.Transitive(LaterFirst)
  {
  }

  function IsPublicFor(tenant: TenantId): PostRow -> bool
  {
    (p: PostRow) => p.tenantId == tenant && p.status == PostPublished
  }

  /** The published posts of the tenant, latest first. */
  function PublicPosts(ps: seq<PostRow>, tenant: TenantId): seq<PostRow>
  {
    Seqs.SortBy(Seqs.Filter(ps, IsPublicFor(tenant)), LaterFirst)
  }

  /** A limit the database accepts: a number, and not a negative one. */
  predicate ValidLimit(limit: Option<string>)
  {
    LimitParam(limit).Some? && LimitParam(limit).value >= 0
  }

  /**
   * The response. A missing `tenant` compares `tenant_id` with null, a
   * `limit` that is not a number is no valid limit and a negative LIMIT is
   * refused by Postgres: the database rejects all three, and any database
   * error answers 404. `fails` says that the select fails for another
   * reason.
   */
  function Get(ps: seq<PostRow>, tenant: Option<TenantId>, limit: Option<string>, fails: bool): (r: Response)
    ensures tenant.None? || !ValidLimit(limit) || fails ==> r == NotFound
    ensures tenant.Some? && ValidLimit(limit) && !fails ==>
              && r.PostsFound?
              && var n := LimitParam(limit).value;
                 var all := PublicPosts(ps, tenant.value);
                 && |r.posts| == (if n < |all| then n else |all|)
                 && r.posts == all[..|r.posts|]
    ensures r.PostsFound? ==>
              && tenant.Some? && ValidLimit(limit)
              && (forall p :: p in r.posts ==> p in ps && p.tenantId == tenant.value && p.status == PostPublished)
              && (forall i, j :: 0 <= i < j < |r.posts| ==> LaterFirst(r.posts[i], r.posts[j]))
  {
    if tenant.None? || !ValidLimit(limit) || fails then NotFound
    else
      var all := PublicPosts(ps, tenant.value);
      PublicPostsSpec(ps, tenant.value);
      var taken := Seqs.Take(all, LimitParam(limit).value);
      assert forall p :: p in taken ==> p in all;
      PostsFound(taken)
  }

  /** The listing before the limit: exactly the tenant's published posts, latest first. */
  lemma PublicPostsSpec(ps: seq<PostRow>, tenant: TenantId)
    ensures var all := PublicPosts(ps, tenant);
            && multiset(all) == multiset(Seqs.Filter(ps, IsPublicFor(tenant)))
            && (forall p :: p in all <==> p in ps && p.tenantId == tenant && p.status == PostPublished)
            && (forall i, j :: 0 <= i < j < |all| ==> LaterFirst(all[i], all[j]))
  {
    var all := PublicPosts(ps, tenant);
    var f := Seqs.Filter(ps, IsPublicFor(tenant));
    LaterFirstOrder();
    Seqs.SortBySorted(f, LaterFirst);
    Seqs.SameMembers(all, f);
    forall i, j | 0 <= i < j < |all| ensures LaterFirst(all[i], all[j]) {
      Seqs.SortedPairwise(all, LaterFirst, i, j);
    }
  }

  /** When the tenant has no more published posts than the limit, all of them are returned. */
  lemma AllWithinLimit(ps: seq<PostRow>, tenant: TenantId, limit: Option<string>)
    requires ValidLimit(limit)
    requires |Seqs.Filter(ps, IsPublicFor(tenant))| <= LimitParam(limit).value
    ensures Get(ps, Some(tenant), limit, false).PostsFound?
    ensures multiset(Get(ps, Some(tenant), limit, false).posts) == multiset(Seqs.Filter(ps, IsPublicFor(tenant)))
  {
  }

  /**
   * In a table where publication times are stamped exactly on published
   * rows, every post served has one, and they come latest first.
   */
  lemma ServedAreStamped(ps: seq<PostRow>, tenant: Option<TenantId>, limit: Option<string>, fails: bool)
    requires forall i :: 0 <= i < |ps| ==> Stamped(ps[i])
    ensures var r := Get(ps, tenant, limit, fails);
            r.PostsFound? ==>
              && (forall p :: p in r.posts ==> p.publishedAt.Some?)
              && (forall i, j :: 0 <= i < j < |r.posts| ==> r.posts[i].publishedAt.value >= r.posts[j].publishedAt.value)
  {
    var r := Get(ps, tenant, limit, fails);
    if r.PostsFound? {
      forall p | p in r.posts ensures p.publishedAt.Some? {
        var i :| 0 <= i < |ps| && ps[i] == p;
      }
    }
  }
}
