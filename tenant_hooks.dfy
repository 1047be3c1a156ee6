/**
 * The client-side tenant hooks: useTenantId (src/lib/hooks/use-tenant-id.ts),
 * which takes the context's tenant or else the ?tenant= query value, and the
 * two useTenants hooks (src/lib/hooks/use-tenants.ts and
 * cms-frontend-builder/lib/hooks/use-tenants.ts), which turn the user's
 * tenant_users rows into a tenant list and choose the active tenant.
 *
 * Tenant ids here are the database's uuid strings.
 */
module TenantHooks {
  import opened Wrappers
  import opened Json

  /** `tenantId || queryTenant || null`: the first non-empty of the two. */
  function TenantIdOf(contextId: Option<string>, queryTenant: Option<string>): (r: Option<string>)
    ensures r.Some? ==> r.value != ""
    ensures contextId.Some? && contextId.value != "" ==> r == contextId
    ensures !(contextId.Some? && contextId.value != "") && queryTenant.Some? && queryTenant.value != "" ==> r == queryTenant
    ensures r.None? <==> !(contextId.Some? && contextId.value != "") && !(queryTenant.Some? && queryTenant.value != "")
  {
    if contextId.Some? && contextId.value != "" then contextId
    else if queryTenant.Some? && queryTenant.value != "" then queryTenant
    else None
  }

  /** The `tenants(id, name, slug, created_at)` row a tenant_users row joins to. */
  datatype Joined = Joined(id: string, name: string, slug: string, createdAt: Option<string>)

  /** A tenant_users row; `tenant` is `None` when the joined tenant is missing. */
  datatype TenantUser = TenantUser(tenantId: string, tenant: Option<Joined>)

  /** The hook's Tenant; `domain` is `None` for undefined. */
  datatype Tenant = Tenant(id: string, name: string, slug: string, domain: Option<Value>, createdAt: Option<string>, brandColor: Value)

  /**
   * The fields of a tenant's settings row as the hooks read them (`settings`
   * maps a tenant id to the value of its one settings row): an object's
   * fields, and none for no row or a value that is not an object.
   */
  function SettingsFields(settings: map<string, Value>, id: string): (f: Props)
    ensures id in settings && settings[id].Obj? ==> f == settings[id].fields
    ensures !(id in settings && settings[id].Obj?) ==> f == map[]
  {
    if id in settings && settings[id].Obj? then settings[id].fields else map[]
  }

  /** Drop the `null`s of a mapped list: `filter((t) => t !== null)`. */
  function Keep(s: seq<Option<Tenant>>): (r: seq<Tenant>)
    ensures |r| <= |s|
    ensures forall t :: t in r <==> Some(t) in s
  {
    if s == [] then []
    else
      var rest := Keep(s[1..]);
      assert s == [s[0]] + s[1..];
      (if s[0].Some? then [s[0].value] else []) + rest
  }

  /** Where a kept tenant came from. */
  lemma KeepIndex(s: seq<Option<Tenant>>, t: Tenant) returns (i: nat)
    requires t in Keep(s)
    ensures i < |s| && s[i] == Some(t)
  {
    i :| 0 <= i < |s| && s[i] == Some(t);
  }

  /** Every present entry is kept. */
  lemma KeepHas(s: seq<Option<Tenant>>, i: nat)
    requires i < |s| && s[i].Some?
    ensures s[i].value in Keep(s)
  {
    assert s[i] in s;
  }

  /** The filter keeps the relative order of what it keeps. */
  lemma {:induction false} KeepAppend(a: seq<Option<Tenant>>, b: seq<Option<Tenant>>)
    ensures Keep(a + b) == Keep(a) + Keep(b)
    decreases |a|
  {
    if a == [] {
      assert a + b == b;
    } else {
      assert (a + b)[1..] == a[1..] + b;
      KeepAppend(a[1..], b);
    }
  }

  // ---------------------------------------------------------------------
  // src/lib/hooks/use-tenants.ts

  /** `domain = value.domain || ""`, with "" when there is no settings object. */
  function SiteDomain(settings: map<string, Value>, id: string): (d: Value)
    ensures Present(Get(SettingsFields(settings, id), "domain")) ==> d == SettingsFields(settings, id)["domain"]
    ensures !Present(Get(SettingsFields(settings, id), "domain")) ==> d == Str("")
  {
    Or(Get(SettingsFields(settings, id), "domain"), Str(""))
  }

  /** One row of the list: `null` for a missing tenant, otherwise the tenant with its domain and the fixed colour. */
  function SiteFormat(tu: TenantUser, settings: map<string, Value>): (r: Option<Tenant>)
    ensures r.None? <==> tu.tenant.None?
    ensures r.Some? ==> r.value.id == tu.tenant.value.id && r.value.brandColor == Str("#6366f1")
    ensures r.Some? ==> r.value.domain == Some(SiteDomain(settings, tu.tenant.value.id))
  {
    match tu.tenant
    case None => None
    case Some(j) => Some(Tenant(j.id, j.name, j.slug, Some(SiteDomain(settings, j.id)), j.createdAt, Str("#6366f1")))
  }

  /** `tenantUsers.map(...)`: one formatted entry per row. */
  function SiteMapped(rows: seq<TenantUser>, settings: map<string, Value>): (m: seq<Option<Tenant>>)
    ensures |m| == |rows|
    ensures forall i :: 0 <= i < |rows| ==> m[i] == SiteFormat(rows[i], settings)
  {
    seq(|rows|, i requires 0 <= i < |rows| => SiteFormat(rows[i], settings))
  }

  /** The formatted tenants, in tenant_users order. */
  function SiteList(rows: seq<TenantUser>, settings: map<string, Value>): seq<Tenant>
  {
    Keep(SiteMapped(rows, settings))
  }

  /** Rows without a tenant are dropped; every listed tenant has a domain and the fixed colour. */
  lemma SiteListSpec(rows: seq<TenantUser>, settings: map<string, Value>)
    ensures forall t :: t in SiteList(rows, settings) ==> t.domain.Some? && t.brandColor == Str("#6366f1")
    ensures forall t :: t in SiteList(rows, settings) ==> exists i :: 0 <= i < |rows| && rows[i].tenant.Some? && rows[i].tenant.value.id == t.id
    ensures forall i :: 0 <= i < |rows| && rows[i].tenant.Some? ==> exists t :: t in SiteList(rows, settings) && t.id == rows[i].tenant.value.id
  {
    forall t | t in SiteList(rows, settings)
      ensures t.domain.Some? && t.brandColor == Str("#6366f1")
      ensures exists i :: 0 <= i < |rows| && rows[i].tenant.Some? && rows[i].tenant.value.id == t.id
    {
      var i := SiteSource(rows, settings, t);
    }
    forall i | 0 <= i < |rows| && rows[i].tenant.Some?
      ensures exists t :: t in SiteList(rows, settings) && t.id == rows[i].tenant.value.id
    {
      KeepHas(SiteMapped(rows, settings), i);
    }
  }

  /** The row a listed tenant came from. */
  lemma SiteSource(rows: seq<TenantUser>, settings: map<string, Value>, t: Tenant) returns (i: nat)
    requires t in SiteList(rows, settings)
    ensures i < |rows| && rows[i].tenant.Some? && rows[i].tenant.value.id == t.id
    ensures t.domain.Some? && t.brandColor == Str("#6366f1")
  {
    i := KeepIndex(SiteMapped(rows, settings), t);
  }

  /** Listing a concatenation lists the parts one after the other: the order of the rows is kept. */
  lemma SiteListAppend(a: seq<TenantUser>, b: seq<TenantUser>, settings: map<string, Value>)
    ensures SiteList(a + b, settings) == SiteList(a, settings) + SiteList(b, settings)
  {
    var ma := SiteMapped(a, settings);
    var mb := SiteMapped(b, settings);
    assert SiteMapped(a + b, settings) == ma + mb;
    KeepAppend(ma, mb);
  }

  // ---------------------------------------------------------------------
  // The active tenant, the same rule in both hooks

  /** Some listed tenant has this id: `validTenants.some((t) => t.id === id)`. */
  predicate Listed(list: seq<Tenant>, id: string)
  {
    exists i :: 0 <= i < |list| && list[i].id == id
  }

  /** The `setActiveTenant` updater: keep the previous tenant while it is listed, else the first, else `null`. */
  function SelectActive(prev: Option<Tenant>, list: seq<Tenant>): (r: Option<Tenant>)
    ensures r.None? <==> list == []
    ensures r.Some? ==> Listed(list, r.value.id)
    ensures prev.Some? && Listed(list, prev.value.id) ==> r == prev
    ensures !(prev.Some? && Listed(list, prev.value.id)) && list != [] ==> r == Some(list[0])
  {
    if prev.Some? && Listed(list, prev.value.id) then prev
    else if |list| > 0 then Some(list[0])
    else None
  }

  /** Choosing again from the same list keeps the choice. */
  lemma SelectStable(prev: Option<Tenant>, list: seq<Tenant>)
    ensures SelectActive(SelectActive(prev, list), list) == SelectActive(prev, list)
  {
  }

  /**
   * A kept tenant is the previous object, not the new row with its id: a
   * renamed tenant stays active under its old name until it is chosen again.
   */
  lemma KeptIsStale(prev: Tenant, renamed: Tenant)
    requires prev.id == renamed.id && prev != renamed
    ensures SelectActive(Some(prev), [renamed]) == Some(prev)
    ensures SelectActive(Some(prev), [renamed]) != Some(renamed)
  {
    assert [renamed][0].id == prev.id;
  }

  /** The cms-frontend-builder updater's side effect: the id to push to the context and storage, if any. */
  function SyncTarget(prev: Option<Tenant>, list: seq<Tenant>): (r: Option<string>)
    ensures r.Some? ==> SelectActive(prev, list).Some? && r.value == SelectActive(prev, list).value.id
  {
    if prev.Some? && Listed(list, prev.value.id) then None
    else if |list| > 0 then Some(list[0].id)
    else None
  }

  /** Something is synced exactly when the active tenant changes to a tenant. */
  lemma SyncOnChange(prev: Option<Tenant>, list: seq<Tenant>)
    ensures SyncTarget(prev, list).Some? <==> SelectActive(prev, list).Some? && SelectActive(prev, list) != prev
  {
    if |list| > 0 {
      assert Listed(list, list[0].id);
    }
  }

  /** The src hook's state: the tenant list, the active tenant and the loading flag. */
  class SiteTenants {
    var tenants: seq<Tenant>
    var active: Option<Tenant>
    var isLoading: bool

    constructor()
      ensures tenants == [] && active == None && isLoading
    {
      tenants := [];
      active := None;
      isLoading := true;
    }

    /**
     * The fetch effect for `user`. `rows` is the tenant_users answer (a `null`
     * answer is the empty list), `fetchFails` its error, and `settings` the
     * settings value of each tenant that has one.
     */
    method Refresh(user: Option<string>, rows: seq<TenantUser>, fetchFails: bool, settings: map<string, Value>)
      modifies this
      ensures !isLoading
      ensures user.None? || fetchFails ==> tenants == old(tenants) && active == old(active)
      ensures user.Some? && !fetchFails ==> tenants == SiteList(rows, settings) && active == SelectActive(old(active), tenants)
    {
      if user.None? {
        isLoading := false;
        return;
      }
      isLoading := true;
      if fetchFails {
        isLoading := false;
        return;
      }
      var list := SiteList(rows, settings);
      tenants := list;
      active := SelectActive(active, list);
      isLoading := false;
    }
  }

  // ---------------------------------------------------------------------
  // cms-frontend-builder/lib/hooks/use-tenants.ts

  /** `domain = value.domain || undefined` */
  function BuilderDomain(settings: map<string, Value>, id: string): (d: Option<Value>)
    ensures d.Some? <==> Present(Get(SettingsFields(settings, id), "domain"))
    ensures d.Some? ==> d.value == SettingsFields(settings, id)["domain"] && Truthy(d.value)
  {
    var f := SettingsFields(settings, id);
    if Present(Get(f, "domain")) then Some(f["domain"]) else None
  }

  /** `brandColor = value.primaryColor || "#6366f1"`: the settings' primaryColor when it is set. */
  function BuilderColor(settings: map<string, Value>, id: string): (c: Value)
    ensures Present(Get(SettingsFields(settings, id), "primaryColor")) ==> c == SettingsFields(settings, id)["primaryColor"]
    ensures !Present(Get(SettingsFields(settings, id), "primaryColor")) ==> c == Str("#6366f1")
  {
    Or(Get(SettingsFields(settings, id), "primaryColor"), Str("#6366f1"))
  }

  function BuilderFormat(tu: TenantUser, settings: map<string, Value>): (r: Option<Tenant>)
    ensures r.None? <==> tu.tenant.None?
    ensures r.Some? ==> r.value.id == tu.tenant.value.id
    ensures r.Some? ==> r.value.domain == BuilderDomain(settings, tu.tenant.value.id) && r.value.brandColor == BuilderColor(settings, tu.tenant.value.id)
  {
    match tu.tenant
    case None => None
    case Some(j) => Some(Tenant(j.id, j.name, j.slug, BuilderDomain(settings, j.id), j.createdAt, BuilderColor(settings, j.id)))
  }

  function BuilderMapped(rows: seq<TenantUser>, settings: map<string, Value>): (m: seq<Option<Tenant>>)
    ensures |m| == |rows|
    ensures forall i :: 0 <= i < |rows| ==> m[i] == BuilderFormat(rows[i], settings)
  {
    seq(|rows|, i requires 0 <= i < |rows| => BuilderFormat(rows[i], settings))
  }

  function BuilderList(rows: seq<TenantUser>, settings: map<string, Value>): seq<Tenant>
  {
    Keep(BuilderMapped(rows, settings))
  }

  /** Rows without a tenant are dropped, and with no settings object a tenant has no domain and the default colour. */
  lemma BuilderListSpec(rows: seq<TenantUser>, settings: map<string, Value>)
    ensures forall t :: t in BuilderList(rows, settings) ==> exists i :: 0 <= i < |rows| && rows[i].tenant.Some? && rows[i].tenant.value.id == t.id
    ensures forall i :: 0 <= i < |rows| && rows[i].tenant.Some? ==> exists t :: t in BuilderList(rows, settings) && t.id == rows[i].tenant.value.id
    ensures forall t :: t in BuilderList(rows, settings) && !(t.id in settings && settings[t.id].Obj?) ==> t.domain.None? && t.brandColor == Str("#6366f1")
  {
    forall t | t in BuilderList(rows, settings)
      ensures exists i :: 0 <= i < |rows| && rows[i].tenant.Some? && rows[i].tenant.value.id == t.id
      ensures !(t.id in settings && settings[t.id].Obj?) ==> t.domain.None? && t.brandColor == Str("#6366f1")
    {
      var i := BuilderSource(rows, settings, t);
    }
    forall i | 0 <= i < |rows| && rows[i].tenant.Some?
      ensures exists t :: t in BuilderList(rows, settings) && t.id == rows[i].tenant.value.id
    {
      KeepHas(BuilderMapped(rows, settings), i);
    }
  }

  /** The row a listed tenant came from, and its defaults when it has no settings. */
  lemma BuilderSource(rows: seq<TenantUser>, settings: map<string, Value>, t: Tenant) returns (i: nat)
    requires t in BuilderList(rows, settings)
    ensures i < |rows| && rows[i].tenant.Some? && rows[i].tenant.value.id == t.id
    ensures !(t.id in settings && settings[t.id].Obj?) ==> t.domain.None? && t.brandColor == Str("#6366f1")
  {
    i := KeepIndex(BuilderMapped(rows, settings), t);
    if !(t.id in settings && settings[t.id].Obj?) {
      NoSettingsDefaults(settings, t.id);
    }
  }

  /** A tenant without a settings object gets no domain and the default colour. */
  lemma NoSettingsDefaults(settings: map<string, Value>, id: string)
    requires !(id in settings && settings[id].Obj?)
    ensures BuilderDomain(settings, id) == None && BuilderColor(settings, id) == Str("#6366f1")
  {
    assert SettingsFields(settings, id) == map[];
  }

  /** The builder hook's state, with the tenant context's id and localStorage's "activeTenantId". */
  class BuilderTenants {
    var tenants: seq<Tenant>
    var active: Option<Tenant>
    var isLoading: bool
    var contextId: Option<string>
    var storedId: Option<string>

    constructor(contextId: Option<string>, storedId: Option<string>)
      ensures tenants == [] && active == None && isLoading
      ensures this.contextId == contextId && this.storedId == storedId
    {
      tenants := [];
      active := None;
      isLoading := true;
      this.contextId := contextId;
      this.storedId := storedId;
    }

    /** The fetch effect; `hasWindow` is `typeof window !== "undefined"`. */
    method Refresh(user: Option<string>, rows: seq<TenantUser>, fetchFails: bool, settings: map<string, Value>, hasWindow: bool)
      modifies this
      ensures !isLoading
      ensures user.None? || fetchFails ==>
                tenants == old(tenants) && active == old(active) && contextId == old(contextId) && storedId == old(storedId)
      ensures user.Some? && !fetchFails ==>
                && tenants == BuilderList(rows, settings)
                && active == SelectActive(old(active), tenants)
                && contextId == (if SyncTarget(old(active), tenants).Some? then SyncTarget(old(active), tenants) else old(contextId))
                && storedId == (if hasWindow && SyncTarget(old(active), tenants).Some? then SyncTarget(old(active), tenants) else old(storedId))
    {
      if user.None? {
        isLoading := false;
        return;
      }
      isLoading := true;
      if fetchFails {
        isLoading := false;
        return;
      }
      var list := BuilderList(rows, settings);
      tenants := list;
      var newActive := SelectActive(active, list);
      if !(active.Some? && Listed(list, active.value.id)) && newActive.Some? {
        contextId := Some(newActive.value.id);
        if hasWindow {
          storedId := Some(newActive.value.id);
        }
      }
      active := newActive;
      isLoading := false;
    }
  }
}
