/**
 * The `tenants` and `tenant_users` tables and the server actions of
 * src/actions/tenants.ts and src/actions/updateTenant.ts over them. The
 * signed-in user is a parameter (`None` when nobody is signed in); each
 * database write that may fail takes a flag saying whether it does.
 * Tenant settings live in the `globals` table as the row keyed "settings".
 */
module TenantStore {
  import opened Wrappers
  import opened Json
  import opened Ids
  import Strings
  import Seqs
  import Slug
  import GlobalStore
  import PageStore

  datatype TenantRow = TenantRow(id: TenantId, name: string, slug: string)

  datatype LinkRow = LinkRow(tenantId: TenantId, userId: string, role: string)

  /** `role: string = "owner"`: the role linkUserToTenant writes. */
  function LinkRole(role: Option<string>): (r: string)
    ensures role.None? ==> r == "owner"
    ensures role.Some? ==> r == role.value
  {
    role.GetOr("owner")
  }

  datatype TenantError =
    | Unauthorized
      /** The user has no link to the tenant. */
    | NoAccess
      /** The user's role is neither owner nor admin. */
    | NotOwnerOrAdmin
    | TenantNotFound
    | AlreadyExists(name: string)
      /** An error message passed on from the database. */
    | DatabaseError

  datatype LinkOutcome = AlreadyLinked | Linked

  /** getTenantById's result: the tenant row with three settings read from `globals`. */
  datatype TenantInfo = TenantInfo(row: TenantRow, domain: Value, brandColor: Value, defaultLocale: Value)

  /** JavaScript truthiness of an optional string argument. */
  predicate Given(o: Option<string>)
  {
    o.Some? && o.value != ""
  }

  /** `o || d` for an optional string. */
  function OrText(o: Option<string>, d: string): (r: string)
    ensures Given(o) ==> r == o.value
    ensures !Given(o) ==> r == d
  {
    if Given(o) then o.value else d
  }

  // ---------------------------------------------------------------------
  // Row selections

  function SlugIs(slug: string): TenantRow -> bool
  {
    (t: TenantRow) => t.slug == slug
  }

  /** `.or("slug.eq.<key>,id.eq.<key>")` */
  function KeyIs(key: string): TenantRow -> bool
  {
    (t: TenantRow) => t.slug == key || Strings.NatToString(t.id) == key
  }

  function IdIsNot(id: TenantId): TenantRow -> bool
  {
    (t: TenantRow) => t.id != id
  }

  function LinkIs(tenantId: TenantId, userId: string): LinkRow -> bool
  {
    (l: LinkRow) => l.tenantId == tenantId && l.userId == userId
  }

  function LinkNotOf(tenantId: TenantId): LinkRow -> bool
  {
    (l: LinkRow) => l.tenantId != tenantId
  }

  /** The user's link to the tenant, as `.single()` returns it. */
  function LinkOf(links: seq<LinkRow>, tenantId: TenantId, userId: string): Option<LinkRow>
  {
    Seqs.Single(Seqs.Filter(links, LinkIs(tenantId, userId)))
  }

  /** The tenant the key names, as `.single()` returns it. */
  function TenantByKey(tenants: seq<TenantRow>, key: string): Option<TenantRow>
  {
    Seqs.Single(Seqs.Filter(tenants, KeyIs(key)))
  }

  /** Tenants are kept in insertion order: ids increase, and no slug repeats. */
  predicate TenantsApart(a: TenantRow, b: TenantRow)
  {
    a.id < b.id && a.slug != b.slug
  }

  /** A user is linked to a tenant at most once. */
  predicate LinksApart(a: LinkRow, b: LinkRow)
  {
    !(a.tenantId == b.tenantId && a.userId == b.userId)
  }

  /** `update({ name }).eq("id", id)` */
  function Renamed(tenants: seq<TenantRow>, id: TenantId, name: string): (r: seq<TenantRow>)
    ensures |r| == |tenants|
    ensures forall i :: 0 <= i < |r| ==> r[i] == if tenants[i].id == id then tenants[i].(name := name) else tenants[i]
  {
    seq(|tenants|, i requires 0 <= i < |tenants| => if tenants[i].id == id then tenants[i].(name := name) else tenants[i])
  }

  // ---------------------------------------------------------------------
  // Settings

  /** The fields `settings?.value` offers to property reads, and to a spread when it is an object. */
  function SettingsFields(rows: seq<GlobalStore.GlobalRow>, tenant: TenantId): (s: Props)
    ensures GlobalStore.Lookup(rows, tenant, "settings").None? ==> s == map[]
  {
    match GlobalStore.Lookup(rows, tenant, "settings")
    case None => map[]
    case Some(row) => SpreadOf(row.value)
  }

  /** `{ ...p, ...(flag && { key: value }) }`: the key set when the argument is truthy, nothing else changed. */
  function SetIf(p: Props, o: Option<string>, key: string, value: string): (r: Props)
    ensures Get(r, key) == if Given(o) then Some(Str(value)) else Get(p, key)
    ensures forall k :: k != key ==> Get(r, k) == Get(p, k)
  {
    if Given(o) then p[key := Str(value)] else p
  }

  /**
   * updateTenant's merge: the current settings with a truthy domain
   * (trimmed), a truthy brandColor (stored as primaryColor) and a truthy
   * defaultLocale written over them.
   */
  function MergeSettings(current: Props, domain: Option<string>, brandColor: Option<string>, defaultLocale: Option<string>): (m: Props)
    ensures Given(domain) ==> Get(m, "domain") == Some(Str(Strings.Trim(domain.value)))
    ensures !Given(domain) ==> Get(m, "domain") == Get(current, "domain")
    ensures Given(brandColor) ==> Get(m, "primaryColor") == Some(Str(brandColor.value))
    ensures !Given(brandColor) ==> Get(m, "primaryColor") == Get(current, "primaryColor")
    ensures Given(defaultLocale) ==> Get(m, "defaultLocale") == Some(Str(defaultLocale.value))
    ensures !Given(defaultLocale) ==> Get(m, "defaultLocale") == Get(current, "defaultLocale")
    ensures forall k :: k != "domain" && k != "primaryColor" && k != "defaultLocale" ==> Get(m, k) == Get(current, k)
  {
    SettingsKeysDistinct();
    var withDomain := SetIf(current, domain, "domain", if domain.Some? then Strings.Trim(domain.value) else "");
    var withColor := SetIf(withDomain, brandColor, "primaryColor", OrText(brandColor, ""));
    SetIf(withColor, defaultLocale, "defaultLocale", OrText(defaultLocale, ""))
  }

  lemma SettingsKeysDistinct()
    ensures "domain" != "primaryColor" && "domain" != "defaultLocale" && "primaryColor" != "defaultLocale"
  {
    assert |"domain"| == 6 && |"primaryColor"| == 12 && |"defaultLocale"| == 13;
  }

  /** Two property bags that read alike are equal. */
  lemma SameReads(a: Props, b: Props)
    requires forall k :: Get(a, k) == Get(b, k)
    ensures a == b
  {
    assert a.Keys == b.Keys by {
      forall k ensures k in a <==> k in b {
        assert Get(a, k) == Get(b, k);
      }
    }
    assert forall k :: k in a ==> a[k] == b[k] by {
      forall k | k in a ensures a[k] == b[k] {
        assert Get(a, k) == Get(b, k);
      }
    }
  }

  /** With no truthy argument the settings are written back unchanged. */
  lemma MergeNothing(current: Props, domain: Option<string>, brandColor: Option<string>, defaultLocale: Option<string>)
    requires !Given(domain) && !Given(brandColor) && !Given(defaultLocale)
    ensures MergeSettings(current, domain, brandColor, defaultLocale) == current
  {
    var m := MergeSettings(current, domain, brandColor, defaultLocale);
    forall k ensures Get(m, k) == Get(current, k) {
      if k != "domain" && k != "primaryColor" && k != "defaultLocale" {
      }
    }
    SameReads(m, current);
  }

  /** Saving the same form twice leaves the settings as saving it once. */
  lemma MergeIdempotent(current: Props, domain: Option<string>, brandColor: Option<string>, defaultLocale: Option<string>)
    ensures var once := MergeSettings(current, domain, brandColor, defaultLocale);
            MergeSettings(once, domain, brandColor, defaultLocale) == once
  {
    var once := MergeSettings(current, domain, brandColor, defaultLocale);
    var twice := MergeSettings(once, domain, brandColor, defaultLocale);
    forall k ensures Get(twice, k) == Get(once, k) {
      if k != "domain" && k != "primaryColor" && k != "defaultLocale" {
      }
    }
    SameReads(twice, once);
  }

  /** getTenantById's reading: `domain || ""`, `primaryColor || "#6366f1"`, `defaultLocale || "en"`. */
  function InfoOf(row: TenantRow, settings: Props): (info: TenantInfo)
    ensures info.row == row
    ensures !Present(Get(settings, "domain")) ==> info.domain == Str("")
    ensures !Present(Get(settings, "primaryColor")) ==> info.brandColor == Str("#6366f1")
    ensures !Present(Get(settings, "defaultLocale")) ==> info.defaultLocale == Str("en")
    ensures Present(Get(settings, "domain")) ==> info.domain == settings["domain"]
    ensures Present(Get(settings, "primaryColor")) ==> info.brandColor == settings["primaryColor"]
    ensures Present(Get(settings, "defaultLocale")) ==> info.defaultLocale == settings["defaultLocale"]
  {
    TenantInfo(row, Or(Get(settings, "domain"), Str("")), Or(Get(settings, "primaryColor"), Str("#6366f1")),
               Or(Get(settings, "defaultLocale"), Str("en")))
  }

  /**
   * What updateTenant writes is what getTenantById then reads: a truthy
   * brandColor comes back as the brand colour, a truthy domain comes back
   * trimmed, and a truthy locale comes back as the locale.
   */
  lemma MergedReadsBack(row: TenantRow, current: Props, domain: Option<string>, brandColor: Option<string>, defaultLocale: Option<string>)
    ensures Given(domain) ==> InfoOf(row, MergeSettings(current, domain, brandColor, defaultLocale)).domain == Str(Strings.Trim(domain.value))
    ensures Given(brandColor) ==> InfoOf(row, MergeSettings(current, domain, brandColor, defaultLocale)).brandColor == Str(brandColor.value)
    ensures Given(defaultLocale) ==> InfoOf(row, MergeSettings(current, domain, brandColor, defaultLocale)).defaultLocale == Str(defaultLocale.value)
  {
    var m := MergeSettings(current, domain, brandColor, defaultLocale);
    if Given(brandColor) {
      ReadsWritten(row, m, "primaryColor", brandColor.value);
    }
    if Given(defaultLocale) {
      ReadsWritten(row, m, "defaultLocale", defaultLocale.value);
    }
    if Given(domain) {
      ReadsWritten(row, m, "domain", Strings.Trim(domain.value));
    }
  }

  /** A setting written as a string reads back as that string, whether or not it is empty. */
  lemma ReadsWritten(row: TenantRow, m: Props, key: string, v: string)
    requires Get(m, key) == Some(Str(v))
    requires key == "domain" || v != ""
    ensures key == "domain" ==> InfoOf(row, m).domain == Str(v)
    ensures key == "primaryColor" ==> InfoOf(row, m).brandColor == Str(v)
    ensures key == "defaultLocale" ==> InfoOf(row, m).defaultLocale == Str(v)
  {
  }

  /** The settings row createTenant writes: the trimmed domain, `brandColor || "#0d9488"`, and locale "el". */
  function CreatedSettings(domain: string, brandColor: Option<string>): (v: Value)
    ensures v.Obj? && v.fields.Keys == {"domain", "primaryColor", "defaultLocale"}
    ensures v.fields["domain"] == Str(Strings.Trim(domain))
    ensures v.fields["primaryColor"] == Str(if Given(brandColor) then brandColor.value else "#0d9488")
    ensures v.fields["defaultLocale"] == Str("el")
  {
    Obj(map["domain" := Str(Strings.Trim(domain)), "primaryColor" := Str(OrText(brandColor, "#0d9488")),
            "defaultLocale" := Str("el")])
  }

  /** A brand-new tenant's settings read back with its domain, colour and the locale "el". */
  lemma CreatedReadsBack(row: TenantRow, domain: string, brandColor: Option<string>)
    requires Strings.Trim(domain) != "" && Given(brandColor)
    ensures InfoOf(row, CreatedSettings(domain, brandColor).fields) ==
              TenantInfo(row, Str(Strings.Trim(domain)), Str(brandColor.value), Str("el"))
  {
  }

  /** The settings row upserted on (tenant_id, key), with status "published". */
  function SettingsItem(value: Value): (item: GlobalStore.GlobalItem)
    ensures GlobalStore.RowOf(0, item).status == "published" && item.key == "settings"
  {
    GlobalStore.GlobalItem("settings", value, Some("published"))
  }

  // ---------------------------------------------------------------------
  // The tables

  class Tenants {
    var tenants: seq<TenantRow>
    var links: seq<LinkRow>
    var nextId: nat
    /** The `globals` table, where each tenant's settings row lives. */
    const globals: GlobalStore.Store
    /** The `pages` and `page_versions` tables, where a new tenant's home page goes. */
    const pages: PageStore.Store

    ghost predicate Valid()
      reads this
    {
      && Seqs.Pairwise(tenants, TenantsApart)
      && (forall i :: 0 <= i < |tenants| ==> tenants[i].id < nextId)
      && Seqs.Pairwise(links, LinksApart)
      && (forall i :: 0 <= i < |links| ==> links[i].tenantId < nextId)
    }

    constructor (globals: GlobalStore.Store, pages: PageStore.Store)
      ensures Valid() && tenants == [] && links == []
      ensures this.globals == globals && this.pages == pages
    {
      tenants := [];
      links := [];
      nextId := 0;
      this.globals := globals;
      this.pages := pages;
    }

    /** The slug check's `.single()`: some tenant already has the slug. */
    predicate SlugTaken(slug: string)
      reads this
    {
      Seqs.Single(Seqs.Filter(tenants, SlugIs(slug))).Some?
    }

    /** While the table is consistent, the slug check sees a row exactly when one has the slug. */
    lemma SlugTakenExactly(slug: string)
      requires Valid()
      ensures !SlugTaken(slug) <==> forall i :: 0 <= i < |tenants| ==> tenants[i].slug != slug
    {
      Seqs.FilterAtMostOne(tenants, SlugIs(slug), TenantsApart);
      var r := Seqs.Filter(tenants, SlugIs(slug));
      if exists i :: 0 <= i < |tenants| && tenants[i].slug == slug {
        var i :| 0 <= i < |tenants| && tenants[i].slug == slug;
        assert tenants[i] in r;
      }
    }

    /** While links are unique, the link lookup finds one exactly when the user is linked. */
    lemma LinkOfExactly(tenantId: TenantId, userId: string)
      requires Valid()
      ensures LinkOf(links, tenantId, userId).None? <==>
                forall i :: 0 <= i < |links| ==> !(links[i].tenantId == tenantId && links[i].userId == userId)
      ensures LinkOf(links, tenantId, userId).Some? ==>
                LinkOf(links, tenantId, userId).value in links &&
                LinkOf(links, tenantId, userId).value.tenantId == tenantId &&
                LinkOf(links, tenantId, userId).value.userId == userId
    {
      Seqs.FilterAtMostOne(links, LinkIs(tenantId, userId), LinksApart);
      var r := Seqs.Filter(links, LinkIs(tenantId, userId));
      if exists i :: 0 <= i < |links| && links[i].tenantId == tenantId && links[i].userId == userId {
        var i :| 0 <= i < |links| && links[i].tenantId == tenantId && links[i].userId == userId;
        assert links[i] in r;
      }
    }

    /** Insert a tenant row with a slug no tenant has. */
    method InsertTenant(name: string, slug: string) returns (t: TenantRow)
      requires Valid()
      requires forall i :: 0 <= i < |tenants| ==> tenants[i].slug != slug
      modifies this
      ensures Valid()
      ensures t == TenantRow(old(nextId), name, slug)
      ensures tenants == old(tenants) + [t] && links == old(links) && nextId == old(nextId) + 1
    {
      t := TenantRow(nextId, name, slug);
      tenants := tenants + [t];
      nextId := nextId + 1;
    }

    /** Delete a tenant row; its tenant_users rows go with it (the cascade). */
    method RemoveTenant(id: TenantId)
      requires Valid()
      modifies this
      ensures Valid()
      ensures tenants == Seqs.Filter(old(tenants), IdIsNot(id))
      ensures links == Seqs.Filter(old(links), LinkNotOf(id))
      ensures nextId == old(nextId)
    {
      Seqs.FilterPairwise(tenants, IdIsNot(id), TenantsApart);
      Seqs.FilterPairwise(links, LinkNotOf(id), LinksApart);
      tenants := Seqs.Filter(tenants, IdIsNot(id));
      links := Seqs.Filter(links, LinkNotOf(id));
    }

    /** Insert a tenant_users row for a pair that has none. */
    method AddLink(tenantId: TenantId, userId: string, role: string)
      requires Valid() && tenantId < nextId
      requires forall i :: 0 <= i < |links| ==> !(links[i].tenantId == tenantId && links[i].userId == userId)
      modifies this
      ensures Valid()
      ensures links == old(links) + [LinkRow(tenantId, userId, role)]
      ensures tenants == old(tenants) && nextId == old(nextId)
    {
      links := links + [LinkRow(tenantId, userId, role)];
    }

    /**
     * createTenant: the slug of the name must be free; the tenant is
     * inserted, its creator linked as owner and its settings written. When
     * the owner link fails the new tenant is deleted again; a failure to
     * write the settings is ignored.
     */
    method CreateTenant(user: Option<string>, name: string, domain: string, brandColor: Option<string>,
                        insertFails: bool, linkFails: bool, settingsFails: bool)
      returns (r: Result<TenantId, TenantError>)
      requires Valid() && globals.Valid()
      modifies this, globals
      ensures Valid() && globals.Valid()
      ensures user.None? ==> r == Err(Unauthorized)
      ensures user.Some? && old(SlugTaken(Slug.Slugify(name))) ==> r == Err(AlreadyExists(name))
      ensures user.Some? && !old(SlugTaken(Slug.Slugify(name))) && insertFails ==> r == Err(DatabaseError)
      ensures r.Err? ==> tenants == old(tenants) && links == old(links) && globals.rows == old(globals.rows)
      ensures user.Some? && !old(SlugTaken(Slug.Slugify(name))) && !insertFails && linkFails ==> r == Err(DatabaseError)
      ensures r.Ok? <==> user.Some? && !old(SlugTaken(Slug.Slugify(name))) && !insertFails && !linkFails
      ensures r.Ok? ==> r.value == old(nextId)
      ensures r.Ok? ==> tenants == old(tenants) + [TenantRow(r.value, Strings.Trim(name), Slug.Slugify(name))]
      ensures r.Ok? ==> links == old(links) + [LinkRow(r.value, user.value, "owner")]
      ensures r.Ok? ==> globals.rows == if settingsFails then old(globals.rows)
                                       else GlobalStore.Upsert(old(globals.rows), GlobalStore.RowOf(r.value, SettingsItem(CreatedSettings(domain, brandColor))))
    {
      if user.None? {
        return Err(Unauthorized);
      }
      var slug := Slug.Slugify(name);
      if SlugTaken(slug) {
        return Err(AlreadyExists(name));
      }
      if insertFails {
        return Err(DatabaseError);
      }
      SlugTakenExactly(slug);
      var t := InsertTenant(Strings.Trim(name), slug);
      if linkFails {
        RemoveFresh(old(tenants), links, t);
        RemoveTenant(t.id);
        return Err(DatabaseError);
      }
      AddLink(t.id, user.value, "owner");
      var _ := UpsertSettings(t.id, CreatedSettings(domain, brandColor), settingsFails);
      r := Ok(t.id);
    }

    /**
     * updateTenant (src/actions/tenants.ts): any linked user may update. A
     * truthy name is written trimmed, and a failure there stops the action;
     * the merged settings are then upserted as a published row. A failed
     * upsert is reported, and the renamed tenant stays renamed.
     */
    method UpdateTenant(user: Option<string>, tenantId: TenantId, name: Option<string>,
                        domain: Option<string>, brandColor: Option<string>, defaultLocale: Option<string>,
                        nameFails: bool, settingsFails: bool)
      returns (r: Result<(), TenantError>)
      requires Valid() && globals.Valid()
      modifies this, globals
      ensures Valid() && globals.Valid()
      ensures links == old(links) && nextId == old(nextId)
      ensures user.None? ==> r == Err(Unauthorized)
      ensures user.Some? && LinkOf(links, tenantId, user.value).None? ==> r == Err(NoAccess)
      ensures user.None? || LinkOf(links, tenantId, user.value).None? || (Given(name) && nameFails) ==>
                tenants == old(tenants) && globals.rows == old(globals.rows) && r.Err?
      ensures user.Some? && LinkOf(links, tenantId, user.value).Some? && !(Given(name) && nameFails) ==>
                && tenants == (if Given(name) then Renamed(old(tenants), tenantId, Strings.Trim(name.value)) else old(tenants))
                && (r.Ok? <==> !settingsFails)
                && globals.rows == if settingsFails then old(globals.rows)
                                   else GlobalStore.Upsert(old(globals.rows), GlobalStore.RowOf(tenantId,
                                          SettingsItem(Obj(MergeSettings(SettingsFields(old(globals.rows), tenantId), domain, brandColor, defaultLocale)))))
    {
      if user.None? {
        return Err(Unauthorized);
      }
      if LinkOf(links, tenantId, user.value).None? {
        return Err(NoAccess);
      }
      if Given(name) {
        if nameFails {
          return Err(DatabaseError);
        }
        Rename(tenantId, Strings.Trim(name.value));
      }
      r := WriteSettings(tenantId, domain, brandColor, defaultLocale, settingsFails);
    }

    /** `update({ name }).eq("id", id)` on the tenants table. */
    method Rename(id: TenantId, name: string)
      requires Valid()
      modifies this
      ensures Valid()
      ensures tenants == Renamed(old(tenants), id, name) && links == old(links) && nextId == old(nextId)
    {
      var r := Renamed(tenants, id, name);
      assert forall i :: 0 <= i < |r| ==> r[i].id == tenants[i].id && r[i].slug == tenants[i].slug;
      tenants := r;
    }

    /** The settings half of both updateTenant actions: read, merge, and upsert. */
    method WriteSettings(tenantId: TenantId, domain: Option<string>, brandColor: Option<string>,
                         defaultLocale: Option<string>, fails: bool)
      returns (r: Result<(), TenantError>)
      requires globals.Valid()
      modifies globals
      ensures globals.Valid()
      ensures r.Ok? <==> !fails
      ensures globals.rows == if fails then old(globals.rows)
                              else GlobalStore.Upsert(old(globals.rows), GlobalStore.RowOf(tenantId,
                                     SettingsItem(Obj(MergeSettings(SettingsFields(old(globals.rows), tenantId), domain, brandColor, defaultLocale)))))
    {
      var merged := MergeSettings(SettingsFields(globals.rows, tenantId), domain, brandColor, defaultLocale);
      r := UpsertSettings(tenantId, Obj(merged), fails);
    }

    /** `upsert({ tenant_id, key: "settings", value, status: "published" }, { onConflict: "tenant_id,key" })` */
    method UpsertSettings(tenantId: TenantId, value: Value, fails: bool) returns (r: Result<(), TenantError>)
      requires globals.Valid()
      modifies globals
      ensures globals.Valid()
      ensures r.Ok? <==> !fails
      ensures globals.rows == if fails then old(globals.rows)
                              else GlobalStore.Upsert(old(globals.rows), GlobalStore.RowOf(tenantId, SettingsItem(value)))
    {
      var item := SettingsItem(value);
      var saved := globals.SaveGlobals(Some(tenantId), [item], if fails then Some(0) else None);
      assert [item][..0] == [] && [item][1..] == [];
      r := if saved.Ok? then Ok(()) else Err(DatabaseError);
    }

    /** deleteTenant (src/actions/tenants.ts): only an owner or an admin of the tenant may delete it. */
    method DeleteTenant(user: Option<string>, tenantId: TenantId, deleteFails: bool)
      returns (r: Result<(), TenantError>)
      requires Valid()
      modifies this
      ensures Valid()
      ensures user.None? ==> r == Err(Unauthorized)
      ensures user.Some? && LinkOf(old(links), tenantId, user.value).None? ==> r == Err(NotOwnerOrAdmin)
      ensures (user.Some? && LinkOf(old(links), tenantId, user.value).Some? &&
               LinkOf(old(links), tenantId, user.value).value.role !in {"owner", "admin"}) ==> r == Err(NotOwnerOrAdmin)
      ensures r.Ok? <==> user.Some? && LinkOf(old(links), tenantId, user.value).Some? &&
                         LinkOf(old(links), tenantId, user.value).value.role in {"owner", "admin"} && !deleteFails
      ensures r.Ok? ==> tenants == Seqs.Filter(old(tenants), IdIsNot(tenantId)) && links == Seqs.Filter(old(links), LinkNotOf(tenantId))
      ensures r.Err? ==> tenants == old(tenants) && links == old(links)
    {
      if user.None? {
        return Err(Unauthorized);
      }
      var link := LinkOf(links, tenantId, user.value);
      if link.None? || link.value.role !in {"owner", "admin"} {
        return Err(NotOwnerOrAdmin);
      }
      if deleteFails {
        return Err(DatabaseError);
      }
      RemoveTenant(tenantId);
      r := Ok(());
    }

    /** getTenantById: the one tenant the slug or id names, with its settings read under defaults. */
    function GetTenantById(key: string): (r: Result<TenantInfo, TenantError>)
      reads this, globals
      ensures r.Ok? <==> |Seqs.Filter(tenants, KeyIs(key))| == 1
      ensures r.Err? ==> r == Err(TenantNotFound)
      ensures r.Ok? ==> r.value.row in tenants && (r.value.row.slug == key || Strings.NatToString(r.value.row.id) == key)
      ensures r.Ok? ==> r.value == InfoOf(r.value.row, SettingsFields(globals.rows, r.value.row.id))
    {
      match TenantByKey(tenants, key)
      case None => Err(TenantNotFound)
      case Some(t) => Ok(InfoOf(t, SettingsFields(globals.rows, t.id)))
    }

    /**
     * linkUserToTenant: link the user to the tenant the key names, with the
     * given role or "owner" when none is passed. An existing link is success
     * without an insert, so linking again changes nothing.
     */
    method LinkUserToTenant(user: Option<string>, key: string, role: Option<string>, linkFails: bool)
      returns (r: Result<LinkOutcome, TenantError>)
      requires Valid()
      modifies this
      ensures Valid()
      ensures tenants == old(tenants) && nextId == old(nextId)
      ensures user.None? ==> r == Err(Unauthorized)
      ensures user.Some? && TenantByKey(tenants, key).None? ==> r == Err(TenantNotFound)
      ensures r == Ok(AlreadyLinked) || r.Err? ==> links == old(links)
      ensures user.Some? && TenantByKey(tenants, key).Some? ==>
                var t := TenantByKey(tenants, key).value;
                && (LinkOf(old(links), t.id, user.value).Some? ==> r == Ok(AlreadyLinked))
                && (LinkOf(old(links), t.id, user.value).None? && linkFails ==> r == Err(DatabaseError))
                && (LinkOf(old(links), t.id, user.value).None? && !linkFails ==>
                      r == Ok(Linked) && links == old(links) + [LinkRow(t.id, user.value, LinkRole(role))])
      ensures r.Ok? ==> LinkOf(links, TenantByKey(tenants, key).value.id, user.value).Some?
    {
      if user.None? {
        return Err(Unauthorized);
      }
      var found := TenantByKey(tenants, key);
      if found.None? {
        return Err(TenantNotFound);
      }
      var t := found.value;
      assert t in tenants;
      if LinkOf(links, t.id, user.value).Some? {
        return Ok(AlreadyLinked);
      }
      if linkFails {
        return Err(DatabaseError);
      }
      LinkOfExactly(t.id, user.value);
      AddLink(t.id, user.value, LinkRole(role));
      assert links[|links| - 1] == LinkRow(t.id, user.value, LinkRole(role));
      LinkOfExactly(t.id, user.value);
      r := Ok(Linked);
    }

    /**
     * updateTenant (src/actions/updateTenant.ts): no user or role check.
     * The name is written as given; an undefined name is dropped from the
     * update, which then sets no column. A failure there throws before the
     * settings are touched. The merged settings are upserted as published.
     */
    method AdminUpdateTenant(tenantId: TenantId, name: Option<string>, domain: Option<string>, brandColor: Option<string>,
                             defaultLocale: Option<string>, nameFails: bool, settingsFails: bool)
      returns (r: Result<(), TenantError>)
      requires Valid() && globals.Valid()
      modifies this, globals
      ensures Valid() && globals.Valid()
      ensures links == old(links) && nextId == old(nextId)
      ensures nameFails ==> r == Err(DatabaseError) && tenants == old(tenants) && globals.rows == old(globals.rows)
      ensures !nameFails && name.Some? ==> tenants == Renamed(old(tenants), tenantId, name.value)
      ensures !nameFails && name.None? ==> tenants == old(tenants)
      ensures !nameFails ==> (r.Ok? <==> !settingsFails)
      ensures !nameFails ==> globals.rows == if settingsFails then old(globals.rows)
                                            else GlobalStore.Upsert(old(globals.rows), GlobalStore.RowOf(tenantId,
                                                   SettingsItem(Obj(MergeSettings(SettingsFields(old(globals.rows), tenantId), domain, brandColor, defaultLocale)))))
    {
      if nameFails {
        return Err(DatabaseError);
      }
      if name.Some? {
        Rename(tenantId, name.value);
      }
      r := WriteSettings(tenantId, domain, brandColor, defaultLocale, settingsFails);
    }

    /** deleteTenant (src/actions/updateTenant.ts): no role check at all. */
    method AdminDeleteTenant(tenantId: TenantId, deleteFails: bool) returns (r: Result<(), TenantError>)
      requires Valid()
      modifies this
      ensures Valid()
      ensures r.Ok? <==> !deleteFails
      ensures r.Ok? ==> tenants == Seqs.Filter(old(tenants), IdIsNot(tenantId)) && links == Seqs.Filter(old(links), LinkNotOf(tenantId))
      ensures r.Err? ==> tenants == old(tenants) && links == old(links)
    {
      if deleteFails {
        return Err(DatabaseError);
      }
      RemoveTenant(tenantId);
      r := Ok(());
    }
  }

  /** Deleting the tenant just inserted restores both tables. */
  lemma RemoveFresh(tenants: seq<TenantRow>, links: seq<LinkRow>, t: TenantRow)
    requires forall i :: 0 <= i < |tenants| ==> tenants[i].id < t.id
    requires forall i :: 0 <= i < |links| ==> links[i].tenantId < t.id
    ensures Seqs.Filter(tenants + [t], IdIsNot(t.id)) == tenants
    ensures Seqs.Filter(links, LinkNotOf(t.id)) == links
  {
    Seqs.FilterAll(tenants, IdIsNot(t.id));
    Seqs.FilterAppend(tenants, [t], IdIsNot(t.id));
    assert Seqs.Filter([t], IdIsNot(t.id)) == [];
    Seqs.FilterAll(links, LinkNotOf(t.id));
  }

  /** A deleted tenant is gone, and so are all its links; every other tenant and link stays. */
  lemma DeletedGone(tenants: seq<TenantRow>, links: seq<LinkRow>, id: TenantId)
    ensures forall t :: t in Seqs.Filter(tenants, IdIsNot(id)) <==> t in tenants && t.id != id
    ensures forall l :: l in Seqs.Filter(links, LinkNotOf(id)) <==> l in links && l.tenantId != id
  {
  }

  /** Renaming keeps every id and slug, and changes the name of exactly the tenant with the id. */
  lemma RenamedSpec(tenants: seq<TenantRow>, id: TenantId, name: string)
    ensures forall i :: 0 <= i < |tenants| ==>
              && Renamed(tenants, id, name)[i].id == tenants[i].id
              && Renamed(tenants, id, name)[i].slug == tenants[i].slug
              && Renamed(tenants, id, name)[i].name == (if tenants[i].id == id then name else tenants[i].name)
  {
  }
}
