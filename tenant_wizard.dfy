/**
 * createTenantWizard of src/actions/createTenantWizard.ts: a tenant with a
 * chosen id, its owner link, default globals and a draft home page with a
 * first version. Only registering the tenant and linking the owner can fail
 * the wizard; the later inserts fail silently.
 */
module TenantWizard {
  import opened Wrappers
  import opened Json
  import opened Ids
  import Strings
  import Seqs
  import GlobalStore
  import PageStore
  import Registry
  import opened TenantStore

  /** `data.id.toLowerCase().trim()` */
  function WizardId(id: string): (r: string)
    ensures forall i :: 0 <= i < |r| ==> !Strings.IsUpper(r[i])
    ensures r != [] ==> !Strings.IsSpace(r[0]) && !Strings.IsSpace(r[|r| - 1])
  {
    var l := Strings.Lower(id);
    var r := Strings.Trim(l);
    TrimInfix(l);
    r
  }

  /** Every character of a trimmed string comes from the string. */
  lemma TrimInfix(s: string)
    ensures forall i :: 0 <= i < |Strings.Trim(s)| ==> Strings.Trim(s)[i] in s
  {
    var a := Strings.TrimStart(s);
    var t := Strings.TrimEnd(a);
    forall i | 0 <= i < |t|
      ensures t[i] in s
    {
      var k := |s| - |a| + i;
      assert t[i] == a[i] == s[k];
    }
  }

  /** Normalising an id again changes nothing. */
  lemma WizardIdIdempotent(id: string)
    ensures WizardId(WizardId(id)) == WizardId(id)
  {
    var r := WizardId(id);
    assert Strings.Lower(r) == r;
    Strings.TrimNoop(r);
  }

  /** The trimmed domain, with "https://" put in front unless it starts with "http". */
  function NormalizeDomain(domain: string): (r: string)
    ensures Strings.StartsWith(r, "http")
    ensures Strings.StartsWith(Strings.Trim(domain), "http") ==> r == Strings.Trim(domain)
    ensures !Strings.StartsWith(Strings.Trim(domain), "http") ==> r == "https://" + Strings.Trim(domain)
  {
    var t := Strings.Trim(domain);
    if Strings.StartsWith(t, "http") then t
    else
      HttpsPrefix(t);
      "https://" + t
  }

  lemma HttpsPrefix(t: string)
    ensures Strings.StartsWith("https://" + t, "http")
  {
    assert ("https://" + t)[..4] == "http";
  }

  /** Normalising a normalised domain changes nothing. */
  lemma NormalizeIdempotent(domain: string)
    ensures NormalizeDomain(NormalizeDomain(domain)) == NormalizeDomain(domain)
  {
    var t := Strings.Trim(domain);
    var r := NormalizeDomain(domain);
    if !Strings.StartsWith(t, "http") {
      assert r[0] == 'h';
      assert r[|r| - 1] == if t == [] then '/' else t[|t| - 1];
    }
    Strings.TrimNoop(r);
  }

  /** `data.primaryColor || data.brandColor || "#00bfa6"` */
  function WizardColor(primaryColor: Option<string>, brandColor: Option<string>): (c: string)
    ensures Given(primaryColor) ==> c == primaryColor.value
    ensures !Given(primaryColor) && Given(brandColor) ==> c == brandColor.value
    ensures !Given(primaryColor) && !Given(brandColor) ==> c == "#00bfa6"
  {
    OrText(primaryColor, OrText(brandColor, "#00bfa6"))
  }

  /** The settings value the wizard writes. */
  function WizardSettings(domain: string, primaryColor: Option<string>, brandColor: Option<string>, defaultLocale: Option<string>): Value
  {
    Obj(map["domain" := Str(NormalizeDomain(domain)), "primaryColor" := Str(WizardColor(primaryColor, brandColor)),
            "defaultLocale" := Str(OrText(defaultLocale, "en"))])
  }

  /** `defaultGlobals`: empty draft header, footer and navigation, and the published settings. */
  function DefaultGlobals(t: TenantId, settings: Value): seq<GlobalStore.GlobalRow>
  {
    [GlobalStore.GlobalRow(t, "header", Obj(map[]), "draft"),
     GlobalStore.GlobalRow(t, "footer", Obj(map[]), "draft"),
     GlobalStore.GlobalRow(t, "navigation", Obj(map[]), "draft"),
     GlobalStore.GlobalRow(t, "settings", settings, "published")]
  }

  /** The defaults are four rows of the tenant with distinct keys. */
  lemma DefaultKeysUnique(t: TenantId, settings: Value)
    ensures GlobalStore.KeysUnique(DefaultGlobals(t, settings))
    ensures forall i :: 0 <= i < |DefaultGlobals(t, settings)| ==> DefaultGlobals(t, settings)[i].tenantId == t
  {
    var d := DefaultGlobals(t, settings);
    assert d[0].key[0] == 'h' && d[1].key[0] == 'f' && d[2].key[0] == 'n' && d[3].key[0] == 's';
  }

  /** Of the defaults, only the settings row is published, so a new tenant publishes nothing else. */
  lemma DefaultPublished(t: TenantId, settings: Value)
    ensures Seqs.Filter(DefaultGlobals(t, settings), GlobalStore.IsPublishedOf(t)) ==
              [GlobalStore.GlobalRow(t, "settings", settings, "published")]
  {
    var d := DefaultGlobals(t, settings);
    var p := GlobalStore.IsPublishedOf(t);
    assert d[0].status[0] == 'd' && d[1].status[0] == 'd' && d[2].status[0] == 'd';
    assert !p(d[0]) && !p(d[1]) && !p(d[2]) && p(d[3]);
    assert d[1..][1..][1..][1..] == [];
    assert Seqs.Filter(d[1..][1..][1..], p) == [d[3]];
    assert Seqs.Filter(d[1..][1..], p) == [d[3]];
    assert Seqs.Filter(d[1..], p) == [d[3]];
  }

  /** A tenant with no globals rows yet can always take the defaults: the insert has no key conflict. */
  lemma DefaultsInsertable(rows: seq<GlobalStore.GlobalRow>, t: TenantId, settings: Value)
    requires forall i :: 0 <= i < |rows| ==> rows[i].tenantId != t
    ensures !GlobalStore.Conflicts(rows, DefaultGlobals(t, settings))
  {
    DefaultKeysUnique(t, settings);
    GlobalStore.NoClashNoConflict(rows, DefaultGlobals(t, settings));
  }

  /** `defaultSections`: a Hero welcoming to the site and a PostsFeed of three posts. */
  function HomeSections(name: string): seq<PageStore.Section>
  {
    [PageStore.Section(None, "Hero", map["title" := Str("Welcome to " + name),
                                         "subtitle" := Str("This is your new website powered by Side by Side CMS"),
                                         "image" := Str("/uploads/default-hero.jpg")]),
     PageStore.Section(None, "PostsFeed", map["limit" := Num(3)])]
  }

  /**
   * Both home sections are registered block types: the hero shows the
   * welcome title with its subtitle and image, and the feed, which has no
   * posts, shows the "No posts available" placeholder.
   */
  lemma HomeRenders(name: string)
    ensures Registry.Render(HomeSections(name)[0]) ==
              Some(Registry.HeroBlock(Registry.HeroView(Some(Str("Welcome to " + name)),
                Some(Str("This is your new website powered by Side by Side CMS")), Some(Str("/uploads/default-hero.jpg")))))
    ensures Registry.Render(HomeSections(name)[1]) == Some(Registry.FeedBlock(Registry.NoPostsPlaceholder))
  {
    var h := HomeSections(name)[0].props;
    assert Get(h, "subtitle") == Some(Str("This is your new website powered by Side by Side CMS"));
    assert Get(h, "image") == Some(Str("/uploads/default-hero.jpg"));
  }

  datatype Created = Created(id: string, domain: string)

  /** Which of the wizard's database calls fail. */
  datatype Failures = Failures(check: bool, insert: bool, link: bool, globals: bool, page: bool, version: bool)

  method CreateTenantWizard(db: Tenants, user: Option<string>, id: string, name: string, domain: string,
                            primaryColor: Option<string>, brandColor: Option<string>, defaultLocale: Option<string>,
                            fails: Failures, now: Instant)
    returns (r: Result<Created, TenantError>)
    requires db.Valid() && db.globals.Valid() && db.pages.Valid()
    modifies db, db.globals, db.pages
    ensures db.Valid() && db.globals.Valid() && db.pages.Valid()
    ensures user.None? ==> r == Err(Unauthorized)
    ensures user.Some? && !fails.check && old(db.SlugTaken(WizardId(id))) ==> r == Err(AlreadyExists(WizardId(id)))
    ensures r.Ok? <==> user.Some? && !fails.check && !old(db.SlugTaken(WizardId(id))) && !fails.insert && !fails.link
    ensures r.Err? ==> && db.tenants == old(db.tenants) && db.links == old(db.links)
                       && db.globals.rows == old(db.globals.rows)
                       && db.pages.pages == old(db.pages.pages) && db.pages.versions == old(db.pages.versions)
    ensures r.Ok? ==> r.value == Created(WizardId(id), NormalizeDomain(domain))
    ensures r.Ok? ==> db.tenants == old(db.tenants) + [TenantRow(old(db.nextId), Strings.Trim(name), WizardId(id))]
    ensures r.Ok? ==> db.links == old(db.links) + [LinkRow(old(db.nextId), user.value, "owner")]
    ensures r.Ok? ==>
              var defaults := DefaultGlobals(old(db.nextId), WizardSettings(domain, primaryColor, brandColor, defaultLocale));
              db.globals.rows == if fails.globals || GlobalStore.Conflicts(old(db.globals.rows), defaults) then old(db.globals.rows)
                                 else old(db.globals.rows) + defaults
    ensures r.Ok? ==> db.pages.pages == if fails.page then old(db.pages.pages)
                                        else old(db.pages.pages) + [PageStore.PageRow(old(db.pages.nextPageId), old(db.nextId), "/", "Home", PageStore.Draft, now)]
    ensures r.Ok? ==> db.pages.versions == if fails.page || fails.version then old(db.pages.versions)
                                           else old(db.pages.versions) + [PageStore.VersionRow(old(db.pages.nextVersionId), old(db.pages.nextPageId), old(db.nextId), 1,
                                                                                   PageStore.Content(Some(HomeSections(name))), map[], user)]
  {
    var t := RegisterTenant(db, user, id, name, fails);
    if t.Err? {
      return Err(t.error);
    }
    SeedTenant(db, t.value.id, user, name, domain, primaryColor, brandColor, defaultLocale, fails, now);
    r := Ok(Created(t.value.slug, NormalizeDomain(domain)));
  }

  /** The tenant insert and the owner link, with the compensating delete when the link fails. */
  method RegisterTenant(db: Tenants, user: Option<string>, id: string, name: string, fails: Failures)
    returns (r: Result<TenantRow, TenantError>)
    requires db.Valid()
    modifies db
    ensures db.Valid()
    ensures user.None? ==> r == Err(Unauthorized)
    ensures user.Some? && !fails.check && old(db.SlugTaken(WizardId(id))) ==> r == Err(AlreadyExists(WizardId(id)))
    ensures r.Ok? <==> user.Some? && !fails.check && !old(db.SlugTaken(WizardId(id))) && !fails.insert && !fails.link
    ensures r.Err? ==> db.tenants == old(db.tenants) && db.links == old(db.links)
    ensures r.Ok? ==> r.value == TenantRow(old(db.nextId), Strings.Trim(name), WizardId(id))
    ensures r.Ok? ==> db.tenants == old(db.tenants) + [r.value] && db.links == old(db.links) + [LinkRow(r.value.id, user.value, "owner")]
    ensures r.Ok? ==> db.nextId == r.value.id + 1
  {
    if user.None? {
      return Err(Unauthorized);
    }
    var slug := WizardId(id);
    if fails.check {
      return Err(DatabaseError);
    }
    if db.SlugTaken(slug) {
      return Err(AlreadyExists(slug));
    }
    if fails.insert {
      return Err(DatabaseError);
    }
    db.SlugTakenExactly(slug);
    var t := db.InsertTenant(Strings.Trim(name), slug);
    if fails.link {
      RemoveFresh(old(db.tenants), db.links, t);
      db.RemoveTenant(t.id);
      return Err(DatabaseError);
    }
    db.AddLink(t.id, user.value, "owner");
    r := Ok(t);
  }

  /** The default globals and the home page with its first version; each failure here is ignored. */
  method SeedTenant(db: Tenants, t: TenantId, user: Option<string>, name: string, domain: string,
                    primaryColor: Option<string>, brandColor: Option<string>, defaultLocale: Option<string>,
                    fails: Failures, now: Instant)
    requires db.globals.Valid() && db.pages.Valid()
    modifies db.globals, db.pages
    ensures db.globals.Valid() && db.pages.Valid()
    ensures var defaults := DefaultGlobals(t, WizardSettings(domain, primaryColor, brandColor, defaultLocale));
            db.globals.rows == if fails.globals || GlobalStore.Conflicts(old(db.globals.rows), defaults) then old(db.globals.rows)
                               else old(db.globals.rows) + defaults
    ensures db.pages.pages == if fails.page then old(db.pages.pages)
                              else old(db.pages.pages) + [PageStore.PageRow(old(db.pages.nextPageId), t, "/", "Home", PageStore.Draft, now)]
    ensures db.pages.versions == if fails.page || fails.version then old(db.pages.versions)
                                 else old(db.pages.versions) + [PageStore.VersionRow(old(db.pages.nextVersionId), old(db.pages.nextPageId), t, 1,
                                                                         PageStore.Content(Some(HomeSections(name))), map[], user)]
  {
    var _ := db.globals.InsertAll(DefaultGlobals(t, WizardSettings(domain, primaryColor, brandColor, defaultLocale)), fails.globals);
    if !fails.page {
      var home := db.pages.InsertPage(t, "/", "Home", now);
      if !fails.version {
        assert db.pages.pages[|db.pages.pages| - 1] == home;
        var _ := db.pages.InsertFirstVersion(home.id, t, PageStore.Content(Some(HomeSections(name))), user);
      }
    }
  }
}
