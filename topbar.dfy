/**
 * The top bar of cms-frontend-builder/components/layout/topbar.tsx: the
 * user's initials, the tenant it shows, and picking a tenant from its menu.
 */
module Topbar {
  import opened Wrappers
  import opened Json
  import Strings
  import Seqs
  import opened TenantHooks

  /** `user?.email || "User"` */
  function UserEmail(email: Option<string>): (r: string)
    ensures email.Some? && email.value != "" ==> r == email.value
    ensures !(email.Some? && email.value != "") ==> r == "User"
  {
    if email.Some? && email.value != "" then email.value else "User"
  }

  /** `.map((n) => n[0]).join("")`: the first character of each piece; an empty piece gives `undefined`, which joins as nothing. */
  function Firsts(pieces: seq<string>): (r: string)
    ensures |r| <= |pieces|
  {
    if pieces == [] then ""
    else (if pieces[0] == "" then "" else [pieces[0][0]]) + Firsts(pieces[1..])
  }

  lemma {:induction false} FirstsAppend(a: seq<string>, b: seq<string>)
    ensures Firsts(a + b) == Firsts(a) + Firsts(b)
    decreases |a|
  {
    if a == [] {
      assert a + b == b;
    } else {
      assert (a + b)[1..] == a[1..] + b;
      FirstsAppend(a[1..], b);
    }
  }

  /** An empty piece, as between two dots, contributes nothing. */
  lemma FirstsSkipEmpty(a: seq<string>, b: seq<string>)
    ensures Firsts(a + [""] + b) == Firsts(a + b)
  {
    FirstsAppend(a + [""], b);
    FirstsAppend(a, [""]);
    FirstsAppend(a, b);
  }

  /** userInitials: the part before "@", split on ".", first characters, uppercased, at most two, or "U". */
  function Initials(userEmail: string): (r: string)
    ensures 1 <= |r| <= 2
    ensures forall i :: 0 <= i < |r| ==> !Strings.IsLower(r[i])
  {
    var local := Strings.Split(userEmail, '@')[0];
    var joined := Firsts(Strings.Split(local, '.'));
    var cut := Seqs.Take(Strings.Upper(joined), 2);
    if cut == "" then "U" else cut
  }

  /** The initials of "first.last@domain" are the two names' first letters, uppercased. */
  lemma TwoNames(first: string, last: string, domain: string)
    requires first != "" && last != ""
    requires '.' !in first && '@' !in first && '.' !in last && '@' !in last
    ensures Initials(first + "." + last + "@" + domain) == [Strings.UpperChar(first[0]), Strings.UpperChar(last[0])]
  {
    var email := first + "." + last + "@" + domain;
    LocalPart(first + "." + last, domain);
    SplitTwo(first, last);
    FirstsTwo(first, last);
    InitialsOf(email, [first[0], last[0]]);
  }

  /** The initials once the first characters are known. */
  lemma InitialsOf(email: string, joined: string)
    requires Firsts(Strings.Split(Strings.Split(email, '@')[0], '.')) == joined
    requires |joined| == 2
    ensures Initials(email) == [Strings.UpperChar(joined[0]), Strings.UpperChar(joined[1])]
  {
    var up := Strings.Upper(joined);
    assert Seqs.Take(up, 2) == up;
  }

  lemma FirstsTwo(first: string, last: string)
    requires first != "" && last != ""
    ensures Firsts([first, last]) == [first[0], last[0]]
  {
    assert [first, last][1..] == [last];
    assert [last][1..] == [];
  }

  /** The part before "@". */
  lemma LocalPart(local: string, domain: string)
    requires '@' !in local
    ensures Strings.Split(local + "@" + domain, '@')[0] == local
  {
    assert local + "@" + domain == local + ['@'] + domain;
    Strings.BeforeAndCountAt(local, domain, '@');
  }

  /** Splitting "first.last" on "." gives the two names. */
  lemma SplitTwo(first: string, last: string)
    requires '.' !in first && '.' !in last
    ensures Strings.Split(first + "." + last, '.') == [first, last]
  {
    var local := first + "." + last;
    Strings.BeforeAndCountAt(first, last, '.');
    assert local[|first| + 1..] == last;
  }

  /** A local part with no letter or digit to start a piece, such as ".", gives "U". */
  lemma OnlyDotsU(domain: string)
    ensures Initials("." + "@" + domain) == "U"
  {
    LocalPart(".", domain);
    SplitTwo("", "");
    assert "" + "." + "" == ".";
    assert Firsts(["", ""]) == "";
  }

  /** With no user the email is "User" and the initials "U". */
  lemma NoUserInitials()
    ensures UserEmail(None) == "User"
    ensures Initials(UserEmail(None)) == "U"
  {
    assert '@' !in "User" && '.' !in "User";
    assert Strings.Split("User", '@') == ["User"];
    assert Strings.Split("User", '.') == ["User"];
    assert Firsts(["User"]) == "U";
  }

  /** What the tenant button shows: a name and a colour. */
  datatype Display = Display(name: string, brandColor: Value)

  /** The placeholder before any tenant has loaded. */
  const Loading: Display := Display("Loading...", Str("#6366f1"))

  /** `activeTenant || tenant || { name: "Loading...", brandColor: "#6366f1" }` */
  function DisplayTenant(active: Option<Tenant>, contextTenant: Option<Display>): (d: Display)
    ensures active.Some? ==> d == Display(active.value.name, active.value.brandColor)
    ensures active.None? && contextTenant.Some? ==> d == contextTenant.value
    ensures active.None? && contextTenant.None? ==> d == Loading
  {
    if active.Some? then Display(active.value.name, active.value.brandColor)
    else if contextTenant.Some? then contextTenant.value
    else Loading
  }

  /**
   * A menu item's onClick: `setActiveTenant(t)` and the builder context's
   * `setTenantId(t.id)`, which also stores the id as localStorage
   * `activeTenantId` when a window exists (`hasWindow`), or removes that
   * entry when the id is empty.
   */
  method PickTenant(hook: BuilderTenants, t: Tenant, hasWindow: bool)
    modifies hook
    ensures hook.active == Some(t) && hook.contextId == Some(t.id)
    ensures hasWindow && t.id != "" ==> hook.storedId == Some(t.id)
    ensures hasWindow && t.id == "" ==> hook.storedId == None
    ensures !hasWindow ==> hook.storedId == old(hook.storedId)
    ensures hook.tenants == old(hook.tenants) && hook.isLoading == old(hook.isLoading)
  {
    hook.active := Some(t);
    hook.contextId := Some(t.id);
    if hasWindow {
      hook.storedId := if t.id != "" then Some(t.id) else None;
    }
  }

  /** A picked tenant that is still listed survives the next refresh, and the refresh syncs nothing. */
  lemma PickSurvivesRefresh(t: Tenant, list: seq<Tenant>)
    requires Listed(list, t.id)
    ensures SelectActive(Some(t), list) == Some(t)
    ensures SyncTarget(Some(t), list) == None
  {
  }
}
