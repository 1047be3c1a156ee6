/**
 * The request guard of src/proxy.ts: which paths need a session, where a
 * request without one is sent, and where a signed-in visit to the login page
 * is sent.
 */
module Proxy {
  import Strings

  /** `protectedPaths` */
  const ProtectedPaths: seq<string> := ["/dashboard", "/pages", "/globals", "/clone"]

  /** `protectedPaths.some((path) => pathname.startsWith(path))`: a plain prefix test. */
  predicate IsProtected(pathname: string)
  {
    exists i :: 0 <= i < |ProtectedPaths| && Strings.StartsWith(pathname, ProtectedPaths[i])
  }

  datatype Outcome =
    | PassThrough
    | RedirectToLogin(redirect: string)
    | RedirectToDashboard

  /**
   * The proxy's decision. `envSet` says both Supabase variables are set and
   * `hasSession` whether the request carries a session.
   */
  function Decide(envSet: bool, pathname: string, hasSession: bool): (r: Outcome)
    ensures !envSet ==> r == PassThrough
    ensures r.RedirectToLogin? ==> !hasSession && IsProtected(pathname) && r.redirect == pathname
    ensures r.RedirectToDashboard? ==> hasSession && pathname == "/login"
    ensures envSet && !hasSession && IsProtected(pathname) ==> r == RedirectToLogin(pathname)
    ensures envSet && hasSession && pathname == "/login" ==> r == RedirectToDashboard
  {
    if !envSet then PassThrough
    else if IsProtected(pathname) && !hasSession then RedirectToLogin(pathname)
    else if pathname == "/login" && hasSession then RedirectToDashboard
    else PassThrough
  }

  /** A protected path without a session and the login page with one are the only redirects. */
  lemma PassesOtherwise(envSet: bool, pathname: string, hasSession: bool)
    requires !(IsProtected(pathname) && !hasSession) && !(pathname == "/login" && hasSession)
    ensures Decide(envSet, pathname, hasSession) == PassThrough
  {
  }

  /** The login page is not a protected path, so it never redirects to itself. */
  lemma LoginNotProtected()
    ensures !IsProtected("/login")
  {
    var login := "/login";
    forall i | 0 <= i < |ProtectedPaths|
      ensures !Strings.StartsWith(login, ProtectedPaths[i])
    {
      assert login[1] == 'l';
      assert ProtectedPaths[i][1] != 'l';
    }
  }

  /** The two redirects never both apply: whatever the session, "/login" goes to the dashboard or passes. */
  lemma RedirectsExclusive(envSet: bool, hasSession: bool)
    ensures !Decide(envSet, "/login", hasSession).RedirectToLogin?
    ensures envSet && hasSession ==> Decide(envSet, "/login", hasSession) == RedirectToDashboard
  {
    LoginNotProtected();
  }

  /**
   * The prefix test protects every path that begins with a protected one,
   * whatever follows: "/pagesx" as well as "/pages/1". Without a session
   * such a path is sent to the login page.
   */
  lemma PrefixOnly(i: nat, suffix: string)
    requires i < |ProtectedPaths|
    ensures IsProtected(ProtectedPaths[i] + suffix)
    ensures Decide(true, ProtectedPaths[i] + suffix, false) == RedirectToLogin(ProtectedPaths[i] + suffix)
  {
    var path := ProtectedPaths[i] + suffix;
    assert path[..|ProtectedPaths[i]|] == ProtectedPaths[i];
    assert Strings.StartsWith(path, ProtectedPaths[i]);
  }
}
