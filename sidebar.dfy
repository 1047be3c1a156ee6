/**
 * The navigation of cms-frontend-builder/components/layout/sidebar.tsx: six
 * fixed items, the rule that marks one active for the current path, and the
 * collapse toggle with its width.
 */
module Sidebar {
  import Strings

  datatype NavItem = NavItem(href: string, title: string)

  /** `navItems`, in their order. */
  const NavItems: seq<NavItem> := [
    NavItem("/dashboard", "Dashboard"),
    NavItem("/pages", "Pages"),
    NavItem("/posts", "Posts"),
    NavItem("/globals", "Globals"),
    NavItem("/tenants", "Tenants"),
    NavItem("/settings", "Settings")]

  /** `pathname === href || pathname.startsWith(`${href}/`)` */
  predicate IsActive(pathname: string, href: string)
  {
    pathname == href || Strings.StartsWith(pathname, href + "/")
  }

  /** Active means: `href` is a prefix of the path that ends the path or is followed by "/". */
  lemma ActiveWholeSegment(pathname: string, href: string)
    ensures IsActive(pathname, href) <==>
              Strings.StartsWith(pathname, href) && (|pathname| == |href| || pathname[|href|] == '/')
  {
    if Strings.StartsWith(pathname, href) && |pathname| > |href| && pathname[|href|] == '/' {
      assert pathname[..|href| + 1] == href + "/";
    }
    if Strings.StartsWith(pathname, href + "/") {
      assert pathname[..|href|] == (href + "/")[..|href|];
    }
  }

  /** "/pages/1" activates "/pages" and "/pagesx" does not. */
  lemma SegmentExamples()
    ensures IsActive("/pages/1", "/pages")
    ensures !IsActive("/pagesx", "/pages")
  {
    ActiveWholeSegment("/pagesx", "/pages");
    assert "/pages/1"[..7] == "/pages" + "/";
  }

  /** A link with a "/" only at its start. */
  predicate OneSegment(href: string)
  {
    |href| >= 1 && href[0] == '/' && forall i :: 1 <= i < |href| ==> href[i] != '/'
  }

  /** Two one-segment links active for the same path are the same link. */
  lemma ActiveUnique(pathname: string, a: string, b: string)
    requires OneSegment(a) && OneSegment(b)
    requires IsActive(pathname, a) && IsActive(pathname, b)
    ensures a == b
  {
    ActiveWholeSegment(pathname, a);
    ActiveWholeSegment(pathname, b);
  }

  /** There are six items and at most one of them is active, whatever the path. */
  lemma AtMostOneActive(pathname: string, i: nat, j: nat)
    requires i < |NavItems| && j < |NavItems|
    requires IsActive(pathname, NavItems[i].href) && IsActive(pathname, NavItems[j].href)
    ensures i == j
  {
    NavOneSegment(i);
    NavOneSegment(j);
    ActiveUnique(pathname, NavItems[i].href, NavItems[j].href);
    assert NavItems[i] == NavItems[j];
  }

  /** Each item's link is a single segment. */
  lemma NavOneSegment(i: nat)
    requires i < |NavItems|
    ensures OneSegment(NavItems[i].href)
  {
    var h := NavItems[i].href;
    if i == 0 { assert h == "/dashboard"; }
    else if i == 1 { assert h == "/pages"; }
    else if i == 2 { assert h == "/posts"; }
    else if i == 3 { assert h == "/globals"; }
    else if i == 4 { assert h == "/tenants"; }
    else { assert h == "/settings"; }
  }

  /** The collapse button: `setCollapsed(!collapsed)`. */
  function Toggle(collapsed: bool): (r: bool)
    ensures r != collapsed
  {
    !collapsed
  }

  /** `width: collapsed ? 72 : 240` */
  function Width(collapsed: bool): (w: nat)
    ensures w == 72 || w == 240
    ensures collapsed ==> w == 72
    ensures !collapsed ==> w == 240
  {
    if collapsed then 72 else 240
  }

  /** Each toggle switches the width between the two sizes, and two toggles restore it. */
  lemma ToggleWidth(collapsed: bool)
    ensures Width(Toggle(collapsed)) != Width(collapsed)
    ensures Width(Toggle(Toggle(collapsed))) == Width(collapsed)
  {
  }
}
