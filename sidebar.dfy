/** The developer portal's navigation: the items a role may see, and which
    item is highlighted for the current path. */
module Sidebar {
  import Text
  import Auth

  datatype NavItem = NavItem(name: string, href: string, roles: seq<string>)

  const DashboardHref := "/developer/dashboard"

  /** The items every portal user sees; Dashboard and Sites share one destination. */
  const SharedItems: seq<NavItem> := [
    NavItem("Dashboard", DashboardHref, ["technical", "admin"]),
    NavItem("Sites", DashboardHref, ["technical", "admin"])
  ]

  /** The items only administrators see. */
  const AdminItems: seq<NavItem> := [
    NavItem("Analytics", "/developer/dashboard/analytics", ["admin"]),
    NavItem("Apps Grid", "/developer/dashboard/cms/apps", ["admin"]),
    NavItem("Dock Items", "/developer/dashboard/cms/dock-items", ["admin"])
  ]

  const Navigation: seq<NavItem> := SharedItems + AdminItems

  /** The items whose roles include `role`, in their order. */
  function Visible(items: seq<NavItem>, role: string): (r: seq<NavItem>)
    ensures |r| <= |items|
    ensures forall x :: x in r <==> x in items && role in x.roles
  {
    if items == [] then []
    else if role in items[0].roles then [items[0]] + Visible(items[1..], role)
    else Visible(items[1..], role)
  }

  function VisibleItems(role: string): seq<NavItem> {
    Visible(Navigation, role)
  }

  lemma {:induction false} VisibleAppend(a: seq<NavItem>, b: seq<NavItem>, role: string)
    ensures Visible(a + b, role) == Visible(a, role) + Visible(b, role)
    decreases |a|
  {
    if a == [] {
      assert a + b == b;
    } else {
      assert (a + b)[0] == a[0] && (a + b)[1..] == a[1..] + b;
      VisibleAppend(a[1..], b, role);
    }
  }

  lemma {:induction false} VisibleAll(items: seq<NavItem>, role: string)
    requires forall i :: 0 <= i < |items| ==> role in items[i].roles
    ensures Visible(items, role) == items
    decreases |items|
  {
    if items != [] {
      VisibleAll(items[1..], role);
    }
  }

  lemma {:induction false} VisibleNone(items: seq<NavItem>, role: string)
    requires forall i :: 0 <= i < |items| ==> role !in items[i].roles
    ensures Visible(items, role) == []
    decreases |items|
  {
    if items != [] {
      VisibleNone(items[1..], role);
    }
  }

  /** Admins see every item. */
  lemma AdminSeesAll()
    ensures VisibleItems("admin") == Navigation
  {
    VisibleAll(Navigation, "admin");
  }

  /** Technical users see Dashboard and Sites only. */
  lemma TechnicalSeesDashboardAndSites()
    ensures VisibleItems("technical") == SharedItems
  {
    VisibleAppend(SharedItems, AdminItems, "technical");
    VisibleAll(SharedItems, "technical");
    VisibleNone(AdminItems, "technical");
    assert SharedItems + [] == SharedItems;
  }

  /** Any other role sees nothing. */
  lemma OtherRolesSeeNothing(role: string)
    requires role != "admin" && role != "technical"
    ensures VisibleItems(role) == []
  {
    VisibleNone(Navigation, role);
  }

  /** A role sees some item exactly when it may enter the developer portal. */
  lemma VisibleIffPortalAccess(role: string)
    ensures VisibleItems(role) != [] <==> Auth.CanAccessDeveloperPortal(role)
  {
    if role == "admin" {
      AdminSeesAll();
    } else if role == "technical" {
      TechnicalSeesDashboardAndSites();
    } else {
      OtherRolesSeeNothing(role);
    }
  }

  /** The dashboard is highlighted only on its own path; other items on any
      path that starts with their destination. */
  predicate IsActive(pathname: string, href: string) {
    if href == DashboardHref then pathname == DashboardHref else Text.StartsWith(pathname, href)
  }

  /** Dashboard and Sites are highlighted together. */
  lemma DashboardAndSitesTogether(pathname: string)
    ensures IsActive(pathname, Navigation[0].href) <==> IsActive(pathname, Navigation[1].href)
  {
  }

  /** On a page below the dashboard, the dashboard item is not highlighted
      although the path starts with its destination. */
  lemma SubpageLeavesDashboardInactive()
    ensures Text.StartsWith(Navigation[2].href, DashboardHref)
    ensures !IsActive(Navigation[2].href, DashboardHref)
    ensures IsActive(Navigation[2].href, Navigation[2].href)
  {
    assert Navigation[2].href[..|DashboardHref|] == DashboardHref;
  }
}
