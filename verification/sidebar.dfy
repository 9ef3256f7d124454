/** The sidebar: the navigation entries and which of them is highlighted for the current path. */
module Sidebar {
  import opened Wrappers

  datatype NavItem = NavItem(name: string, href: string)

  const NavItems: seq<NavItem> := [
    NavItem("Dashboard", "/dashboard"),
    NavItem("Lead Search", "/search"),
    NavItem("Campaigns", "/campaigns"),
    NavItem("Manual Outreach", "/outreach/manual"),
    NavItem("Automated Outreach", "/outreach/automated"),
    NavItem("Outreach Stats", "/outreach"),
    NavItem("CRM", "/crm"),
    NavItem("Settings", "/settings")
  ]

  /** `pathname === href || (href !== "/" && pathname?.startsWith(href))`: an entry is
      highlighted on its own path and on every path that begins with it, with no regard for
      segment boundaries; the root entry only on the root; nothing without a path. */
  function IsActive(pathname: Option<string>, href: string): (b: bool)
    ensures pathname.None? ==> !b
    ensures pathname.Some? && href != "/" ==> (b <==> href <= pathname.value)
    ensures href == "/" ==> (b <==> pathname == Some("/"))
  {
    pathname.Some? && (pathname.value == href || (href != "/" && href <= pathname.value))
  }

  /** No entry is the root, so the root guard never excludes one. */
  lemma NoRootItem()
    ensures forall i :: 0 <= i < |NavItems| ==> NavItems[i].href != "/"
  {
  }

  /** Every entry is highlighted on its own path. */
  lemma ItemActiveOnItsPath(i: int)
    requires 0 <= i < |NavItems|
    ensures IsActive(Some(NavItems[i].href), NavItems[i].href)
  {
  }

  /** On the manual outreach page both "Manual Outreach" and "Outreach Stats" are highlighted,
      and no other entry. */
  lemma ManualOutreachHighlightsTwo()
    ensures forall i :: 0 <= i < |NavItems| ==>
      (IsActive(Some("/outreach/manual"), NavItems[i].href) <==> i == 3 || i == 5)
    ensures NavItems[3].name == "Manual Outreach" && NavItems[5].name == "Outreach Stats"
  {
    var p := "/outreach/manual";
    assert NavItems[0].href[1] != p[1];
    assert NavItems[1].href[1] != p[1];
    assert NavItems[2].href[1] != p[1];
    assert NavItems[3].href == p;
    assert NavItems[4].href[10] != p[10];
    assert NavItems[5].href == p[..9];
    assert NavItems[6].href[1] != p[1];
    assert NavItems[7].href[1] != p[1];
  }

  /** Any path that begins with "/crm", such as "/crmx", highlights the CRM entry. */
  lemma CrmPrefixHighlightsCrm(rest: string)
    ensures NavItems[6].name == "CRM" && IsActive(Some("/crm" + rest), NavItems[6].href)
  {
    assert ("/crm" + rest)[..4] == "/crm";
  }

  /** Without a path no entry is highlighted. */
  lemma NoPathNoHighlight()
    ensures forall i :: 0 <= i < |NavItems| ==> !IsActive(None, NavItems[i].href)
  {
  }
}
