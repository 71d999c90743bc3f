/** The navigation sidebar (components/Sidebar.tsx): the section the page is
    scrolled to, which item is highlighted, the mobile menu and the collapsed
    width. Element positions come in as measurements. */
module Sidebar {
  import opened Wrappers

  datatype NavItem = NavItem(caption: string, href: string)

  /** `navItems`, in order. */
  const NavItems: seq<NavItem> := [
    NavItem("Home", "#home"), NavItem("About", "#about"), NavItem("Skills", "#skills"),
    NavItem("Experience", "#experience"), NavItem("Projects", "#projects"),
    NavItem("Certifications", "#certifications"), NavItem("Contact", "#contact")
  ]

  /** `href.substring(1)`: everything after the first character. */
  function SectionId(href: string): (r: string)
    ensures |href| >= 1 ==> href == href[..1] + r
    ensures |href| == 0 ==> r == ""
  {
    if |href| == 0 then "" else href[1..]
  }

  /** `navItems.map(item => item.href.substring(1))`. */
  function SectionIds(items: seq<NavItem>): (r: seq<string>)
    ensures |r| == |items|
    ensures forall i | 0 <= i < |items| :: r[i] == SectionId(items[i].href)
  {
    seq(|items|, i requires 0 <= i < |items| => SectionId(items[i].href))
  }

  const Sections: seq<string> := ["home", "about", "skills", "experience", "projects", "certifications", "contact"]

  /** The ids are the hrefs without their '#', in nav order, and no two are equal. */
  lemma SectionIdsOfNav()
    ensures SectionIds(NavItems) == Sections
    ensures forall i, j | 0 <= i < j < |Sections| :: Sections[i] != Sections[j]
    ensures forall i | 0 <= i < |NavItems| :: NavItems[i].href == "#" + Sections[i]
  {
    NavHrefs();
    SectionsDistinct();
  }

  /** The seven ids have seven different lengths, so no two are equal. */
  lemma SectionsDistinct()
    ensures forall i, j | 0 <= i < j < |Sections| :: Sections[i] != Sections[j]
  {
    assert forall i | 0 <= i < |Sections| :: |Sections[i]| == [4, 5, 6, 10, 8, 14, 7][i];
  }

  /** Each nav item links to the section of the same position. */
  lemma NavHrefs()
    ensures forall i | 0 <= i < |NavItems| :: NavItems[i].href == "#" + Sections[i]
  {
    assert NavItems[0].href == "#" + Sections[0];
    assert NavItems[1].href == "#" + Sections[1];
    assert NavItems[2].href == "#" + Sections[2];
    assert NavItems[3].href == "#" + Sections[3];
    assert NavItems[4].href == "#" + Sections[4];
    assert NavItems[5].href == "#" + Sections[5];
    assert NavItems[6].href == "#" + Sections[6];
  }

  /** How far down a section's top may be and still count as reached, in pixels. */
  const Threshold: real := 120.0

  /** The section's element exists and its top is at most 120px down the viewport. */
  predicate Reached(top: Option<real>) {
    top.Some? && top.value <= Threshold
  }

  /** The last of the first `n` sections that is reached. */
  function LastReached(tops: seq<Option<real>>, n: nat): (r: Option<nat>)
    requires n <= |tops|
    ensures r.Some? ==> r.value < n && Reached(tops[r.value])
    ensures r.Some? ==> forall j | r.value < j < n :: !Reached(tops[j])
    ensures r.None? ==> forall j | 0 <= j < n :: !Reached(tops[j])
  {
    if n == 0 then None
    else if Reached(tops[n - 1]) then Some(n - 1)
    else LastReached(tops, n - 1)
  }

  /** The active section: the last reached one in nav order, or "home". */
  function ActiveOf(sections: seq<string>, tops: seq<Option<real>>, n: nat): (r: string)
    requires n <= |tops| == |sections|
  {
    match LastReached(tops, n)
    case None => "home"
    case Some(i) => sections[i]
  }

  /** `handleScroll`'s loop: one measurement per section, `None` for a
      missing element; the last reached section overwrites `current`. */
  method ActiveSection(sections: seq<string>, tops: seq<Option<real>>) returns (current: string)
    requires |tops| == |sections|
    ensures current == ActiveOf(sections, tops, |sections|)
    ensures current == "home" || current in sections
  {
    current := "home";
    for i := 0 to |sections|
      invariant current == ActiveOf(sections, tops, i)
    {
      if tops[i].Some? {
        if tops[i].value <= Threshold {
          current := sections[i];
        }
      }
    }
  }

  /** With the seven nav sections the result is always one of them. */
  lemma ActiveIsASection(tops: seq<Option<real>>)
    requires |tops| == |Sections|
    ensures ActiveOf(Sections, tops, |Sections|) in Sections
  {
  }

  /** Reaching a later section moves the highlight there, whatever came before. */
  lemma LaterReachedWins(sections: seq<string>, tops: seq<Option<real>>, k: nat)
    requires |tops| == |sections| && k < |sections| && Reached(tops[k])
    requires forall j | k < j < |sections| :: !Reached(tops[j])
    ensures ActiveOf(sections, tops, |sections|) == sections[k]
  {
    var r := LastReached(tops, |sections|);
    assert r.Some? && r.value == k;
  }

  /** The sidebar's state. */
  class SidebarView {
    var activeSection: string
    var mobileOpen: bool
    var collapsed: bool

    ghost predicate Valid()
      reads this
    {
      activeSection in Sections
    }

    /** `useState("home")`, `useState(false)`, `useState(false)`. */
    constructor()
      ensures Valid()
      ensures activeSection == "home" && !mobileOpen && !collapsed
    {
      activeSection := "home";
      mobileOpen := false;
      collapsed := false;
    }

    /** A nav item is highlighted iff its section is the active one. */
    predicate IsActive(item: NavItem)
      reads this
    {
      activeSection == SectionId(item.href)
    }

    /** The sidebar width in pixels, also written to `--sidebar-w`. */
    function SidebarWidth(): (px: nat)
      reads this
      ensures px == 72 <==> collapsed
      ensures px == 240 <==> !collapsed
    {
      if collapsed then 72 else 240
    }

    /** A scroll event with the sections' current tops. */
    method HandleScroll(tops: seq<Option<real>>)
      requires Valid() && |tops| == |Sections|
      modifies this`activeSection
      ensures Valid()
      ensures activeSection == ActiveOf(Sections, tops, |Sections|)
    {
      ActiveIsASection(tops);
      var current := ActiveSection(Sections, tops);
      activeSection := current;
    }

    /** A nav click: the mobile menu always closes (the smooth scroll is not modelled). */
    method HandleNavClick(href: string)
      requires Valid()
      modifies this`mobileOpen
      ensures Valid() && !mobileOpen
    {
      mobileOpen := false;
    }

    /** The menu button. */
    method ToggleMobile()
      requires Valid()
      modifies this`mobileOpen
      ensures Valid() && mobileOpen == !old(mobileOpen)
    {
      mobileOpen := !mobileOpen;
    }

    /** A click on the overlay behind the open mobile menu. */
    method CloseOverlay()
      requires Valid()
      modifies this`mobileOpen
      ensures Valid() && !mobileOpen
    {
      mobileOpen := false;
    }

    /** The collapse button on the desktop sidebar. */
    method ToggleCollapsed()
      requires Valid()
      modifies this`collapsed
      ensures Valid() && collapsed == !old(collapsed)
      ensures SidebarWidth() == if old(collapsed) then 240 else 72
    {
      collapsed := !collapsed;
    }

    /** Exactly one nav item is highlighted at any time. */
    lemma ExactlyOneActive()
      requires Valid()
      ensures exists i | 0 <= i < |NavItems| :: IsActive(NavItems[i])
      ensures forall i, j | 0 <= i < |NavItems| && 0 <= j < |NavItems| && IsActive(NavItems[i]) && IsActive(NavItems[j]) :: i == j
    {
      SectionIdsOfNav();
      var k :| 0 <= k < |Sections| && Sections[k] == activeSection;
      assert IsActive(NavItems[k]);
    }
  }
}
