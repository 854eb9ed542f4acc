/**
 * The fixed navigation bar (client/src/components/Navigation.tsx): the
 * scrolled flag, the scroll-spy that picks the active section, the mobile
 * menu, and which link is highlighted.
 */
module Navigation {
  import opened Wrappers

  datatype NavItem = NavItem(name: string, href: string)

  /** The bar's links, in page order. */
  const NavItems: seq<NavItem> := [
    NavItem("Home", "#home"), NavItem("About", "#about"), NavItem("Services", "#services"),
    NavItem("Projects", "#projects"), NavItem("Contact", "#contact")
  ]

  /** `item.href.slice(1)`: the id of the section a link points at. */
  function SectionId(item: NavItem): string
  {
    if |item.href| >= 1 then item.href[1..] else ""
  }

  /** `navItems.map(item => item.href.slice(1))`. */
  function SectionIds(items: seq<NavItem>): (ids: seq<string>)
    ensures |ids| == |items|
    ensures forall k :: 0 <= k < |items| ==> ids[k] == SectionId(items[k])
  {
    seq(|items|, k requires 0 <= k < |items| => SectionId(items[k]))
  }

  /** The scroll-spy's candidates: the sections of the bar's links, in page order. */
  const Sections: seq<string> := SectionIds(NavItems)

  lemma SectionsValue()
    ensures Sections == ["home", "about", "services", "projects", "contact"]
  {
  }

  /**
   * What the scroll handler reads from the page: for each id that has an
   * element, the top of that element's bounding box relative to the viewport.
   */
  type Layout = map<string, real>

  /** The element exists and its top is at most 100 pixels below the top of the viewport. */
  predicate Reached(layout: Layout, id: string)
  {
    id in layout && layout[id] <= 100.0
  }

  /** The last section, in page order, that has been scrolled to. */
  function LastReached(sections: seq<string>, layout: Layout): Option<string>
  {
    if sections == [] then None
    else if Reached(layout, sections[|sections| - 1]) then Some(sections[|sections| - 1])
    else LastReached(sections[..|sections| - 1], layout)
  }

  /**
   * What the scroll-spy finds: nothing exactly when no section has been
   * reached, and otherwise a reached section after which none is reached.
   */
  lemma LastReachedMeaning(sections: seq<string>, layout: Layout)
    ensures LastReached(sections, layout).None? <==> forall k :: 0 <= k < |sections| ==> !Reached(layout, sections[k])
    ensures LastReached(sections, layout).Some? ==>
      exists k :: 0 <= k < |sections| && sections[k] == LastReached(sections, layout).value && Reached(layout, sections[k]) &&
                  forall j :: k < j < |sections| ==> !Reached(layout, sections[j])
  {
    LastReachedNone(sections, layout);
    LastReachedFound(sections, layout);
  }

  lemma {:induction false} LastReachedNone(sections: seq<string>, layout: Layout)
    ensures LastReached(sections, layout).None? <==> forall k :: 0 <= k < |sections| ==> !Reached(layout, sections[k])
  {
    if sections != [] && !Reached(layout, sections[|sections| - 1]) {
      var front := sections[..|sections| - 1];
      LastReachedNone(front, layout);
      assert forall k :: 0 <= k < |front| ==> front[k] == sections[k];
    }
  }

  /** Section `k` has been reached and no later section has. */
  predicate LastReachedAt(sections: seq<string>, layout: Layout, k: nat)
  {
    k < |sections| && Reached(layout, sections[k]) && forall j :: k < j < |sections| ==> !Reached(layout, sections[j])
  }

  lemma {:induction false} LastReachedFound(sections: seq<string>, layout: Layout)
    ensures LastReached(sections, layout).Some? ==>
      exists k: nat :: LastReachedAt(sections, layout, k) && sections[k] == LastReached(sections, layout).value
  {
    if sections != [] {
      var n := |sections|;
      if Reached(layout, sections[n - 1]) {
        assert LastReachedAt(sections, layout, n - 1);
      } else {
        var front := sections[..n - 1];
        LastReachedFound(front, layout);
        if LastReached(front, layout).Some? {
          var k: nat :| LastReachedAt(front, layout, k) && front[k] == LastReached(front, layout).value;
          SkipUnreached(sections, layout, k);
        }
      }
    }
  }

  /** A last reached section stays the last one when an unreached section follows it. */
  lemma SkipUnreached(sections: seq<string>, layout: Layout, k: nat)
    requires sections != [] && !Reached(layout, sections[|sections| - 1])
    requires LastReachedAt(sections[..|sections| - 1], layout, k)
    ensures LastReachedAt(sections, layout, k) && sections[k] == sections[..|sections| - 1][k]
  {
    var front := sections[..|sections| - 1];
    assert forall j :: k < j < |front| ==> front[j] == sections[j];
  }

  /**
   * The scan in the scroll handler: walk the sections in reverse and stop at
   * the first one whose element exists with its top at most 100.
   */
  method ScanActive(sections: seq<string>, layout: Layout) returns (found: Option<string>)
    ensures found == LastReached(sections, layout)
  {
    var n := |sections|;
    var reversed := seq(n, k requires 0 <= k < n => sections[n - 1 - k]);
    found := None;
    assert sections[..n] == sections;
    var k := 0;
    while k < n
      invariant 0 <= k <= n
      invariant LastReached(sections, layout) == LastReached(sections[..n - k], layout)
      invariant found == None
    {
      var section := reversed[k];
      LastReachedStep(sections, layout, n - k);
      if section in layout {
        if layout[section] <= 100.0 {
          assert section == sections[n - k - 1];
          found := Some(section);
          break;
        }
      }
      k := k + 1;
    }
    assert found.None? ==> k == n && sections[..n - k] == [];
  }

  /** Looking at the first `m` sections from the back: the last one, or else the ones before it. */
  lemma LastReachedStep(sections: seq<string>, layout: Layout, m: nat)
    requires 0 < m <= |sections|
    ensures LastReached(sections[..m], layout)
            == if Reached(layout, sections[m - 1]) then Some(sections[m - 1]) else LastReached(sections[..m - 1], layout)
  {
    assert sections[..m][..m - 1] == sections[..m - 1];
  }

  /** No two links of the bar point at the same section. */
  lemma SectionsDistinct()
    ensures forall i, j :: 0 <= i < j < |Sections| ==> Sections[i] != Sections[j]
  {
    SectionsValue();
  }

  /** Exactly one link of the bar points at each of the bar's sections. */
  lemma OneLinkPerSection(active: string)
    requires active in Sections
    ensures exists k :: 0 <= k < |NavItems| && SectionId(NavItems[k]) == active &&
                        forall j :: 0 <= j < |NavItems| && j != k ==> SectionId(NavItems[j]) != active
  {
    SectionsDistinct();
    var k :| 0 <= k < |Sections| && Sections[k] == active;
    forall j | 0 <= j < |NavItems| && j != k
      ensures SectionId(NavItems[j]) != active
    {
      assert SectionId(NavItems[j]) == Sections[j];
      if j < k {
        assert Sections[j] != Sections[k];
      } else {
        assert Sections[k] != Sections[j];
      }
    }
    assert SectionId(NavItems[k]) == active;
  }

  /** The bar's state, set by the scroll handler, the links and the menu button. */
  class NavBar {
    var isScrolled: bool
    var isMobileMenuOpen: bool
    var activeSection: string

    /** The active section is always one of the bar's sections (so never "blog"). */
    ghost predicate Valid()
      reads this
    {
      activeSection in Sections
    }

    constructor ()
      ensures Valid()
      ensures !isScrolled && !isMobileMenuOpen && activeSection == "home"
    {
      isScrolled, isMobileMenuOpen, activeSection := false, false, "home";
      SectionsValue();
    }

    /** A link is highlighted exactly when its section is the active one. */
    function IsHighlighted(item: NavItem): bool
      reads this
    {
      activeSection == SectionId(item)
    }

    /** `handleScroll`: the scrolled flag, then the scroll-spy. */
    method HandleScroll(scrollY: real, layout: Layout)
      requires Valid()
      modifies this
      ensures Valid()
      ensures isScrolled <==> scrollY > 50.0
      ensures activeSection == match LastReached(Sections, layout)
                               case Some(id) => id
                               case None => old(activeSection)
      ensures isMobileMenuOpen == old(isMobileMenuOpen)
    {
      isScrolled := scrollY > 50.0;
      LastReachedMeaning(Sections, layout);
      var found := ScanActive(Sections, layout);
      if found.Some? {
        activeSection := found.value;
      }
    }

    /**
     * `scrollToSection`: scrolls when the page has an element with the link's
     * id (`present` holds the ids that have one), and closes the menu either way.
     */
    method ScrollToSection(href: string, present: set<string>) returns (scrolls: bool)
      modifies this
      ensures scrolls <==> |href| >= 1 && href[0] == '#' && href[1..] in present
      ensures !isMobileMenuOpen
      ensures isScrolled == old(isScrolled) && activeSection == old(activeSection)
    {
      scrolls := |href| >= 1 && href[0] == '#' && href[1..] in present;
      isMobileMenuOpen := false;
    }

    /** The menu button. */
    method ToggleMenu()
      modifies this
      ensures isMobileMenuOpen == !old(isMobileMenuOpen)
      ensures isScrolled == old(isScrolled) && activeSection == old(activeSection)
    {
      isMobileMenuOpen := !isMobileMenuOpen;
    }
  }

  /** The active section is never "blog": the blog section has no link in the bar. */
  lemma NeverBlog(bar: NavBar)
    requires bar.Valid()
    ensures bar.activeSection != "blog"
  {
    SectionsValue();
  }
}
