/**
 * The site header: the five navigation items, the mapping from a nav path to
 * a section id, the scroll handler that picks the active section, the
 * highlighted button and the mobile menu flag. The browser is an input: the
 * scroll position is given, and the page is given as the `offsetTop` of
 * each section present in the DOM, by element id.
 */
module Header {
  import opened Wrappers
  import opened JsText

  datatype NavItem = NavItem(name: string, path: string)

  const NavItems: seq<NavItem> := [
    NavItem("Home", "#hero"),
    NavItem("About", "#about"),
    NavItem("Portfolio", "#portfolio"),
    NavItem("Roadmap", "#roadmap"),
    NavItem("Contact", "#contact")
  ]

  /** The ids of the nav sections, in nav order. */
  const SectionIds: seq<string> := ["hero", "about", "portfolio", "roadmap", "contact"]

  /** `path.replace("#", "")`: the section id a nav path points at. */
  function SectionId(path: string): string {
    RemoveFirst(path, '#')
  }

  /** Only the first `#` goes. */
  lemma SectionIdFirstHashOnly()
    ensures SectionId("##top") == "#top"
    ensures SectionId("a#b#c") == "ab#c"
  {
    RemoveFirstSplit([], '#', "#top");
    assert [] + ['#'] + "#top" == "##top";
    RemoveFirstSplit("a", '#', "b#c");
    assert "a" + ['#'] + "b#c" == "a#b#c";
  }

  /** A path that starts with `#` maps to the rest of the path. */
  lemma SectionIdOfHashPath(path: string)
    requires path != [] && path[0] == '#'
    ensures SectionId(path) == path[1..]
  {
  }

  /** The section ids of some nav items, in order. */
  function PathIds(items: seq<NavItem>): (ids: seq<string>)
    ensures |ids| == |items|
    ensures forall k :: 0 <= k < |items| ==> ids[k] == SectionId(items[k].path)
  {
    seq(|items|, k requires 0 <= k < |items| => SectionId(items[k].path))
  }

  /** The nav paths map to the five section ids, which are distinct. */
  lemma NavSectionIds()
    ensures PathIds(NavItems) == SectionIds
    ensures forall j, k :: 0 <= j < k < |SectionIds| ==> SectionIds[j] != SectionIds[k]
  {
    HashPath("#hero", "hero");
    HashPath("#about", "about");
    HashPath("#portfolio", "portfolio");
    HashPath("#roadmap", "roadmap");
    HashPath("#contact", "contact");
    var ids := PathIds(NavItems);
    assert ids[0] == "hero" && ids[1] == "about" && ids[2] == "portfolio";
    assert ids[3] == "roadmap" && ids[4] == "contact";
  }

  lemma HashPath(path: string, id: string)
    requires path == "#" + id
    ensures SectionId(path) == id
  {
    SectionIdOfHashPath(path);
    assert path[1..] == id;
  }

  /** `document.getElementById(id)?.offsetTop`, for the sections present. */
  type Dom = map<string, int>

  /** The test in the loop body: the section exists and the scroll position
      has reached its top. */
  predicate Reached(id: string, dom: Dom, scrollPos: real) {
    id in dom && scrollPos >= dom[id] as real
  }

  /** The active section after `handleScroll` over the given section ids:
      the last one, in nav order, that is reached, and "hero" when there is
      none. */
  function ActiveSection(ids: seq<string>, dom: Dom, scrollPos: real): (r: string)
    ensures r == "hero" || (r in ids && Reached(r, dom, scrollPos))
    decreases |ids|
  {
    if ids == [] then "hero"
    else if Reached(ids[|ids| - 1], dom, scrollPos) then ids[|ids| - 1]
    else ActiveSection(ids[..|ids| - 1], dom, scrollPos)
  }

  /** Both directions of "the last reached section wins": with none reached
      the result is "hero", otherwise it is a reached section after which
      none is reached. */
  lemma {:induction false} ActiveSectionIsLastReached(ids: seq<string>, dom: Dom, scrollPos: real)
    ensures (forall k :: 0 <= k < |ids| ==> !Reached(ids[k], dom, scrollPos)) ==>
      ActiveSection(ids, dom, scrollPos) == "hero"
    ensures (exists k :: 0 <= k < |ids| && Reached(ids[k], dom, scrollPos)) ==>
      exists k ::
        && 0 <= k < |ids| && Reached(ids[k], dom, scrollPos)
        && ActiveSection(ids, dom, scrollPos) == ids[k]
        && forall j :: k < j < |ids| ==> !Reached(ids[j], dom, scrollPos)
    decreases |ids|
  {
    if ids != [] {
      var n := |ids| - 1;
      var front := ids[..n];
      assert forall k :: 0 <= k < n ==> front[k] == ids[k];
      ActiveSectionIsLastReached(front, dom, scrollPos);
      if !Reached(ids[n], dom, scrollPos) && exists k :: 0 <= k < |ids| && Reached(ids[k], dom, scrollPos) {
        var k0 :| 0 <= k0 < |ids| && Reached(ids[k0], dom, scrollPos);
        assert Reached(front[k0], dom, scrollPos);
        var k :| && 0 <= k < n && Reached(front[k], dom, scrollPos)
                 && ActiveSection(front, dom, scrollPos) == front[k]
                 && forall j :: k < j < n ==> !Reached(front[j], dom, scrollPos);
        assert Reached(ids[k], dom, scrollPos);
      }
    }
  }

  /** The loop of `handleScroll`: walk the nav items in order, overwriting
      the current section with each one reached. */
  method ScanSections(items: seq<NavItem>, dom: Dom, scrollPos: real) returns (current: string)
    ensures current == ActiveSection(PathIds(items), dom, scrollPos)
  {
    ghost var ids := PathIds(items);
    current := "hero";
    var i := 0;
    while i < |items|
      invariant 0 <= i <= |items|
      invariant current == ActiveSection(ids[..i], dom, scrollPos)
    {
      var sectionId := SectionId(items[i].path);
      if sectionId in dom {
        var offsetTop := dom[sectionId];
        if scrollPos >= offsetTop as real {
          current := sectionId;
        }
      }
      assert ids[..i + 1][..i] == ids[..i];
      i := i + 1;
    }
    assert ids[..i] == ids;
  }

  /** On the site's nav the active section is always one of the five ids. */
  lemma ActiveIsNavSection(dom: Dom, scrollPos: real)
    ensures ActiveSection(PathIds(NavItems), dom, scrollPos) in SectionIds
  {
    NavSectionIds();
  }

  /** The choice follows nav order, not offsets: with "about" laid out below
      "portfolio" and both reached, "portfolio" wins although "about" has the
      larger offset; and a section missing from the page is skipped. */
  lemma NavOrderNotLargestOffset()
    ensures ActiveSection(SectionIds, map["hero" := 0, "about" := 300, "portfolio" := 100], 400.0) == "portfolio"
    ensures ActiveSection(SectionIds, map["hero" := 0, "contact" := 900], 500.0) == "hero"
  {
    var d1 := map["hero" := 0, "about" := 300, "portfolio" := 100];
    var d2 := map["hero" := 0, "contact" := 900];
    var s1 := ["hero"];
    var s2 := s1 + ["about"];
    var s3 := s2 + ["portfolio"];
    var s4 := s3 + ["roadmap"];
    var s5 := s4 + ["contact"];
    assert s5 == SectionIds;
    ActiveSectionSnoc(s4, "contact", d1, 400.0);
    ActiveSectionSnoc(s3, "roadmap", d1, 400.0);
    ActiveSectionSnoc(s2, "portfolio", d1, 400.0);
    ActiveSectionSnoc(s4, "contact", d2, 500.0);
    ActiveSectionSnoc(s3, "roadmap", d2, 500.0);
    ActiveSectionSnoc(s2, "portfolio", d2, 500.0);
    ActiveSectionSnoc(s1, "about", d2, 500.0);
    ActiveSectionSnoc([], "hero", d2, 500.0);
    assert [] + ["hero"] == s1;
  }

  /** One more section at the end wins exactly when it is reached. */
  lemma ActiveSectionSnoc(ids: seq<string>, id: string, dom: Dom, scrollPos: real)
    ensures ActiveSection(ids + [id], dom, scrollPos) ==
      if Reached(id, dom, scrollPos) then id else ActiveSection(ids, dom, scrollPos)
  {
    var x := ids + [id];
    assert x[|x| - 1] == id && x[..|x| - 1] == ids;
  }

  /** `activeSection === item.path.replace("#", "")`: the button's highlight. */
  predicate IsHighlighted(item: NavItem, activeSection: string) {
    activeSection == SectionId(item.path)
  }

  /** Exactly one nav button is highlighted when the active section is one of
      the five ids, as it is after every scroll. */
  lemma ExactlyOneHighlighted(activeSection: string)
    requires activeSection in SectionIds
    ensures exists k :: 0 <= k < |NavItems| && IsHighlighted(NavItems[k], activeSection)
    ensures forall j, k :: 0 <= j < k < |NavItems| && IsHighlighted(NavItems[j], activeSection) ==>
      !IsHighlighted(NavItems[k], activeSection)
  {
    NavSectionIds();
    var k :| 0 <= k < 5 && SectionIds[k] == activeSection;
    assert IsHighlighted(NavItems[k], activeSection);
  }

  /** What a nav click asks of the browser: on the main page, scroll to the
      section; elsewhere, remember the section under "scrollTarget" and go
      to "/". */
  datatype ClickEffect = ScrollTo(id: string) | StoreAndGoHome(key: string, target: string, route: string)

  function HandleClick(isMainPage: bool, path: string): (e: ClickEffect)
    ensures e.ScrollTo? <==> isMainPage
    ensures e.StoreAndGoHome? ==> e.key == "scrollTarget" && e.route == "/"
    ensures (if e.ScrollTo? then e.id else e.target) == SectionId(path)
  {
    if isMainPage then ScrollTo(SectionId(path))
    else StoreAndGoHome("scrollTarget", SectionId(path), "/")
  }

  /** A nav click on another page ends, once the home page mounts, in the
      scroll a click on the home page makes at once. The mount effect
      scrolls to the stored "scrollTarget" when it is truthy (after a short
      delay, and the key is then removed), so its target is `Truthy(stored)`. */
  lemma ClickFromOtherPage(path: string)
    requires SectionId(path) != ""
    ensures var away := HandleClick(false, path);
      Truthy(Some(away.target)) == Some(HandleClick(true, path).id)
  {
  }

  /** The header's state: the active section and the mobile menu flag. */
  class HeaderState {
    const isMainPage: bool
    var activeSection: string
    var mobileMenuOpen: bool

    constructor (isMainPage: bool)
      ensures this.isMainPage == isMainPage
      ensures activeSection == "hero" && !mobileMenuOpen
    {
      this.isMainPage := isMainPage;
      activeSection := "hero";
      mobileMenuOpen := false;
    }

    /** `handleScroll`: recompute the active section; the menu stays as it is. */
    method HandleScroll(dom: Dom, scrollPos: real)
      modifies this
      ensures activeSection == ActiveSection(SectionIds, dom, scrollPos)
      ensures activeSection in SectionIds
      ensures mobileMenuOpen == old(mobileMenuOpen)
    {
      var currentSection := ScanSections(NavItems, dom, scrollPos);
      ActiveIsNavSection(dom, scrollPos);
      NavSectionIds();
      activeSection := currentSection;
    }

    /** A nav button's click: close the menu, then `handleClick(item.path)`. */
    method ClickNav(item: NavItem) returns (effect: ClickEffect)
      modifies this
      ensures !mobileMenuOpen && activeSection == old(activeSection)
      ensures effect == HandleClick(isMainPage, item.path)
    {
      mobileMenuOpen := false;
      effect := HandleClick(isMainPage, item.path);
    }

    /** The hamburger button. */
    method ToggleMenu()
      modifies this
      ensures mobileMenuOpen == !old(mobileMenuOpen) && activeSection == old(activeSection)
    {
      mobileMenuOpen := !mobileMenuOpen;
    }
  }
}
