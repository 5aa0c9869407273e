/**
 * The portfolio grid: the shipped project list, the category filter and the
 * link from a card to its details page.
 */
module ProjectSection {
  import opened Wrappers
  import opened JsText

  datatype Category = App | Product | Api | Art

  datatype Project = Project(
    id: int,
    title: string,
    url: Option<string>,
    desc: string,
    demo: Option<string>,
    image: seq<string>,
    category: Category)

  const ImgRoute := "./../src/assets/img/portfolio/"

  const Projects: seq<Project> := [
    Project(1, "Nepal Knowledge Hub", Some("https://nephub.netlify.app/"),
      "An engaging web encyclopedia and quiz platform for curious Nepali youth, combining history, top figures, horoscope, and interactive content.",
      Some("https://youtu.be/zqHUMF9syFA?si=sWT9g7zHQQE74Z0N"),
      [ImgRoute + "nephub1.png", ImgRoute + "nephub2.png"], App),
    Project(2, "SmartGov Bot", Some("https://www.gov.il/en"),
      "Conversational AI assistant that helps Nepali citizens navigate and fill out government forms with speech and text input support.",
      Some("https://youtu.be/xycd6Kgk27c?si=ECq9LVrmywYCXmSi"),
      [ImgRoute + "smartgov_bot.png"], App),
    Project(3, "MyDoctor App", Some("https://mydoctor.health"),
      "A virtual clinic app offering health record tracking, online consultations, and medication reminders, especially for rural Nepali communities.",
      Some("https://mydoctor.health/demo"),
      [ImgRoute + "branding-1.jpg"], App),
    Project(4, "Joni Mitchell Portrait", Some("https://ashislimbu.art/joni"),
      "A digital art tribute to Joni Mitchell, reflecting themes of nostalgia, resilience, and creativity in a surreal color palette.",
      None,
      [ImgRoute + "joni_mitchel.png"], Art),
    Project(5, "Through the Mist", Some("https://ashislimbu.art/mist"),
      "An experimental generative artwork exploring themes of memory and obscurity using procedural fog patterns and poetry overlays.",
      None,
      [ImgRoute + "hero1.jpg"], Art)
  ]

  /** The `filter` state: "All" or one category. */
  datatype Filter = All | Only(category: Category)

  /** The filter buttons, in display order. */
  const FilterButtons: seq<Filter> := [All, Only(App), Only(Product), Only(Api), Only(Art)]

  /** The category as the source spells it ("API" in capitals). */
  function CategoryName(c: Category): (name: string)
    ensures name in ["App", "Product", "API", "Art"]
  {
    match c
    case App => "App"
    case Product => "Product"
    case Api => "API"
    case Art => "Art"
  }

  /** A button's caption, which is also the value `setFilter` receives. */
  function FilterLabel(f: Filter): string {
    match f
    case All => "All"
    case Only(c) => CategoryName(c)
  }

  /** Captions tell filters apart, so the caption passed to `setFilter`
      selects exactly the button's filter. */
  lemma FilterLabelInjective(f: Filter, g: Filter)
    ensures FilterLabel(f) == FilterLabel(g) ==> f == g
  {
  }

  /** `filter === cat`: the button shown in green. */
  predicate IsActiveButton(filter: Filter, button: Filter) {
    FilterLabel(filter) == FilterLabel(button)
  }

  /** Whatever the filter, exactly one of the five buttons is green. */
  lemma ExactlyOneActiveButton(filter: Filter)
    ensures exists k :: 0 <= k < |FilterButtons| && IsActiveButton(filter, FilterButtons[k])
    ensures forall j, k :: 0 <= j < k < |FilterButtons| && IsActiveButton(filter, FilterButtons[j]) ==>
      !IsActiveButton(filter, FilterButtons[k])
  {
    var k := match filter
      case All => 0 case Only(App) => 1 case Only(Product) => 2 case Only(Api) => 3 case Only(Art) => 4;
    assert FilterButtons[k] == filter;
    forall j, k | 0 <= j < k < |FilterButtons| && IsActiveButton(filter, FilterButtons[j])
      ensures !IsActiveButton(filter, FilterButtons[k])
    {
      FilterLabelInjective(filter, FilterButtons[j]);
      FilterLabelInjective(filter, FilterButtons[k]);
    }
  }

  /** `a` is `b` with some elements left out, the rest in their order. */
  predicate IsSubsequence<T(==)>(a: seq<T>, b: seq<T>)
    decreases |b|
  {
    if a == [] then true
    else if b == [] then false
    else (a[0] == b[0] && IsSubsequence(a[1..], b[1..])) || IsSubsequence(a, b[1..])
  }

  /** `ps.filter(p => p.category === c)`. */
  function FilterByCategory(ps: seq<Project>, c: Category): (r: seq<Project>)
    ensures |r| <= |ps|
    ensures forall p :: p in r <==> p in ps && p.category == c
  {
    if ps == [] then []
    else
      var rest := FilterByCategory(ps[1..], c);
      assert ps == [ps[0]] + ps[1..];
      if ps[0].category == c then [ps[0]] + rest else rest
  }

  /** The filter keeps every project of the category, as often as it occurs
      and in the original order, and nothing else. */
  lemma {:induction false} FilterIsOrderedSelection(ps: seq<Project>, c: Category)
    ensures IsSubsequence(FilterByCategory(ps, c), ps)
    ensures forall p ::
              multiset(FilterByCategory(ps, c))[p] == if p.category == c then multiset(ps)[p] else 0
    decreases |ps|
  {
    if ps != [] {
      var rest := FilterByCategory(ps[1..], c);
      FilterIsOrderedSelection(ps[1..], c);
      assert ps == [ps[0]] + ps[1..];
      if ps[0].category == c {
        var r := [ps[0]] + rest;
        assert r[1..] == rest;
      }
    }
  }

  /** `filteredProjects`: everything under "All", else the projects of the
      chosen category. */
  function FilteredProjects(filter: Filter, ps: seq<Project>): (r: seq<Project>)
    ensures filter == All ==> r == ps
    ensures filter.Only? ==> forall p :: p in r <==> p in ps && p.category == filter.category
  {
    match filter
    case All => ps
    case Only(c) => FilterByCategory(ps, c)
  }

  /** Whatever the filter, the grid shows a selection of the list in its
      original order. */
  lemma FilteredIsSubsequence(filter: Filter, ps: seq<Project>)
    ensures IsSubsequence(FilteredProjects(filter, ps), ps)
  {
    match filter
    case All => SubsequenceReflexive(ps);
    case Only(c) => FilterIsOrderedSelection(ps, c);
  }

  lemma {:induction false} SubsequenceReflexive<T>(s: seq<T>)
    ensures IsSubsequence(s, s)
    decreases |s|
  {
    if s != [] {
      SubsequenceReflexive(s[1..]);
    }
  }

  /** The link of a card's "Details" button. */
  function DetailsLink(p: Project): string {
    "/portfolio-details/" + IntToString(p.id)
  }

  /** The shipped data: ids 1 to 5, hence distinct; every project has an
      image, so the card preview `image[0]` exists. */
  lemma ProjectData()
    ensures |Projects| == 5
    ensures forall k :: 0 <= k < 5 ==> Projects[k].id == k + 1
    ensures forall j, k :: 0 <= j < k < |Projects| ==> Projects[j].id != Projects[k].id
    ensures forall p :: p in Projects ==> p.image != []
  {
  }

  /** Filtering distributes over concatenation. */
  lemma {:induction false} FilterAppend(a: seq<Project>, b: seq<Project>, c: Category)
    ensures FilterByCategory(a + b, c) == FilterByCategory(a, c) + FilterByCategory(b, c)
    decreases |a|
  {
    if a == [] {
      assert a + b == b;
    } else {
      assert (a + b)[0] == a[0];
      assert (a + b)[1..] == a[1..] + b;
      FilterAppend(a[1..], b, c);
    }
  }

  /** A list whose projects all have category `c` passes the filter whole. */
  lemma {:induction false} FilterKeepsAll(ps: seq<Project>, c: Category)
    requires forall k :: 0 <= k < |ps| ==> ps[k].category == c
    ensures FilterByCategory(ps, c) == ps
    decreases |ps|
  {
    if ps != [] {
      FilterKeepsAll(ps[1..], c);
    }
  }

  /** A list with no project of category `c` filters to nothing. */
  lemma FilterDropsAll(ps: seq<Project>, c: Category)
    requires forall k :: 0 <= k < |ps| ==> ps[k].category != c
    ensures FilterByCategory(ps, c) == []
  {
  }

  /** The categories of the shipped projects: three apps, then two artworks. */
  lemma ShippedCategories()
    ensures forall k :: 0 <= k < 3 ==> Projects[k].category == App
    ensures forall k :: 3 <= k < 5 ==> Projects[k].category == Art
  {
  }

  /** With the shipped data, "Product" and "API" show nothing. */
  lemma ShippedEmptyFilters()
    ensures FilteredProjects(Only(Product), Projects) == []
    ensures FilteredProjects(Only(Api), Projects) == []
  {
    ShippedCategories();
    FilterDropsAll(Projects, Product);
    FilterDropsAll(Projects, Api);
  }

  /** A run of category `c` followed by projects of other categories
      filters to the run. */
  lemma FilterOfLeadingRun(ps: seq<Project>, n: nat, c: Category)
    requires n <= |ps|
    requires forall k :: 0 <= k < n ==> ps[k].category == c
    requires forall k :: n <= k < |ps| ==> ps[k].category != c
    ensures FilterByCategory(ps, c) == ps[..n]
  {
    var a, b := ps[..n], ps[n..];
    assert ps == a + b;
    FilterAppend(a, b, c);
    FilterKeepsAll(a, c);
    FilterDropsAll(b, c);
  }

  /** Projects of other categories followed by a run of category `c` filter
      to the run. */
  lemma FilterOfTrailingRun(ps: seq<Project>, n: nat, c: Category)
    requires n <= |ps|
    requires forall k :: 0 <= k < n ==> ps[k].category != c
    requires forall k :: n <= k < |ps| ==> ps[k].category == c
    ensures FilterByCategory(ps, c) == ps[n..]
  {
    var a, b := ps[..n], ps[n..];
    assert ps == a + b;
    FilterAppend(a, b, c);
    FilterDropsAll(a, c);
    FilterKeepsAll(b, c);
  }

  /** With the shipped data, "App" shows the first three projects and "Art"
      the last two. */
  lemma ShippedFilters()
    ensures FilteredProjects(Only(App), Projects) == Projects[..3]
    ensures FilteredProjects(Only(Art), Projects) == Projects[3..]
  {
    ShippedCategories();
    FilterOfLeadingRun(Projects, 3, App);
    FilterOfTrailingRun(Projects, 3, Art);
  }

  /** The details link ends in the decimal id, which `parseInt` reads back. */
  lemma DetailsLinkCarriesId(p: Project)
    ensures var link := DetailsLink(p); var prefix := "/portfolio-details/";
      && |prefix| < |link| && link[..|prefix|] == prefix
      && ParseInt10(link[|prefix|..]) == Int(p.id)
  {
    var link := DetailsLink(p);
    assert link[|"/portfolio-details/"|..] + [] == IntToString(p.id);
    ParseIntOfIntToString(p.id, []);
  }
}
