/**
 * The project details route: the `:id` path parameter read with
 * `parseInt(…, 10)`, the lookup of the first project with that id, and what
 * the details view shows for a project.
 */
module ProjectDetails {
  import opened Wrappers
  import opened JsText
  import opened ProjectSection

  /** `proj.id === id`: NaN equals no id. */
  predicate IdMatches(p: Project, id: ParsedInt) {
    id.Int? && id.value == p.id
  }

  /** `ps.find(proj => proj.id === id)`. */
  function FindById(ps: seq<Project>, id: ParsedInt): (r: Option<Project>)
    ensures r.None? <==> forall k :: 0 <= k < |ps| ==> !IdMatches(ps[k], id)
    ensures r.Some? ==> exists k ::
              && 0 <= k < |ps| && ps[k] == r.value && IdMatches(ps[k], id)
              && forall j :: 0 <= j < k ==> !IdMatches(ps[j], id)
  {
    if ps == [] then None
    else if IdMatches(ps[0], id) then Some(ps[0])
    else
      var r := FindById(ps[1..], id);
      assert forall k :: 0 < k < |ps| ==> ps[k] == ps[1..][k - 1];
      r
  }

  /** `parseInt(params.id || '', 10)`: a missing parameter reads as the empty text. */
  function RouteId(param: Option<string>): ParsedInt {
    ParseInt10(if param.Some? then param.value else "")
  }

  datatype Page = NotFound | Details(project: Project)

  /** `ProjectPage`: the route's project, or the "Project not found" message. */
  function ProjectPage(param: Option<string>, ps: seq<Project>): (page: Page)
    ensures page == NotFound <==> forall k :: 0 <= k < |ps| ==> !IdMatches(ps[k], RouteId(param))
    ensures page.Details? ==> page.project in ps && page.project.id == RouteId(param).value
  {
    match FindById(ps, RouteId(param))
    case None => NotFound
    case Some(p) => Details(p)
  }

  /** A parameter with no digits, or none at all, never names a project. */
  lemma NonNumericNotFound(param: Option<string>, ps: seq<Project>)
    requires param.Some? ==> forall i :: 0 <= i < |param.value| ==> !IsDigit(param.value[i])
    ensures ProjectPage(param, ps) == NotFound
  {
    ParseIntNaN(if param.Some? then param.value else "");
  }

  /** With distinct ids, the page reached through a card's details link is
      that card's project. */
  lemma DetailsLinkRoundTrip(p: Project, ps: seq<Project>)
    requires p in ps
    requires forall j, k :: 0 <= j < k < |ps| ==> ps[j].id != ps[k].id
    ensures ProjectPage(Some(IntToString(p.id)), ps) == Details(p)
  {
    ParseIntOfIntToString(p.id, []);
    assert IntToString(p.id) + [] == IntToString(p.id);
    var page := ProjectPage(Some(IntToString(p.id)), ps);
    var k :| 0 <= k < |ps| && ps[k] == p;
    assert IdMatches(ps[k], RouteId(Some(IntToString(p.id))));
    var q := page.project;
    var j :| 0 <= j < |ps| && ps[j] == q;
    assert ps[j].id == ps[k].id;
  }

  /** Every shipped card's link opens its own project. */
  lemma ShippedDetailsLinks()
    ensures forall p :: p in Projects ==> ProjectPage(Some(IntToString(p.id)), Projects) == Details(p)
  {
    ProjectData();
    forall p | p in Projects ensures ProjectPage(Some(IntToString(p.id)), Projects) == Details(p) {
      DetailsLinkRoundTrip(p, Projects);
    }
  }

  /** `parseInt` is lenient: leading spaces and trailing text are skipped. */
  lemma SpacedRouteId()
    ensures RouteId(Some(" 3abc")) == Int(3)
  {
    assert IntToString(3) == "3" by {
      assert NatToDecimal(3) == [DigitChar(3)];
    }
    TrimStartSplit(" ", "3abc");
    assert " " + "3abc" == " 3abc";
    ParseIntOfIntToString(3, "abc");
    assert "3" + "abc" == "3abc";
    assert TrimStart("3abc") == "3abc";
  }

  /** A leading letter gives NaN. */
  lemma LetterRouteId()
    ensures RouteId(Some("x3")) == NaN
  {
    assert !IsSpace('x') && !IsDigit('x');
    assert TrimStart("x3") == "x3";
  }

  /** So "/portfolio-details/ 3abc" opens project 3 and "/portfolio-details/x3"
      shows "Project not found". */
  lemma LenientRouteExamples()
    ensures ProjectPage(Some(" 3abc"), Projects) == Details(Projects[2])
    ensures ProjectPage(Some("x3"), Projects) == NotFound
  {
    ProjectData();
    SpacedRouteId();
    LetterRouteId();
    var page := ProjectPage(Some(" 3abc"), Projects);
    assert IdMatches(Projects[2], Int(3));
    var j :| 0 <= j < |Projects| && Projects[j] == page.project;
    assert Projects[j].id == 3;
  }

  /** The parts of the details view that depend on the project. */
  datatype DetailsView = DetailsView(
    heroImage: Option<string>,
    title: string,
    desc: string,
    visitSite: Option<string>,
    liveDemo: Option<string>,
    gallery: seq<string>,
    projectType: string)

  /** `ProjectDetails`: the first image as the hero, the two link buttons,
      shown when the link is truthy (`project.url && …`; the "Website" and
      "Demo" metadata rows follow the same conditions), the
      gallery when there is more than one image and the category. */
  function RenderDetails(p: Project): DetailsView {
    DetailsView(
      if p.image != [] then Some(p.image[0]) else None,
      p.title,
      p.desc,
      Truthy(p.url),
      Truthy(p.demo),
      if |p.image| > 1 then p.image else [],
      CategoryName(p.category))
  }

  /** The gallery shows every image, in order, exactly when there are at
      least two; the hero image is the first one. */
  lemma GalleryRule(p: Project)
    ensures var v := RenderDetails(p);
      && (v.gallery != [] <==> |p.image| >= 2)
      && (v.gallery != [] ==> v.gallery == p.image && v.heroImage == Some(v.gallery[0]))
  {
  }

  /** On the shipped pages every project has its "Visit Site" button, the
      three apps also a "Live Demo", and only the first project a gallery. */
  lemma ShippedDetailsViews()
    ensures forall p :: p in Projects ==> RenderDetails(p).visitSite == p.url && p.url.Some?
    ensures forall k :: 0 <= k < |Projects| ==>
      (RenderDetails(Projects[k]).liveDemo.Some? <==> k < 3)
    ensures forall k :: 0 <= k < |Projects| ==>
      (RenderDetails(Projects[k]).gallery != [] <==> k == 0)
    ensures forall p :: p in Projects ==> RenderDetails(p).heroImage.Some?
  {
    ProjectData();
  }
}
