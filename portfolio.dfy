/** `src/app/api/portfolio/route.ts`: the project list (public callers see
    published projects only) and project creation. */
module Portfolio {
  import opened Common
  import opened Seqs
  import opened Paging
  import opened JsonArray
  import opened Http
  import opened Store
  import opened Listing
  import opened Validations

  /** A row of the project table; `technologies` and `images` hold JSON
      array text, `completionDate` the text the date was made from. */
  datatype Project = Project(
    title: string, titleAr: Option<string>, slug: string, description: string,
    descriptionAr: Option<string>, category: string, technologies: Option<string>,
    clientName: Option<string>, completionDate: Option<string>, featured: bool,
    images: Option<string>, caseStudyUrl: Option<string>, liveUrl: Option<string>,
    githubUrl: Option<string>, displayOrder: int, status: string)

  // ---------------------------------------------------------------------
  // GET

  /** The `where` object: non-admin callers are held to 'published' whatever
      status they ask for; an admin gets the requested status, or every
      status when none is given; category and featured narrow further. */
  predicate Selected(q: Params, p: Project) {
    (if !ParamIs(q, "admin", "true") then p.status == "published"
     else !Truthy(Param(q, "status")) || p.status == Param(q, "status").value) &&
    (!Truthy(Param(q, "category")) || p.category == Param(q, "category").value) &&
    (!ParamIs(q, "featured", "true") || p.featured)
  }

  function SelectedBy(q: Params): Project -> bool {
    p => Selected(q, p)
  }

  /** `orderBy: [{ featured: 'desc' }, { displayOrder: 'asc' }, { createdAt: 'desc' }]` */
  function Order(r: Row<Project>): Key {
    Key(if r.data.featured then 0 else 1, r.data.displayOrder, -(r.createdAt as int))
  }

  /** Two rows are in list order exactly when the first is featured and the
      second is not, or they agree on featured and the first has the lower
      display order, or agree on both and the first is not older. */
  lemma OrderMeaning(a: Row<Project>, b: Row<Project>)
    ensures KeyLe(Order(a), Order(b)) <==>
      (a.data.featured && !b.data.featured) ||
      (a.data.featured == b.data.featured &&
        (a.data.displayOrder < b.data.displayOrder ||
         (a.data.displayOrder == b.data.displayOrder && a.createdAt >= b.createdAt)))
  {
  }

  /** A listed project: the row with its array columns parsed. */
  datatype ProjectView = ProjectView(row: Row<Project>, technologies: seq<string>, images: seq<string>)

  /** The `projects.map(...)` that parses the array columns; `None` when a
      column holds text `JSON.parse` rejects (the whole request fails). */
  function Views(rows: seq<Row<Project>>): (r: Option<seq<ProjectView>>)
    ensures r.Some? ==> |r.value| == |rows|
    ensures r.Some? ==> forall i :: 0 <= i < |rows| ==>
      r.value[i].row == rows[i] &&
      DecodeColumn(rows[i].data.technologies) == Some(r.value[i].technologies) &&
      DecodeColumn(rows[i].data.images) == Some(r.value[i].images)
    ensures r.None? <==> exists i :: 0 <= i < |rows| && !Decodable(rows[i].data)
  {
    if rows == [] then Some([])
    else
      var t := DecodeColumn(rows[0].data.technologies);
      var im := DecodeColumn(rows[0].data.images);
      var rest := Views(rows[1..]);
      assert forall i :: 1 <= i < |rows| ==> rows[i] == rows[1..][i - 1];
      if t.None? || im.None? || rest.None? then None
      else Some([ProjectView(rows[0], t.value, im.value)] + rest.value)
  }

  predicate Decodable(p: Project) {
    DecodeColumn(p.technologies).Some? && DecodeColumn(p.images).Some?
  }

  datatype ProjectPage = ProjectPage(data: seq<ProjectView>, page: nat, limit: nat, total: nat, totalPages: nat)

  /** The rows of the requested page: the `skip`/`take` window of the
      selected rows in list order. */
  function PageRows(rows: seq<Row<Project>>, q: Params): seq<Row<Project>>
    requires PageArgsOf(q, 20).Some?
  {
    Page(FindMany(rows, SelectedBy(q), Order), PageArgsOf(q, 20).value.page, PageArgsOf(q, 20).value.limit)
  }

  /** GET /api/portfolio */
  function List(rows: seq<Row<Project>>, q: Params): (r: Reply<ProjectPage>)
    requires PageArgsOf(q, 20).Some?
    ensures r.Ok? <==> Views(PageRows(rows, q)).Some?
    ensures r.Ok? ==> r.data.data == Views(PageRows(rows, q)).value
    ensures r.Ok? ==> r.status == OK && r.data.page == PageArgsOf(q, 20).value.page && r.data.limit == PageArgsOf(q, 20).value.limit
    ensures r.Fail? ==> r.status == SERVER_ERROR
    ensures r.Ok? ==> r.data.total == CountWhere(rows, SelectedBy(q))
    ensures r.Ok? ==> r.data.totalPages == TotalPages(r.data.total, r.data.limit)
    ensures r.Ok? ==> |r.data.data| <= r.data.limit
    ensures r.Ok? ==> forall i :: 0 <= i < |r.data.data| ==>
      r.data.data[i].row in rows && Selected(q, r.data.data[i].row.data)
    ensures r.Ok? ==> forall i, j :: 0 <= i < j < |r.data.data| ==>
      KeyLe(Order(r.data.data[i].row), Order(r.data.data[j].row))
    ensures r.Ok? && !ParamIs(q, "admin", "true") ==> forall i :: 0 <= i < |r.data.data| ==>
      r.data.data[i].row.data.status == "published"
  {
    var args := PageArgsOf(q, 20).value;
    var matching := FindMany(rows, SelectedBy(q), Order);
    var pageRows := PageRows(rows, q);
    ListedPage(rows, SelectedBy(q), Order, args.page, args.limit);
    match Views(pageRows)
    case None => Fail(SERVER_ERROR, "fetch failed")
    case Some(views) =>
      ViewsOfPage(rows, q, pageRows, views);
      Ok(OK, ProjectPage(views, args.page, args.limit, |matching|, TotalPages(|matching|, args.limit)))
  }

  /** The listing, spelled out: it succeeds exactly when every project of
      the requested page has readable array columns, and it then answers
      those projects, in page order, with their columns read. */
  lemma ListedProjects(rows: seq<Row<Project>>, q: Params)
    requires PageArgsOf(q, 20).Some?
    ensures List(rows, q).Ok? <==> forall i :: 0 <= i < |PageRows(rows, q)| ==> Decodable(PageRows(rows, q)[i].data)
    ensures List(rows, q).Ok? ==> |List(rows, q).data.data| == |PageRows(rows, q)|
    ensures List(rows, q).Ok? ==> forall i :: 0 <= i < |PageRows(rows, q)| ==>
        List(rows, q).data.data[i].row == PageRows(rows, q)[i] &&
        DecodeColumn(PageRows(rows, q)[i].data.technologies) == Some(List(rows, q).data.data[i].technologies) &&
        DecodeColumn(PageRows(rows, q)[i].data.images) == Some(List(rows, q).data.data[i].images)
  {
    var p := PageRows(rows, q);
    var v := Views(p);
    assert List(rows, q).Ok? <==> v.Some?;
  }

  /** The views of a page keep the page's rows, order and selection. */
  lemma ViewsOfPage(rows: seq<Row<Project>>, q: Params, p: seq<Row<Project>>, views: seq<ProjectView>)
    requires forall i :: 0 <= i < |p| ==> p[i] in rows && SelectedBy(q)(p[i].data)
    requires SortedBy(p, Order)
    requires Views(p) == Some(views)
    ensures |views| == |p|
    ensures forall i :: 0 <= i < |views| ==> views[i].row in rows && Selected(q, views[i].row.data)
    ensures forall i, j :: 0 <= i < j < |views| ==> KeyLe(Order(views[i].row), Order(views[j].row))
    ensures !ParamIs(q, "admin", "true") ==> forall i :: 0 <= i < |views| ==> views[i].row.data.status == "published"
  {
    forall i | 0 <= i < |views|
      ensures views[i].row in rows && Selected(q, views[i].row.data)
    {
      assert views[i].row == p[i];
    }
  }

  // ---------------------------------------------------------------------
  // POST

  predicate SlugTaken(rows: seq<Row<Project>>, slug: string) {
    exists i :: 0 <= i < |rows| && rows[i].data.slug == slug
  }

  /** The `data` of `prisma.project.create`: the validated fields with the
      array fields stored as JSON text and the route's defaults. */
  function NewProject(v: ProjectInput): (p: Project)
    ensures DecodeColumn(p.technologies) == Some(v.technologies)
    ensures DecodeColumn(p.images) == Some(v.images.GetOr([]))
    ensures p.images.None? <==> v.images.None?
    ensures p.featured <==> v.featured == Some(true)
    ensures v.displayOrder.None? ==> p.displayOrder == 0
    ensures v.displayOrder.Some? ==> p.displayOrder == v.displayOrder.value
    ensures p.status == if Truthy(v.status) then v.status.value else "draft"
    ensures p.caseStudyUrl.Some? <==> Truthy(v.caseStudyUrl)
    ensures p.liveUrl.Some? <==> Truthy(v.liveUrl)
    ensures p.githubUrl.Some? <==> Truthy(v.githubUrl)
    ensures p.completionDate.Some? <==> Truthy(v.completionDate)
    ensures p.slug == v.slug && p.title == v.title && p.category == v.category
  {
    ColumnRoundTrip(Some(v.technologies));
    ColumnRoundTrip(v.images);
    Project(
      v.title, v.titleAr, v.slug, v.description, v.descriptionAr, v.category,
      EncodeColumn(Some(v.technologies)), v.clientName, EmptyToNone(v.completionDate),
      OrFalse(v.featured), EncodeColumn(v.images), EmptyToNone(v.caseStudyUrl),
      EmptyToNone(v.liveUrl), EmptyToNone(v.githubUrl), OrZero(v.displayOrder),
      OrElse(v.status, "draft"))
  }

  /** POST /api/portfolio. `body` is `None` when the request body is not
      JSON; `now` is the database clock. No session is consulted. */
  method Create(t: Table<Project>, f: Formats, body: Option<Body>, now: nat) returns (r: Reply<Row<Project>>)
    requires t.Valid()
    modifies t
    ensures t.Valid()
    ensures body.None? ==> r == Fail(SERVER_ERROR, "create failed") && t.rows == old(t.rows)
    ensures body.Some? && !Accepts(f, ProjectSchema, body.value) ==>
      r == Fail(BAD_REQUEST, "invalid data") && t.rows == old(t.rows)
    ensures body.Some? && Accepts(f, ProjectSchema, body.value) && SlugTaken(old(t.rows), ProjectOf(body.value).slug) ==>
      r == Fail(BAD_REQUEST, "slug exists") && t.rows == old(t.rows)
    ensures body.Some? && Accepts(f, ProjectSchema, body.value) && !SlugTaken(old(t.rows), ProjectOf(body.value).slug) ==>
      r.Ok? && r.status == CREATED && r.data.createdAt == now &&
      r.data.data == NewProject(ProjectOf(body.value)) && t.rows == old(t.rows) + [r.data]
  {
    if body.None? {
      return Fail(SERVER_ERROR, "create failed");
    }
    if !Accepts(f, ProjectSchema, body.value) {
      return Fail(BAD_REQUEST, "invalid data");
    }
    var v := ProjectOf(body.value);
    if SlugTaken(t.rows, v.slug) {
      return Fail(BAD_REQUEST, "slug exists");
    }
    var p := NewProject(v);
    var id := t.Insert(p, now);
    r := Ok(CREATED, Row(id, now, p));
  }

  /** After a successful create the new slug is taken, so creating the same
      slug again is refused. */
  lemma CreatedSlugTaken(rows: seq<Row<Project>>, row: Row<Project>)
    ensures SlugTaken(rows + [row], row.data.slug)
  {
    assert (rows + [row])[|rows|] == row;
  }
}
