/** `src/app/api/pages/route.ts`: the list of site pages (published only
    unless `auth=true`) and admin-only creation. */
module Pages {
  import opened Common
  import opened Seqs
  import opened Http
  import opened Store
  import opened Listing

  /** A row of the page table. */
  datatype SitePage = SitePage(
    title: Option<string>, titleAr: Option<string>, slug: string, content: Option<string>,
    contentAr: Option<string>, metaTitle: Option<string>, metaTitleAr: Option<string>,
    metaDesc: Option<string>, metaDescAr: Option<string>, template: string, status: string,
    displayOrder: int)

  /** The `where` object: 'published' unless `auth=true`; with `auth=true`,
      the requested status when one is given, else every status. */
  predicate Selected(q: Params, p: SitePage) {
    if !ParamIs(q, "auth", "true") then p.status == "published"
    else !Truthy(Param(q, "status")) || p.status == Param(q, "status").value
  }

  function SelectedBy(q: Params): SitePage -> bool {
    p => Selected(q, p)
  }

  /** `orderBy: { displayOrder: 'asc' }` */
  function Order(r: Row<SitePage>): Key {
    Key(r.data.displayOrder, 0, 0)
  }

  /** GET /api/pages */
  function List(rows: seq<Row<SitePage>>, q: Params): (r: seq<Row<SitePage>>)
    ensures |r| == CountWhere(rows, SelectedBy(q))
    ensures forall i :: 0 <= i < |r| ==> r[i] in rows && Selected(q, r[i].data)
    ensures forall i :: 0 <= i < |rows| && Selected(q, rows[i].data) ==> rows[i] in r
    ensures forall i, j :: 0 <= i < j < |r| ==> r[i].data.displayOrder <= r[j].data.displayOrder
    ensures !ParamIs(q, "auth", "true") ==> forall i :: 0 <= i < |r| ==> r[i].data.status == "published"
  {
    FindMany(rows, SelectedBy(q), Order)
  }

  /** With `auth=true` and no status, every page is listed, drafts included. */
  lemma AuthListsEveryPage(rows: seq<Row<SitePage>>, q: Params)
    requires ParamIs(q, "auth", "true") && !Truthy(Param(q, "status"))
    ensures |List(rows, q)| == |rows|
    ensures forall i :: 0 <= i < |rows| ==> rows[i] in List(rows, q)
  {
    forall i | 0 <= i < |rows|
      ensures OnData(SelectedBy(q))(rows[i])
    {
      assert Selected(q, rows[i].data);
    }
    FilterAll(rows, OnData(SelectedBy(q)));
  }

  /** The request body's members; an absent member is `undefined`. */
  datatype PagePayload = PagePayload(
    title: Option<string>, titleAr: Option<string>, slug: Option<string>, content: Option<string>,
    contentAr: Option<string>, metaTitle: Option<string>, metaTitleAr: Option<string>,
    metaDesc: Option<string>, metaDescAr: Option<string>, template: Option<string>,
    status: Option<string>, displayOrder: Option<int>)

  /** `template || 'default'`, `status || 'draft'`, `displayOrder || 0`. */
  function NewPage(p: PagePayload, slug: string): (s: SitePage)
    ensures s.slug == slug && s.title == p.title && s.content == p.content
    ensures s.template == (if Truthy(p.template) then p.template.value else "default")
    ensures s.status == (if Truthy(p.status) then p.status.value else "draft")
    ensures s.displayOrder == (if p.displayOrder.Some? then p.displayOrder.value else 0)
  {
    SitePage(p.title, p.titleAr, slug, p.content, p.contentAr, p.metaTitle, p.metaTitleAr,
             p.metaDesc, p.metaDescAr, OrElse(p.template, "default"), OrElse(p.status, "draft"),
             OrZero(p.displayOrder))
  }

  predicate SlugTaken(rows: seq<Row<SitePage>>, slug: string) {
    exists i :: 0 <= i < |rows| && rows[i].data.slug == slug
  }

  /** POST /api/pages. A missing body or slug is a 500. */
  method Create(t: Table<SitePage>, session: Option<Session>, body: Option<PagePayload>, now: nat)
    returns (r: Reply<Row<SitePage>>)
    requires t.Valid()
    modifies t
    ensures t.Valid()
    ensures !IsAdmin(session) ==> r == Fail(UNAUTHORIZED, "unauthorized") && t.rows == old(t.rows)
    ensures IsAdmin(session) && (body.None? || body.value.slug.None?) ==>
      r == Fail(SERVER_ERROR, "create failed") && t.rows == old(t.rows)
    ensures IsAdmin(session) && body.Some? && body.value.slug.Some? && SlugTaken(old(t.rows), body.value.slug.value) ==>
      r == Fail(BAD_REQUEST, "slug exists") && t.rows == old(t.rows)
    ensures IsAdmin(session) && body.Some? && body.value.slug.Some? && !SlugTaken(old(t.rows), body.value.slug.value) ==>
      r.Ok? && r.status == CREATED && r.data.data == NewPage(body.value, body.value.slug.value) &&
      t.rows == old(t.rows) + [r.data]
  {
    if !IsAdmin(session) {
      return Fail(UNAUTHORIZED, "unauthorized");
    }
    if body.None? || body.value.slug.None? {
      return Fail(SERVER_ERROR, "create failed");
    }
    var slug := body.value.slug.value;
    if SlugTaken(t.rows, slug) {
      return Fail(BAD_REQUEST, "slug exists");
    }
    var p := NewPage(body.value, slug);
    var id := t.Insert(p, now);
    r := Ok(CREATED, Row(id, now, p));
  }

  /** A page created without a status stays off the public list. */
  lemma DraftNotPublic(rows: seq<Row<SitePage>>, q: Params, p: PagePayload, slug: string, id: nat, now: nat)
    requires !ParamIs(q, "auth", "true") && !Truthy(p.status)
    ensures Row(id, now, NewPage(p, slug)) !in List(rows + [Row(id, now, NewPage(p, slug))], q)
  {
  }
}
