/** `src/app/api/services/route.ts`: the service list (public callers see
    active services only) and service creation. */
module Services {
  import opened Common
  import opened Seqs
  import opened JsonArray
  import opened Http
  import opened Store
  import opened Listing
  import opened Validations

  /** A row of the service table; the two feature lists hold JSON array text. */
  datatype Service = Service(
    title: string, titleAr: Option<string>, slug: string, shortDescription: string,
    shortDescAr: Option<string>, fullDescription: Option<string>, fullDescAr: Option<string>,
    icon: Option<string>, features: Option<string>, featuresAr: Option<string>,
    pricingFrom: Option<int>, displayOrder: int, isActive: bool)

  // ---------------------------------------------------------------------
  // GET

  /** `where = isAdmin ? {} : { isActive: true }` */
  predicate Shown(q: Params, s: Service) {
    ParamIs(q, "admin", "true") || s.isActive
  }

  function ShownBy(q: Params): Service -> bool {
    s => Shown(q, s)
  }

  /** `orderBy: [{ displayOrder: 'asc' }, { createdAt: 'asc' }]` */
  function Order(r: Row<Service>): Key {
    Key(r.data.displayOrder, r.createdAt, 0)
  }

  predicate Decodable(s: Service) {
    DecodeColumn(s.features).Some? && DecodeColumn(s.featuresAr).Some?
  }

  /** A listed service: the row with both feature lists parsed. */
  datatype ServiceView = ServiceView(row: Row<Service>, features: seq<string>, featuresAr: seq<string>)

  /** The `services.map(...)` that parses the feature columns; `None` when
      a column holds text `JSON.parse` rejects. */
  function Views(rows: seq<Row<Service>>): (r: Option<seq<ServiceView>>)
    ensures r.Some? ==> |r.value| == |rows|
    ensures r.Some? ==> forall i :: 0 <= i < |rows| ==>
      r.value[i].row == rows[i] &&
      DecodeColumn(rows[i].data.features) == Some(r.value[i].features) &&
      DecodeColumn(rows[i].data.featuresAr) == Some(r.value[i].featuresAr)
    ensures r.None? <==> exists i :: 0 <= i < |rows| && !Decodable(rows[i].data)
  {
    if rows == [] then Some([])
    else
      var fs := DecodeColumn(rows[0].data.features);
      var ar := DecodeColumn(rows[0].data.featuresAr);
      var rest := Views(rows[1..]);
      assert forall i :: 1 <= i < |rows| ==> rows[i] == rows[1..][i - 1];
      if fs.None? || ar.None? || rest.None? then None
      else Some([ServiceView(rows[0], fs.value, ar.value)] + rest.value)
  }

  /** GET /api/services: every shown service, in order, with its feature
      lists parsed; the request fails when a shown service has a feature
      column that does not parse. */
  function List(rows: seq<Row<Service>>, q: Params): (r: Reply<seq<ServiceView>>)
    ensures r.Ok? <==> forall i :: 0 <= i < |rows| && Shown(q, rows[i].data) ==> Decodable(rows[i].data)
    ensures r.Ok? ==> r.status == OK && |r.data| == CountWhere(rows, ShownBy(q))
    ensures r.Fail? ==> r.status == SERVER_ERROR
    ensures r.Ok? ==> forall i :: 0 <= i < |r.data| ==> r.data[i].row in rows && Shown(q, r.data[i].row.data)
    ensures r.Ok? ==> forall i :: 0 <= i < |r.data| ==>
      DecodeColumn(r.data[i].row.data.features) == Some(r.data[i].features) &&
      DecodeColumn(r.data[i].row.data.featuresAr) == Some(r.data[i].featuresAr)
    ensures r.Ok? ==> forall i :: 0 <= i < |rows| && Shown(q, rows[i].data) ==>
      exists j :: 0 <= j < |r.data| && r.data[j].row == rows[i]
    ensures r.Ok? ==> forall i, j :: 0 <= i < j < |r.data| ==>
      KeyLe(Order(r.data[i].row), Order(r.data[j].row))
    ensures r.Ok? && !ParamIs(q, "admin", "true") ==> forall i :: 0 <= i < |r.data| ==> r.data[i].row.data.isActive
  {
    var matching := FindMany(rows, ShownBy(q), Order);
    match Views(matching)
    case None =>
      ViewsFail(rows, q);
      Fail(SERVER_ERROR, "fetch failed")
    case Some(views) =>
      ViewsAll(rows, q, views);
      Ok(OK, views)
  }

  /** A listed service whose columns do not parse is a shown row of the table. */
  lemma ViewsFail(rows: seq<Row<Service>>, q: Params)
    requires Views(FindMany(rows, ShownBy(q), Order)).None?
    ensures exists i :: 0 <= i < |rows| && Shown(q, rows[i].data) && !Decodable(rows[i].data)
  {
    var m := FindMany(rows, ShownBy(q), Order);
    var k :| 0 <= k < |m| && !Decodable(m[k].data);
    assert m[k] in rows && ShownBy(q)(m[k].data);
    var i :| 0 <= i < |rows| && rows[i] == m[k];
  }

  /** When every listed service parses, the views are exactly the shown
      rows, in list order, each with its columns parsed. */
  lemma ViewsAll(rows: seq<Row<Service>>, q: Params, views: seq<ServiceView>)
    requires Views(FindMany(rows, ShownBy(q), Order)) == Some(views)
    ensures forall i :: 0 <= i < |rows| && Shown(q, rows[i].data) ==> Decodable(rows[i].data)
    ensures |views| == CountWhere(rows, ShownBy(q))
    ensures forall i :: 0 <= i < |views| ==>
      views[i].row in rows && Shown(q, views[i].row.data) &&
      DecodeColumn(views[i].row.data.features) == Some(views[i].features) &&
      DecodeColumn(views[i].row.data.featuresAr) == Some(views[i].featuresAr)
    ensures forall i :: 0 <= i < |rows| && Shown(q, rows[i].data) ==>
      exists j :: 0 <= j < |views| && views[j].row == rows[i]
    ensures forall i, j :: 0 <= i < j < |views| ==> KeyLe(Order(views[i].row), Order(views[j].row))
  {
    var m := FindMany(rows, ShownBy(q), Order);
    forall i | 0 <= i < |rows| && Shown(q, rows[i].data)
      ensures Decodable(rows[i].data) && exists j :: 0 <= j < |views| && views[j].row == rows[i]
    {
      assert ShownBy(q)(rows[i].data);
      assert rows[i] in m;
      var k :| 0 <= k < |m| && m[k] == rows[i];
      assert views[k].row == rows[i];
    }
    forall i | 0 <= i < |views|
      ensures views[i].row in rows && Shown(q, views[i].row.data)
    {
      assert views[i].row == m[i];
      assert ShownBy(q)(m[i].data);
    }
    forall i, j | 0 <= i < j < |views|
      ensures KeyLe(Order(views[i].row), Order(views[j].row))
    {
      assert views[i].row == m[i] && views[j].row == m[j];
    }
  }

  // ---------------------------------------------------------------------
  // POST

  predicate SlugTaken(rows: seq<Row<Service>>, slug: string) {
    exists i :: 0 <= i < |rows| && rows[i].data.slug == slug
  }

  /** The `data` of `prisma.service.create`: feature lists stored as JSON
      text (absent lists as null), `displayOrder || 0`, `isActive ?? true`. */
  function NewService(v: ServiceInput): (s: Service)
    ensures DecodeColumn(s.features) == Some(v.features.GetOr([]))
    ensures DecodeColumn(s.featuresAr) == Some(v.featuresAr.GetOr([]))
    ensures s.features.None? <==> v.features.None?
    ensures s.featuresAr.None? <==> v.featuresAr.None?
    ensures s.isActive == (v.isActive != Some(false))
    ensures s.displayOrder == (if v.displayOrder.Some? then v.displayOrder.value else 0)
    ensures s.slug == v.slug && s.title == v.title && s.shortDescription == v.shortDescription
  {
    ColumnRoundTrip(v.features);
    ColumnRoundTrip(v.featuresAr);
    Service(
      v.title, v.titleAr, v.slug, v.shortDescription, v.shortDescAr, v.fullDescription,
      v.fullDescAr, v.icon, EncodeColumn(v.features), EncodeColumn(v.featuresAr),
      v.pricingFrom, OrZero(v.displayOrder), v.isActive.GetOr(true))
  }

  /** POST /api/services. A body that is not JSON and a body the schema
      refuses both end in the catch-all 500. */
  method Create(t: Table<Service>, f: Formats, body: Option<Body>, now: nat) returns (r: Reply<Row<Service>>)
    requires t.Valid()
    modifies t
    ensures t.Valid()
    ensures (body.None? || !Accepts(f, ServiceSchema, body.value)) ==>
      r == Fail(SERVER_ERROR, "create failed") && t.rows == old(t.rows)
    ensures body.Some? && Accepts(f, ServiceSchema, body.value) && SlugTaken(old(t.rows), ServiceOf(body.value).slug) ==>
      r == Fail(BAD_REQUEST, "slug exists") && t.rows == old(t.rows)
    ensures body.Some? && Accepts(f, ServiceSchema, body.value) && !SlugTaken(old(t.rows), ServiceOf(body.value).slug) ==>
      r.Ok? && r.status == CREATED && r.data.createdAt == now &&
      r.data.data == NewService(ServiceOf(body.value)) && t.rows == old(t.rows) + [r.data]
  {
    if body.None? || !Accepts(f, ServiceSchema, body.value) {
      return Fail(SERVER_ERROR, "create failed");
    }
    var v := ServiceOf(body.value);
    if SlugTaken(t.rows, v.slug) {
      return Fail(BAD_REQUEST, "slug exists");
    }
    var s := NewService(v);
    var id := t.Insert(s, now);
    r := Ok(CREATED, Row(id, now, s));
  }

  /** A service created while the list was readable is listed afterwards
      (for a public caller, when it is active), with the feature lists it
      was created with. */
  lemma {:induction false} CreatedIsListed(rows: seq<Row<Service>>, q: Params, v: ServiceInput, id: nat, now: nat)
    requires List(rows, q).Ok?
    requires Shown(q, NewService(v))
    ensures List(rows + [Row(id, now, NewService(v))], q).Ok?
    ensures ServiceView(Row(id, now, NewService(v)), v.features.GetOr([]), v.featuresAr.GetOr([]))
      in List(rows + [Row(id, now, NewService(v))], q).data
  {
    var row := Row(id, now, NewService(v));
    var rows' := rows + [row];
    AppendStaysReadable(rows, q, row);
    assert rows'[|rows|] == row;
    var j := ListedRow(rows', q, |rows|);
    var view := List(rows', q).data[j];
    assert Some(view.features) == Some(v.features.GetOr([]));
    assert Some(view.featuresAr) == Some(v.featuresAr.GetOr([]));
    assert view == ServiceView(row, v.features.GetOr([]), v.featuresAr.GetOr([]));
  }

  /** A shown row of a readable table appears in the list, with its
      feature columns parsed. */
  lemma ListedRow(rows: seq<Row<Service>>, q: Params, i: nat) returns (j: nat)
    requires List(rows, q).Ok? && i < |rows| && Shown(q, rows[i].data)
    ensures j < |List(rows, q).data| && List(rows, q).data[j].row == rows[i]
    ensures DecodeColumn(rows[i].data.features) == Some(List(rows, q).data[j].features)
    ensures DecodeColumn(rows[i].data.featuresAr) == Some(List(rows, q).data[j].featuresAr)
  {
    var r := List(rows, q);
    j :| 0 <= j < |r.data| && r.data[j].row == rows[i];
  }

  lemma AppendStaysReadable(rows: seq<Row<Service>>, q: Params, row: Row<Service>)
    requires List(rows, q).Ok?
    requires Shown(q, row.data) ==> Decodable(row.data)
    ensures List(rows + [row], q).Ok?
  {
    var rows' := rows + [row];
    forall i | 0 <= i < |rows'| && Shown(q, rows'[i].data)
      ensures Decodable(rows'[i].data)
    {
      if i < |rows| {
        assert rows'[i] == rows[i];
      }
    }
  }
}
