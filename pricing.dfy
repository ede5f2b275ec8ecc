/** `src/app/api/pricing/route.ts`: the pricing-plan list (active plans
    unless `active=false`) and admin-only plan creation. */
module Pricing {
  import opened Common
  import opened Seqs
  import opened JsonArray
  import opened Http
  import opened Store
  import opened Listing

  /** A row of the plan table. `features` and `featuresAr` hold JSON array
      text; `price` is copied as given. */
  datatype Plan = Plan(
    name: Option<string>, nameAr: Option<string>, description: Option<string>,
    descriptionAr: Option<string>, price: Option<int>, currency: string, period: string,
    features: Option<string>, featuresAr: Option<string>, highlighted: bool,
    displayOrder: int, isActive: bool)

  // ---------------------------------------------------------------------
  // GET

  /** `activeOnly = active !== 'false'` */
  predicate Selected(q: Params, p: Plan) {
    ParamIs(q, "active", "false") || p.isActive
  }

  function SelectedBy(q: Params): Plan -> bool {
    p => Selected(q, p)
  }

  /** `orderBy: { displayOrder: 'asc' }` */
  function Order(r: Row<Plan>): Key {
    Key(r.data.displayOrder, 0, 0)
  }

  /** `plan.featuresAr ? JSON.parse(plan.featuresAr) : null`: unlike
      `features`, a missing Arabic list stays missing. The outer option is
      the parse outcome. */
  function DecodeOptional(col: Option<string>): (r: Option<Option<seq<string>>>)
    ensures !Truthy(col) ==> r == Some(None)
    ensures Truthy(col) ==> (r.Some? <==> Decode(col.value).Some?)
    ensures Truthy(col) && r.Some? ==> r.value == Some(Decode(col.value).value)
  {
    if !Truthy(col) then Some(None)
    else match Decode(col.value)
      case None => None
      case Some(xs) => Some(Some(xs))
  }

  predicate Decodable(p: Plan) {
    DecodeColumn(p.features).Some? && DecodeOptional(p.featuresAr).Some?
  }

  /** A listed plan: the row with `features` parsed (missing text read as
      `'[]'`) and `featuresAr` parsed or `null`. */
  datatype PlanView = PlanView(row: Row<Plan>, features: seq<string>, featuresAr: Option<seq<string>>)

  /** The `plans.map(...)`; `None` when a column holds text that does not
      parse, which fails the whole request. */
  function Views(rows: seq<Row<Plan>>): (r: Option<seq<PlanView>>)
    ensures r.Some? ==> |r.value| == |rows|
    ensures r.Some? ==> forall i :: 0 <= i < |rows| ==>
      r.value[i].row == rows[i] &&
      DecodeColumn(rows[i].data.features) == Some(r.value[i].features) &&
      DecodeOptional(rows[i].data.featuresAr) == Some(r.value[i].featuresAr)
    ensures r.None? <==> exists i :: 0 <= i < |rows| && !Decodable(rows[i].data)
  {
    if rows == [] then Some([])
    else
      var fs := DecodeColumn(rows[0].data.features);
      var ar := DecodeOptional(rows[0].data.featuresAr);
      var rest := Views(rows[1..]);
      assert forall i :: 1 <= i < |rows| ==> rows[i] == rows[1..][i - 1];
      if fs.None? || ar.None? || rest.None? then None
      else Some([PlanView(rows[0], fs.value, ar.value)] + rest.value)
  }

  /** GET /api/pricing */
  function List(rows: seq<Row<Plan>>, q: Params): (r: Reply<seq<PlanView>>)
    ensures r.Ok? <==> forall i :: 0 <= i < |rows| && Selected(q, rows[i].data) ==> Decodable(rows[i].data)
    ensures r.Ok? ==> r.status == OK && |r.data| == CountWhere(rows, SelectedBy(q))
    ensures r.Fail? ==> r.status == SERVER_ERROR
    ensures r.Ok? ==> forall i :: 0 <= i < |r.data| ==>
      r.data[i].row in rows && Selected(q, r.data[i].row.data) &&
      DecodeColumn(r.data[i].row.data.features) == Some(r.data[i].features) &&
      DecodeOptional(r.data[i].row.data.featuresAr) == Some(r.data[i].featuresAr)
    ensures r.Ok? ==> forall i, j :: 0 <= i < j < |r.data| ==>
      r.data[i].row.data.displayOrder <= r.data[j].row.data.displayOrder
    ensures r.Ok? && !ParamIs(q, "active", "false") ==> forall i :: 0 <= i < |r.data| ==> r.data[i].row.data.isActive
    ensures r.Ok? ==> forall i :: 0 <= i < |rows| && Selected(q, rows[i].data) ==>
      exists j :: 0 <= j < |r.data| && r.data[j].row == rows[i]
  {
    var matching := FindMany(rows, SelectedBy(q), Order);
    match Views(matching)
    case None =>
      ViewsFail(rows, q);
      Fail(SERVER_ERROR, "fetch failed")
    case Some(views) =>
      ViewsAll(rows, q, views);
      Ok(OK, views)
  }

  /** A listed plan whose columns do not parse is a selected row of the table. */
  lemma ViewsFail(rows: seq<Row<Plan>>, q: Params)
    requires Views(FindMany(rows, SelectedBy(q), Order)).None?
    ensures exists i :: 0 <= i < |rows| && Selected(q, rows[i].data) && !Decodable(rows[i].data)
  {
    var m := FindMany(rows, SelectedBy(q), Order);
    var k :| 0 <= k < |m| && !Decodable(m[k].data);
    assert m[k] in rows && SelectedBy(q)(m[k].data);
    var i :| 0 <= i < |rows| && rows[i] == m[k];
  }

  /** When every listed plan parses, the views are the selected rows in
      display order, each with its columns parsed. */
  lemma ViewsAll(rows: seq<Row<Plan>>, q: Params, views: seq<PlanView>)
    requires Views(FindMany(rows, SelectedBy(q), Order)) == Some(views)
    ensures forall i :: 0 <= i < |rows| && Selected(q, rows[i].data) ==> Decodable(rows[i].data)
    ensures |views| == CountWhere(rows, SelectedBy(q))
    ensures forall i :: 0 <= i < |views| ==>
      views[i].row in rows && Selected(q, views[i].row.data) &&
      DecodeColumn(views[i].row.data.features) == Some(views[i].features) &&
      DecodeOptional(views[i].row.data.featuresAr) == Some(views[i].featuresAr)
    ensures forall i, j :: 0 <= i < j < |views| ==> views[i].row.data.displayOrder <= views[j].row.data.displayOrder
    ensures forall i :: 0 <= i < |rows| && Selected(q, rows[i].data) ==>
      exists j :: 0 <= j < |views| && views[j].row == rows[i]
  {
    var m := FindMany(rows, SelectedBy(q), Order);
    forall i | 0 <= i < |rows| && Selected(q, rows[i].data)
      ensures Decodable(rows[i].data) && exists j :: 0 <= j < |views| && views[j].row == rows[i]
    {
      assert SelectedBy(q)(rows[i].data);
      assert rows[i] in m;
      var k :| 0 <= k < |m| && m[k] == rows[i];
      assert views[k].row == rows[i];
    }
    forall i | 0 <= i < |views|
      ensures views[i].row in rows && Selected(q, views[i].row.data)
    {
      assert views[i].row == m[i];
      assert SelectedBy(q)(m[i].data);
    }
    forall i, j | 0 <= i < j < |views|
      ensures views[i].row.data.displayOrder <= views[j].row.data.displayOrder
    {
      assert KeyLe(Order(m[i]), Order(m[j]));
    }
  }

  // ---------------------------------------------------------------------
  // POST

  /** The request body's members; an absent member is `undefined`. */
  datatype PlanPayload = PlanPayload(
    name: Option<string>, nameAr: Option<string>, description: Option<string>,
    descriptionAr: Option<string>, price: Option<int>, currency: Option<string>,
    period: Option<string>, features: Option<seq<string>>, featuresAr: Option<seq<string>>,
    highlighted: Option<bool>, displayOrder: Option<int>, isActive: Option<bool>)

  /** The `data` of `prisma.pricingPlan.create`. An array is truthy even
      when empty, so `features || []` and `featuresAr ? ... : null` only
      look at whether the list was given. */
  function NewPlan(p: PlanPayload): (s: Plan)
    ensures s.currency == (if Truthy(p.currency) then p.currency.value else "USD")
    ensures s.period == (if Truthy(p.period) then p.period.value else "monthly")
    ensures s.features.Some? && DecodeColumn(s.features) == Some(p.features.GetOr([]))
    ensures s.featuresAr.None? <==> p.featuresAr.None?
    ensures s.featuresAr.Some? ==> Decode(s.featuresAr.value) == p.featuresAr
    ensures s.highlighted == (p.highlighted == Some(true))
    ensures s.displayOrder == (if p.displayOrder.Some? then p.displayOrder.value else 0)
    ensures s.isActive == (p.isActive != Some(false))
    ensures s.name == p.name && s.price == p.price
  {
    var xs := p.features.GetOr([]);
    RoundTrip(xs);
    OptionalRoundTrip(p.featuresAr);
    Plan(p.name, p.nameAr, p.description, p.descriptionAr, p.price,
         OrElse(p.currency, "USD"), OrElse(p.period, "monthly"),
         Some(Encode(xs)),
         if p.featuresAr.Some? then Some(Encode(p.featuresAr.value)) else None,
         OrFalse(p.highlighted), OrZero(p.displayOrder), p.isActive.GetOr(true))
  }

  lemma OptionalRoundTrip(xs: Option<seq<string>>)
    ensures xs.Some? ==> Decode(Encode(xs.value)) == xs
  {
    if xs.Some? {
      RoundTrip(xs.value);
    }
  }

  /** POST /api/pricing. A body that is not JSON is a 500. */
  method Create(t: Table<Plan>, session: Option<Session>, body: Option<PlanPayload>, now: nat)
    returns (r: Reply<Row<Plan>>)
    requires t.Valid()
    modifies t
    ensures t.Valid()
    ensures !IsAdmin(session) ==> r == Fail(UNAUTHORIZED, "unauthorized") && t.rows == old(t.rows)
    ensures IsAdmin(session) && body.None? ==> r == Fail(SERVER_ERROR, "create failed") && t.rows == old(t.rows)
    ensures IsAdmin(session) && body.Some? ==>
      r.Ok? && r.status == CREATED && r.data.createdAt == now && r.data.data == NewPlan(body.value) &&
      t.rows == old(t.rows) + [r.data]
  {
    if !IsAdmin(session) {
      return Fail(UNAUTHORIZED, "unauthorized");
    }
    if body.None? {
      return Fail(SERVER_ERROR, "create failed");
    }
    var p := NewPlan(body.value);
    var id := t.Insert(p, now);
    r := Ok(CREATED, Row(id, now, p));
  }

  /** The feature lists a plan is created with are the lists GET reads
      back: `features` as given (or empty), `featuresAr` as given or null. */
  lemma CreatedPlanReadsBack(p: PlanPayload, id: nat, now: nat)
    ensures Views([Row(id, now, NewPlan(p))]) ==
      Some([PlanView(Row(id, now, NewPlan(p)), p.features.GetOr([]), p.featuresAr)])
  {
    var row := Row(id, now, NewPlan(p));
    if row.data.featuresAr.Some? {
      assert Truthy(row.data.featuresAr);
    }
    assert DecodeOptional(row.data.featuresAr) == Some(p.featuresAr);
    assert DecodeColumn(row.data.features) == Some(p.features.GetOr([]));
    assert Decodable(row.data);
    var v := Views([row]);
    assert v.Some? && |v.value| == 1;
    assert v.value[0] == PlanView(row, p.features.GetOr([]), p.featuresAr);
    assert v.value == [PlanView(row, p.features.GetOr([]), p.featuresAr)];
  }
}
