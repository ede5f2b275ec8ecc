/** `src/app/api/partners/route.ts`: the partner list and admin-only
    partner creation. */
module Partners {
  import opened Common
  import opened Seqs
  import opened Http
  import opened Store
  import opened Listing

  /** A row of the partner table; `kind` is the `type` column. */
  datatype Partner = Partner(
    name: Option<string>, nameAr: Option<string>, logo: Option<string>, website: Option<string>,
    description: Option<string>, descriptionAr: Option<string>, kind: string, featured: bool,
    displayOrder: int, isActive: bool)

  /** The `where` object: active unless `active=false`, the `type` when
      given, featured only when `featured=true`. */
  predicate Selected(q: Params, p: Partner) {
    (ParamIs(q, "active", "false") || p.isActive) &&
    (!Truthy(Param(q, "type")) || p.kind == Param(q, "type").value) &&
    (!ParamIs(q, "featured", "true") || p.featured)
  }

  function SelectedBy(q: Params): Partner -> bool {
    p => Selected(q, p)
  }

  /** `orderBy: { displayOrder: 'asc' }` */
  function Order(r: Row<Partner>): Key {
    Key(r.data.displayOrder, 0, 0)
  }

  /** GET /api/partners */
  function List(rows: seq<Row<Partner>>, q: Params): (r: seq<Row<Partner>>)
    ensures |r| == CountWhere(rows, SelectedBy(q))
    ensures forall i :: 0 <= i < |r| ==> r[i] in rows && Selected(q, r[i].data)
    ensures forall i :: 0 <= i < |rows| && Selected(q, rows[i].data) ==> rows[i] in r
    ensures forall i, j :: 0 <= i < j < |r| ==> r[i].data.displayOrder <= r[j].data.displayOrder
  {
    FindMany(rows, SelectedBy(q), Order)
  }

  /** A filtered list is part of the unfiltered one (`active=false`, no
      type, no `featured=true`): the filters only ever narrow it. */
  lemma FiltersNarrow(rows: seq<Row<Partner>>, q: Params, all: Params)
    requires ParamIs(all, "active", "false") && !Truthy(Param(all, "type")) && !ParamIs(all, "featured", "true")
    ensures forall x :: x in List(rows, q) ==> x in List(rows, all)
  {
    var some := List(rows, q);
    var every := List(rows, all);
    forall x | x in some
      ensures x in every
    {
      var k :| 0 <= k < |rows| && rows[k] == x;
      assert Selected(all, rows[k].data);
    }
  }

  /** The request body's members; an absent member is `undefined`. */
  datatype PartnerPayload = PartnerPayload(
    name: Option<string>, nameAr: Option<string>, logo: Option<string>, website: Option<string>,
    description: Option<string>, descriptionAr: Option<string>, kind: Option<string>,
    featured: Option<bool>, displayOrder: Option<int>, isActive: Option<bool>)

  /** `type || 'client'`, `featured ?? false`, `displayOrder || 0`,
      `isActive ?? true`; the rest is copied. */
  function NewPartner(p: PartnerPayload): (s: Partner)
    ensures s.kind == (if Truthy(p.kind) then p.kind.value else "client")
    ensures s.featured == (p.featured == Some(true))
    ensures s.displayOrder == (if p.displayOrder.Some? then p.displayOrder.value else 0)
    ensures s.isActive == (p.isActive != Some(false))
    ensures s.name == p.name && s.logo == p.logo && s.website == p.website
  {
    Partner(p.name, p.nameAr, p.logo, p.website, p.description, p.descriptionAr,
            OrElse(p.kind, "client"), OrFalse(p.featured), OrZero(p.displayOrder),
            p.isActive.GetOr(true))
  }

  /** POST /api/partners. A body that is not JSON is a 500. */
  method Create(t: Table<Partner>, session: Option<Session>, body: Option<PartnerPayload>, now: nat)
    returns (r: Reply<Row<Partner>>)
    requires t.Valid()
    modifies t
    ensures t.Valid()
    ensures !IsAdmin(session) ==> r == Fail(UNAUTHORIZED, "unauthorized") && t.rows == old(t.rows)
    ensures IsAdmin(session) && body.None? ==> r == Fail(SERVER_ERROR, "create failed") && t.rows == old(t.rows)
    ensures IsAdmin(session) && body.Some? ==>
      r.Ok? && r.status == CREATED && r.data.createdAt == now && r.data.data == NewPartner(body.value) &&
      t.rows == old(t.rows) + [r.data]
  {
    if !IsAdmin(session) {
      return Fail(UNAUTHORIZED, "unauthorized");
    }
    if body.None? {
      return Fail(SERVER_ERROR, "create failed");
    }
    var p := NewPartner(body.value);
    var id := t.Insert(p, now);
    r := Ok(CREATED, Row(id, now, p));
  }

  /** A partner created without `isActive: false` is on the public list
      (no type or featured filter) afterwards. */
  lemma CreatedIsListed(rows: seq<Row<Partner>>, p: PartnerPayload, id: nat, now: nat)
    requires p.isActive != Some(false)
    ensures Row(id, now, NewPartner(p)) in List(rows + [Row(id, now, NewPartner(p))], map[])
  {
    var rows' := rows + [Row(id, now, NewPartner(p))];
    assert rows'[|rows|] == Row(id, now, NewPartner(p));
  }
}
