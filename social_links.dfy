/** `src/app/api/social-links/route.ts`: the active social links and
    admin-only link creation. */
module SocialLinks {
  import opened Common
  import opened Seqs
  import opened Http
  import opened Store
  import opened Listing

  /** A row of the social-link table. */
  datatype Link = Link(platform: Option<string>, url: Option<string>, icon: Option<string>,
                       displayOrder: int, isActive: bool)

  function IsActive(l: Link): bool {
    l.isActive
  }

  /** `orderBy: { displayOrder: 'asc' }` */
  function Order(r: Row<Link>): Key {
    Key(r.data.displayOrder, 0, 0)
  }

  /** GET /api/social-links: takes no parameters; every active link, in
      display order. */
  function List(rows: seq<Row<Link>>): (r: seq<Row<Link>>)
    ensures |r| == CountWhere(rows, IsActive)
    ensures forall i :: 0 <= i < |r| ==> r[i] in rows && r[i].data.isActive
    ensures forall i :: 0 <= i < |rows| && rows[i].data.isActive ==> rows[i] in r
    ensures forall i, j :: 0 <= i < j < |r| ==> r[i].data.displayOrder <= r[j].data.displayOrder
  {
    FindMany(rows, IsActive, Order)
  }

  /** The request body's members; an absent member is `undefined`. */
  datatype LinkPayload = LinkPayload(platform: Option<string>, url: Option<string>, icon: Option<string>,
                                     displayOrder: Option<int>, isActive: Option<bool>)

  /** `displayOrder || 0`, `isActive ?? true`; the rest is copied. */
  function NewLink(p: LinkPayload): (l: Link)
    ensures l.platform == p.platform && l.url == p.url && l.icon == p.icon
    ensures l.displayOrder == (if p.displayOrder.Some? then p.displayOrder.value else 0)
    ensures l.isActive == (p.isActive != Some(false))
  {
    Link(p.platform, p.url, p.icon, OrZero(p.displayOrder), p.isActive.GetOr(true))
  }

  /** POST /api/social-links. A body that is not JSON is a 500. */
  method Create(t: Table<Link>, session: Option<Session>, body: Option<LinkPayload>, now: nat)
    returns (r: Reply<Row<Link>>)
    requires t.Valid()
    modifies t
    ensures t.Valid()
    ensures !IsAdmin(session) ==> r == Fail(UNAUTHORIZED, "unauthorized") && t.rows == old(t.rows)
    ensures IsAdmin(session) && body.None? ==> r == Fail(SERVER_ERROR, "create failed") && t.rows == old(t.rows)
    ensures IsAdmin(session) && body.Some? ==>
      r.Ok? && r.status == CREATED && r.data.createdAt == now && r.data.data == NewLink(body.value) &&
      t.rows == old(t.rows) + [r.data]
  {
    if !IsAdmin(session) {
      return Fail(UNAUTHORIZED, "unauthorized");
    }
    if body.None? {
      return Fail(SERVER_ERROR, "create failed");
    }
    var l := NewLink(body.value);
    var id := t.Insert(l, now);
    r := Ok(CREATED, Row(id, now, l));
  }

  /** A link is listed after creation exactly when it was not created
      inactive. */
  lemma CreatedListedUnlessInactive(rows: seq<Row<Link>>, p: LinkPayload, id: nat, now: nat)
    requires forall i :: 0 <= i < |rows| ==> rows[i].id != id
    ensures Row(id, now, NewLink(p)) in List(rows + [Row(id, now, NewLink(p))]) <==> p.isActive != Some(false)
  {
    var row := Row(id, now, NewLink(p));
    var rows' := rows + [row];
    assert rows'[|rows|] == row;
  }
}
