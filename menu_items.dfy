/** `src/app/api/menu-items/route.ts`: admin-only creation of menu items
    and the bulk update the menu editor sends after a drag-and-drop. */
module MenuItems {
  import opened Common
  import opened Http
  import opened Store

  /** A row of the menu-item table; `parentId` is the id of the parent
      item, `None` for a top-level item. `labelText` is the column
      `label` (a word Dafny reserves). */
  datatype MenuItem = MenuItem(
    menuId: Option<nat>, parentId: Option<nat>, labelText: Option<string>, labelAr: Option<string>,
    url: Option<string>, pageId: Option<nat>, target: string, icon: Option<string>,
    displayOrder: int, isActive: bool)

  // ---------------------------------------------------------------------
  // POST

  /** The request body's members; an absent member is `undefined`, and
      `labelText` is the member `label`. */
  datatype ItemPayload = ItemPayload(
    menuId: Option<nat>, parentId: Option<nat>, labelText: Option<string>, labelAr: Option<string>,
    url: Option<string>, pageId: Option<nat>, target: Option<string>, icon: Option<string>,
    displayOrder: Option<int>, isActive: Option<bool>)

  /** `target || '_self'`, `displayOrder || 0`, `isActive ?? true`; the
      rest is copied. */
  function NewItem(p: ItemPayload): (it: MenuItem)
    ensures it.target == (if Truthy(p.target) then p.target.value else "_self")
    ensures it.displayOrder == (if p.displayOrder.Some? then p.displayOrder.value else 0)
    ensures it.isActive == (p.isActive != Some(false))
    ensures it.menuId == p.menuId && it.parentId == p.parentId && it.labelText == p.labelText && it.url == p.url
  {
    MenuItem(p.menuId, p.parentId, p.labelText, p.labelAr, p.url, p.pageId, OrElse(p.target, "_self"),
             p.icon, OrZero(p.displayOrder), p.isActive.GetOr(true))
  }

  /** POST /api/menu-items. A body that is not JSON is a 500. */
  method Create(t: Table<MenuItem>, session: Option<Session>, body: Option<ItemPayload>, now: nat)
    returns (r: Reply<Row<MenuItem>>)
    requires t.Valid()
    modifies t
    ensures t.Valid()
    ensures !IsAdmin(session) ==> r == Fail(UNAUTHORIZED, "unauthorized") && t.rows == old(t.rows)
    ensures IsAdmin(session) && body.None? ==> r == Fail(SERVER_ERROR, "create failed") && t.rows == old(t.rows)
    ensures IsAdmin(session) && body.Some? ==>
      r.Ok? && r.status == CREATED && r.data.createdAt == now && r.data.data == NewItem(body.value) &&
      t.rows == old(t.rows) + [r.data]
  {
    if !IsAdmin(session) {
      return Fail(UNAUTHORIZED, "unauthorized");
    }
    if body.None? {
      return Fail(SERVER_ERROR, "create failed");
    }
    var it := NewItem(body.value);
    var id := t.Insert(it, now);
    r := Ok(CREATED, Row(id, now, it));
  }

  // ---------------------------------------------------------------------
  // PUT

  /** One element of the body's `items`. An absent `displayOrder` or
      `parentId` is `undefined`, which leaves the column as it is;
      `parentId: Some(None)` is an explicit `null`. */
  datatype Move = Move(id: nat, displayOrder: Option<int>, parentId: Option<Option<nat>>)

  /** The `data` of one `prisma.menuItem.update`: only `displayOrder` and
      `parentId` can change. */
  function Moved(d: MenuItem, m: Move): (r: MenuItem)
    ensures r.displayOrder == (if m.displayOrder.Some? then m.displayOrder.value else d.displayOrder)
    ensures r.parentId == (if m.parentId.Some? then m.parentId.value else d.parentId)
    ensures r.(displayOrder := d.displayOrder, parentId := d.parentId) == d
  {
    d.(displayOrder := m.displayOrder.GetOr(d.displayOrder), parentId := m.parentId.GetOr(d.parentId))
  }

  /** The update `where: { id }` succeeds only on an existing item. */
  predicate Known(rows: seq<Row<MenuItem>>, m: Move) {
    exists i :: 0 <= i < |rows| && rows[i].id == m.id
  }

  /** The table after one update: the item with the move's id is moved,
      every other row is as it was. */
  function ApplyMove(rows: seq<Row<MenuItem>>, m: Move): (r: seq<Row<MenuItem>>)
    ensures |r| == |rows|
    ensures forall i :: 0 <= i < |rows| ==> r[i].id == rows[i].id && r[i].createdAt == rows[i].createdAt
    ensures forall i :: 0 <= i < |rows| && rows[i].id != m.id ==> r[i] == rows[i]
    ensures forall i :: 0 <= i < |rows| && rows[i].id == m.id ==> r[i].data == Moved(rows[i].data, m)
  {
    seq(|rows|, i requires 0 <= i < |rows| =>
      if rows[i].id == m.id then Row(rows[i].id, rows[i].createdAt, Moved(rows[i].data, m)) else rows[i])
  }

  /** The table after the moves, applied in turn; a move whose id matches
      no item changes nothing. */
  function Reordered(rows: seq<Row<MenuItem>>, moves: seq<Move>): (r: seq<Row<MenuItem>>)
    ensures |r| == |rows|
    ensures forall i :: 0 <= i < |rows| ==> r[i].id == rows[i].id && r[i].createdAt == rows[i].createdAt
    decreases |moves|
  {
    if moves == [] then rows
    else ApplyMove(Reordered(rows, moves[..|moves| - 1]), moves[|moves| - 1])
  }

  /** PUT /api/menu-items. `items` is `None` when the body is not JSON or
      has no `items` array. Every update is attempted; the reply is 500 as
      soon as one id was missing, and the updates that succeeded stay. */
  method Reorder(t: Table<MenuItem>, session: Option<Session>, items: Option<seq<Move>>) returns (r: Reply<()>)
    requires t.Valid()
    modifies t
    ensures t.Valid()
    ensures !IsAdmin(session) ==> r == Fail(UNAUTHORIZED, "unauthorized") && t.rows == old(t.rows)
    ensures IsAdmin(session) && items.None? ==> r == Fail(SERVER_ERROR, "update failed") && t.rows == old(t.rows)
    ensures IsAdmin(session) && items.Some? ==> t.rows == Reordered(old(t.rows), items.value)
    ensures IsAdmin(session) && items.Some? ==>
      (r.Ok? <==> forall i :: 0 <= i < |items.value| ==> Known(old(t.rows), items.value[i]))
    ensures r.Ok? ==> r.status == OK
    ensures IsAdmin(session) && r.Fail? ==> r.status == SERVER_ERROR
  {
    if !IsAdmin(session) {
      return Fail(UNAUTHORIZED, "unauthorized");
    }
    if items.None? {
      return Fail(SERVER_ERROR, "update failed");
    }
    var failed := UpdateEach(t, items.value);
    if failed {
      return Fail(SERVER_ERROR, "update failed");
    }
    return Ok(OK, ());
  }

  /** The `items.map(update)` of PUT, one update after another; `failed`
      tells whether some update found no item. */
  method UpdateEach(t: Table<MenuItem>, moves: seq<Move>) returns (failed: bool)
    requires t.Valid()
    modifies t
    ensures t.Valid()
    ensures t.rows == Reordered(old(t.rows), moves)
    ensures failed <==> exists j :: 0 <= j < |moves| && !Known(old(t.rows), moves[j])
  {
    failed := false;
    var i := 0;
    while i < |moves|
      invariant i <= |moves|
      invariant t.Valid()
      invariant t.rows == Reordered(old(t.rows), moves[..i])
      invariant failed <==> exists j :: 0 <= j < i && !Known(old(t.rows), moves[j])
    {
      assert moves[..i + 1][..i] == moves[..i];
      SameIdsKnown(old(t.rows), t.rows, moves[i]);
      var ok := UpdateOne(t, moves[i]);
      failed := failed || !ok;
      i := i + 1;
    }
    assert moves[..|moves|] == moves;
  }

  /** One `prisma.menuItem.update({ where: { id }, data })`; `ok` is false
      when no item has the id, and then nothing changes. */
  method UpdateOne(t: Table<MenuItem>, m: Move) returns (ok: bool)
    requires t.Valid()
    modifies t
    ensures t.Valid()
    ensures t.rows == ApplyMove(old(t.rows), m)
    ensures ok <==> Known(old(t.rows), m)
  {
    var k := IndexOfId(t.rows, m.id);
    if k < |t.rows| {
      ReplaceIsApply(t.rows, k, m);
      t.Replace(k, Moved(t.rows[k].data, m));
      ok := true;
    } else {
      MissingIsNoop(t.rows, m);
      ok := false;
    }
  }

  /** Two tables with the same ids know the same moves. */
  lemma SameIdsKnown(a: seq<Row<MenuItem>>, b: seq<Row<MenuItem>>, m: Move)
    requires |a| == |b| && forall i :: 0 <= i < |a| ==> a[i].id == b[i].id
    ensures Known(a, m) <==> Known(b, m)
  {
    if Known(a, m) {
      var i :| 0 <= i < |a| && a[i].id == m.id;
      assert b[i].id == m.id;
    }
    if Known(b, m) {
      var i :| 0 <= i < |b| && b[i].id == m.id;
      assert a[i].id == m.id;
    }
  }

  /** With unique ids, updating the one row that has the move's id is
      applying the move. */
  lemma ReplaceIsApply(rows: seq<Row<MenuItem>>, k: nat, m: Move)
    requires forall i, j :: 0 <= i < j < |rows| ==> rows[i].id < rows[j].id
    requires k < |rows| && rows[k].id == m.id
    ensures rows[k := Row(rows[k].id, rows[k].createdAt, Moved(rows[k].data, m))] == ApplyMove(rows, m)
  {
    var a := rows[k := Row(rows[k].id, rows[k].createdAt, Moved(rows[k].data, m))];
    var b := ApplyMove(rows, m);
    forall i | 0 <= i < |rows|
      ensures a[i] == b[i]
    {
      if i != k {
        assert rows[i].id != m.id;
      }
    }
  }

  /** A move whose id matches no row leaves the table as it is. */
  lemma MissingIsNoop(rows: seq<Row<MenuItem>>, m: Move)
    requires forall i :: 0 <= i < |rows| ==> rows[i].id != m.id
    ensures ApplyMove(rows, m) == rows
  {
  }

  /** What a PUT whose ids are distinct leaves behind: each listed item
      has the moved order and parent and its other fields unchanged, and
      every item not listed is exactly as it was. */
  lemma {:induction false} ReorderedMeaning(rows: seq<Row<MenuItem>>, moves: seq<Move>)
    requires forall a, b :: 0 <= a < b < |moves| ==> moves[a].id != moves[b].id
    ensures forall i :: 0 <= i < |rows| && (forall k :: 0 <= k < |moves| ==> moves[k].id != rows[i].id) ==>
      Reordered(rows, moves)[i] == rows[i]
    ensures forall i, k :: 0 <= i < |rows| && 0 <= k < |moves| && moves[k].id == rows[i].id ==>
      Reordered(rows, moves)[i].data == Moved(rows[i].data, moves[k])
    decreases |moves|
  {
    if moves != [] {
      var init := moves[..|moves| - 1];
      var last := moves[|moves| - 1];
      ReorderedMeaning(rows, init);
      assert forall k :: 0 <= k < |init| ==> init[k] == moves[k];
      var before := Reordered(rows, init);
      var after := Reordered(rows, moves);
      forall i, k | 0 <= i < |rows| && 0 <= k < |moves| && moves[k].id == rows[i].id
        ensures after[i].data == Moved(rows[i].data, moves[k])
      {
        if k < |moves| - 1 {
          assert before[i].data == Moved(rows[i].data, moves[k]);
        } else {
          assert forall k' :: 0 <= k' < |init| ==> init[k'].id != rows[i].id;
        }
      }
    }
  }
}
