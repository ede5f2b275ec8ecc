/** `src/app/api/menus/route.ts`: the active menus with their item trees,
    and admin-only menu creation. */
module Menus {
  import opened Common
  import opened Seqs
  import opened Http
  import opened Store
  import opened Listing
  import opened MenuItems

  /** A row of the menu table; `location` is unique across menus. */
  datatype Menu = Menu(name: Option<string>, nameAr: Option<string>, location: string, isActive: bool)

  // ---------------------------------------------------------------------
  // GET

  /** The `where` object: active menus, at the given location if any. */
  predicate Selected(q: Params, m: Menu) {
    m.isActive && (!Truthy(Param(q, "location")) || m.location == Param(q, "location").value)
  }

  function SelectedBy(q: Params): Menu -> bool {
    m => Selected(q, m)
  }

  /** `items.where`: the menu's active top-level items. */
  predicate TopItem(menu: nat, it: MenuItem) {
    it.menuId == Some(menu) && it.isActive && it.parentId.None?
  }

  function TopItemBy(menu: nat): MenuItem -> bool {
    it => TopItem(menu, it)
  }

  /** `children.where`: the active items whose parent is `parent`. */
  predicate ActiveChild(parent: nat, it: MenuItem) {
    it.parentId == Some(parent) && it.isActive
  }

  function ActiveChildBy(parent: nat): MenuItem -> bool {
    it => ActiveChild(parent, it)
  }

  /** `orderBy: { displayOrder: 'asc' }`, for items and children alike. */
  function ItemOrder(r: Row<MenuItem>): Key {
    Key(r.data.displayOrder, 0, 0)
  }

  /** The active children of an item, in display order. */
  function Children(items: seq<Row<MenuItem>>, parent: nat): (r: seq<Row<MenuItem>>)
    ensures forall i :: 0 <= i < |r| ==> r[i] in items && ActiveChild(parent, r[i].data)
    ensures forall i :: 0 <= i < |items| && ActiveChild(parent, items[i].data) ==> items[i] in r
    ensures forall i, j :: 0 <= i < j < |r| ==> r[i].data.displayOrder <= r[j].data.displayOrder
  {
    FindMany(items, ActiveChildBy(parent), ItemOrder)
  }

  /** The active top-level items of a menu, in display order. */
  function TopItems(items: seq<Row<MenuItem>>, menu: nat): (r: seq<Row<MenuItem>>)
    ensures forall i :: 0 <= i < |r| ==> r[i] in items && TopItem(menu, r[i].data)
    ensures forall i :: 0 <= i < |items| && TopItem(menu, items[i].data) ==> items[i] in r
    ensures forall i, j :: 0 <= i < j < |r| ==> r[i].data.displayOrder <= r[j].data.displayOrder
  {
    FindMany(items, TopItemBy(menu), ItemOrder)
  }

  datatype ItemNode = ItemNode(row: Row<MenuItem>, children: seq<Row<MenuItem>>)
  datatype MenuNode = MenuNode(row: Row<Menu>, items: seq<ItemNode>)

  /** Each item as a node holding its active children. */
  function ItemNodes(items: seq<Row<MenuItem>>, tops: seq<Row<MenuItem>>): (r: seq<ItemNode>)
    ensures |r| == |tops|
    ensures forall i :: 0 <= i < |r| ==> r[i].row == tops[i] && r[i].children == Children(items, tops[i].id)
    ensures forall x :: x in tops ==> exists j :: 0 <= j < |r| && r[j].row == x
  {
    seq(|tops|, i requires 0 <= i < |tops| => ItemNode(tops[i], Children(items, tops[i].id)))
  }

  /** One listed menu: its active top-level items in display order, each
      with its active children in display order. */
  function NodeOf(items: seq<Row<MenuItem>>, m: Row<Menu>): (r: MenuNode)
    ensures r.row == m
    ensures forall i :: 0 <= i < |r.items| ==>
      r.items[i].row in items && TopItem(m.id, r.items[i].row.data) &&
      r.items[i].children == Children(items, r.items[i].row.id)
    ensures forall i :: 0 <= i < |items| && TopItem(m.id, items[i].data) ==>
      exists j :: 0 <= j < |r.items| && r.items[j].row == items[i]
    ensures forall i, j :: 0 <= i < j < |r.items| ==> r.items[i].row.data.displayOrder <= r.items[j].row.data.displayOrder
  {
    MenuNode(m, ItemNodes(items, TopItems(items, m.id)))
  }

  function MenuNodes(items: seq<Row<MenuItem>>, ms: seq<Row<Menu>>): (r: seq<MenuNode>)
    ensures |r| == |ms|
    ensures forall i :: 0 <= i < |r| ==> r[i] == NodeOf(items, ms[i])
  {
    seq(|ms|, i requires 0 <= i < |ms| => NodeOf(items, ms[i]))
  }

  /** The reply body: one menu object, or a list of them. */
  datatype Menus = One(menu: MenuNode) | Many(menus: seq<MenuNode>)

  /** GET /api/menus. With a location, the first active menu there as a
      single object; without one, or when none matches, a list. */
  function List(menus: seq<Row<Menu>>, items: seq<Row<MenuItem>>, q: Params): (r: Menus)
    ensures var found := Filter(menus, OnData(SelectedBy(q)));
      (r.One? <==> Truthy(Param(q, "location")) && found != []) &&
      (r.One? ==> r.menu == NodeOf(items, found[0])) &&
      (r.Many? ==> r.menus == MenuNodes(items, found))
    ensures r.One? ==> (r.menu.row in menus && r.menu.row.data.isActive &&
      r.menu.row.data.location == Param(q, "location").value)
    ensures r.Many? && Truthy(Param(q, "location")) ==> r.menus == []
    ensures r.Many? ==> forall i :: 0 <= i < |r.menus| ==> r.menus[i].row in menus && Selected(q, r.menus[i].row.data)
    ensures r.Many? ==> forall i :: 0 <= i < |menus| && Selected(q, menus[i].data) ==>
      exists j :: 0 <= j < |r.menus| && r.menus[j].row == menus[i]
  {
    var found := Filter(menus, OnData(SelectedBy(q)));
    FilterFacts(menus, q);
    if Truthy(Param(q, "location")) && found != [] then One(NodeOf(items, found[0]))
    else Many(MenuNodes(items, found))
  }

  lemma FilterFacts(menus: seq<Row<Menu>>, q: Params)
    ensures var found := Filter(menus, OnData(SelectedBy(q)));
      (forall i :: 0 <= i < |found| ==> found[i] in menus && Selected(q, found[i].data)) &&
      (forall i :: 0 <= i < |menus| && Selected(q, menus[i].data) ==> exists j :: 0 <= j < |found| && found[j] == menus[i]) &&
      (found == [] ==> forall i :: 0 <= i < |menus| ==> !Selected(q, menus[i].data))
  {
    var found := Filter(menus, OnData(SelectedBy(q)));
    forall i | 0 <= i < |found|
      ensures found[i] in menus && Selected(q, found[i].data)
    {
      FilterMember(menus, OnData(SelectedBy(q)), found[i]);
    }
    forall i | 0 <= i < |menus| && Selected(q, menus[i].data)
      ensures exists j :: 0 <= j < |found| && found[j] == menus[i]
    {
      FilterMember(menus, OnData(SelectedBy(q)), menus[i]);
    }
  }

  // ---------------------------------------------------------------------
  // POST

  /** The request body's members; an absent member is `undefined`. */
  datatype MenuPayload = MenuPayload(name: Option<string>, nameAr: Option<string>,
                                     location: Option<string>, isActive: Option<bool>)

  predicate LocationTaken(rows: seq<Row<Menu>>, location: string) {
    exists i :: 0 <= i < |rows| && rows[i].data.location == location
  }

  /** `isActive ?? true`; the rest is copied. */
  function NewMenu(p: MenuPayload, location: string): (m: Menu)
    ensures m.location == location && m.name == p.name && m.nameAr == p.nameAr
    ensures m.isActive == (p.isActive != Some(false))
  {
    Menu(p.name, p.nameAr, location, p.isActive.GetOr(true))
  }

  /** POST /api/menus. A missing body or location (the unique lookup
      refuses it) is a 500. */
  method Create(t: Table<Menu>, session: Option<Session>, body: Option<MenuPayload>, now: nat)
    returns (r: Reply<Row<Menu>>)
    requires t.Valid()
    modifies t
    ensures t.Valid()
    ensures !IsAdmin(session) ==> r == Fail(UNAUTHORIZED, "unauthorized") && t.rows == old(t.rows)
    ensures IsAdmin(session) && (body.None? || body.value.location.None?) ==>
      r == Fail(SERVER_ERROR, "create failed") && t.rows == old(t.rows)
    ensures IsAdmin(session) && body.Some? && body.value.location.Some? && LocationTaken(old(t.rows), body.value.location.value) ==>
      r == Fail(BAD_REQUEST, "location exists") && t.rows == old(t.rows)
    ensures IsAdmin(session) && body.Some? && body.value.location.Some? && !LocationTaken(old(t.rows), body.value.location.value) ==>
      r.Ok? && r.status == CREATED && r.data.data == NewMenu(body.value, body.value.location.value) &&
      t.rows == old(t.rows) + [r.data]
  {
    if !IsAdmin(session) {
      return Fail(UNAUTHORIZED, "unauthorized");
    }
    if body.None? || body.value.location.None? {
      return Fail(SERVER_ERROR, "create failed");
    }
    var location := body.value.location.value;
    if LocationTaken(t.rows, location) {
      return Fail(BAD_REQUEST, "location exists");
    }
    var m := NewMenu(body.value, location);
    var id := t.Insert(m, now);
    r := Ok(CREATED, Row(id, now, m));
  }

  /** Creating menus only through POST keeps locations unique. */
  lemma {:induction false} CreateKeepsLocationsUnique(rows: seq<Row<Menu>>, row: Row<Menu>)
    requires forall i, j :: 0 <= i < j < |rows| ==> rows[i].data.location != rows[j].data.location
    requires !LocationTaken(rows, row.data.location)
    ensures var rows' := rows + [row];
      forall i, j :: 0 <= i < j < |rows'| ==> rows'[i].data.location != rows'[j].data.location
  {
    var rows' := rows + [row];
    forall i, j | 0 <= i < j < |rows'|
      ensures rows'[i].data.location != rows'[j].data.location
    {
      if j == |rows| {
        assert rows'[i] == rows[i];
      }
    }
  }
}
