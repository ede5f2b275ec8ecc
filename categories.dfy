/** `src/app/api/categories/route.ts`: the category list, optionally as
    root categories with their children, and admin-only creation. */
module Categories {
  import opened Common
  import opened Seqs
  import opened Http
  import opened Store
  import opened Listing

  /** A row of the category table; `kind` is the `type` column and
      `parentId` the id of the parent category. */
  datatype Category = Category(
    name: Option<string>, nameAr: Option<string>, slug: string, description: Option<string>,
    descriptionAr: Option<string>, kind: Option<string>, parentId: Option<nat>,
    icon: Option<string>, color: Option<string>, displayOrder: int, isActive: bool)

  // ---------------------------------------------------------------------
  // GET

  /** `activeOnly = active !== 'false'` */
  predicate ActiveOnly(q: Params) {
    !ParamIs(q, "active", "false")
  }

  predicate WithChildren(q: Params) {
    ParamIs(q, "children", "true")
  }

  /** The `where` object: active unless `active=false`, the `type` when
      given, and roots only (`parentId: null`) when `children=true`. */
  predicate Selected(q: Params, c: Category) {
    (!ActiveOnly(q) || c.isActive) &&
    (!Truthy(Param(q, "type")) || c.kind == Param(q, "type")) &&
    (!WithChildren(q) || c.parentId.None?)
  }

  function SelectedBy(q: Params): Category -> bool {
    c => Selected(q, c)
  }

  /** The `include.children.where`: the children of `parent`, active ones
      only when the list is active-only. The `type` filter does not apply. */
  predicate ChildOf(q: Params, parent: nat, c: Category) {
    c.parentId == Some(parent) && (!ActiveOnly(q) || c.isActive)
  }

  function ChildOfBy(q: Params, parent: nat): Category -> bool {
    c => ChildOf(q, parent, c)
  }

  /** `orderBy: { displayOrder: 'asc' }` */
  function Order(r: Row<Category>): Key {
    Key(r.data.displayOrder, 0, 0)
  }

  /** A listed category; `children` is present only when `children=true`. */
  datatype CategoryNode = CategoryNode(row: Row<Category>, children: Option<seq<Row<Category>>>)

  function Children(rows: seq<Row<Category>>, q: Params, parent: nat): (r: seq<Row<Category>>)
    ensures forall i :: 0 <= i < |r| ==> r[i] in rows && ChildOf(q, parent, r[i].data)
    ensures forall i :: 0 <= i < |rows| && ChildOf(q, parent, rows[i].data) ==> rows[i] in r
    ensures forall i, j :: 0 <= i < j < |r| ==> r[i].data.displayOrder <= r[j].data.displayOrder
  {
    FindMany(rows, ChildOfBy(q, parent), Order)
  }

  /** GET /api/categories */
  function List(rows: seq<Row<Category>>, q: Params): (r: seq<CategoryNode>)
    ensures |r| == CountWhere(rows, SelectedBy(q))
    ensures forall i :: 0 <= i < |r| ==> r[i].row in rows && Selected(q, r[i].row.data)
    ensures forall i :: 0 <= i < |rows| && Selected(q, rows[i].data) ==>
      exists j :: 0 <= j < |r| && r[j].row == rows[i]
    ensures forall i, j :: 0 <= i < j < |r| ==> r[i].row.data.displayOrder <= r[j].row.data.displayOrder
    ensures forall i :: 0 <= i < |r| ==> (r[i].children.Some? <==> WithChildren(q))
    ensures WithChildren(q) ==> forall i :: 0 <= i < |r| ==> r[i].row.data.parentId.None?
    ensures forall i :: 0 <= i < |r| && r[i].children.Some? ==> r[i].children.value == Children(rows, q, r[i].row.id)
  {
    var found := FindMany(rows, SelectedBy(q), Order);
    FoundCategories(rows, q, found);
    Nodes(rows, q, found)
  }

  /** The categories the list query finds, stated without the closures. */
  lemma FoundCategories(rows: seq<Row<Category>>, q: Params, found: seq<Row<Category>>)
    requires found == FindMany(rows, SelectedBy(q), Order)
    ensures |found| == CountWhere(rows, SelectedBy(q))
    ensures forall i :: 0 <= i < |found| ==> found[i] in rows && Selected(q, found[i].data)
    ensures forall i :: 0 <= i < |rows| && Selected(q, rows[i].data) ==> rows[i] in found
    ensures forall i, j :: 0 <= i < j < |found| ==> found[i].data.displayOrder <= found[j].data.displayOrder
  {
    forall i, j | 0 <= i < j < |found|
      ensures found[i].data.displayOrder <= found[j].data.displayOrder
    {
      assert KeyLe(Order(found[i]), Order(found[j]));
    }
  }

  /** Each found category as a node, with its children when asked for. */
  function Nodes(rows: seq<Row<Category>>, q: Params, found: seq<Row<Category>>): (r: seq<CategoryNode>)
    ensures |r| == |found|
    ensures forall i :: 0 <= i < |r| ==> r[i].row == found[i]
    ensures forall i :: 0 <= i < |r| ==> (r[i].children.Some? <==> WithChildren(q))
    ensures forall i :: 0 <= i < |r| && r[i].children.Some? ==> r[i].children.value == Children(rows, q, found[i].id)
    ensures forall x :: x in found ==> exists j :: 0 <= j < |r| && r[j].row == x
  {
    seq(|found|, i requires 0 <= i < |found| =>
      CategoryNode(found[i], if WithChildren(q) then Some(Children(rows, q, found[i].id)) else None))
  }

  // ---------------------------------------------------------------------
  // POST

  /** The request body's members; an absent member is `undefined`. */
  datatype CategoryPayload = CategoryPayload(
    name: Option<string>, nameAr: Option<string>, slug: Option<string>, description: Option<string>,
    descriptionAr: Option<string>, kind: Option<string>, parentId: Option<nat>,
    icon: Option<string>, color: Option<string>, displayOrder: Option<int>, isActive: Option<bool>)

  /** `displayOrder || 0` and `isActive ?? true`; the rest is copied. */
  function NewCategory(p: CategoryPayload, slug: string): (c: Category)
    ensures c.slug == slug && c.name == p.name && c.kind == p.kind && c.parentId == p.parentId
    ensures c.displayOrder == (if p.displayOrder.Some? then p.displayOrder.value else 0)
    ensures c.isActive == (p.isActive != Some(false))
  {
    Category(p.name, p.nameAr, slug, p.description, p.descriptionAr, p.kind, p.parentId,
             p.icon, p.color, OrZero(p.displayOrder), p.isActive.GetOr(true))
  }

  predicate SlugTaken(rows: seq<Row<Category>>, slug: string) {
    exists i :: 0 <= i < |rows| && rows[i].data.slug == slug
  }

  /** POST /api/categories. A missing body or a missing slug (the unique
      lookup refuses it) is a 500. */
  method Create(t: Table<Category>, session: Option<Session>, body: Option<CategoryPayload>, now: nat)
    returns (r: Reply<Row<Category>>)
    requires t.Valid()
    modifies t
    ensures t.Valid()
    ensures !IsAdmin(session) ==> r == Fail(UNAUTHORIZED, "unauthorized") && t.rows == old(t.rows)
    ensures IsAdmin(session) && (body.None? || body.value.slug.None?) ==>
      r == Fail(SERVER_ERROR, "create failed") && t.rows == old(t.rows)
    ensures IsAdmin(session) && body.Some? && body.value.slug.Some? && SlugTaken(old(t.rows), body.value.slug.value) ==>
      r == Fail(BAD_REQUEST, "slug exists") && t.rows == old(t.rows)
    ensures IsAdmin(session) && body.Some? && body.value.slug.Some? && !SlugTaken(old(t.rows), body.value.slug.value) ==>
      r.Ok? && r.status == CREATED && r.data.data == NewCategory(body.value, body.value.slug.value) &&
      t.rows == old(t.rows) + [r.data]
  {
    if !IsAdmin(session) {
      return Fail(UNAUTHORIZED, "unauthorized");
    }
    if body.None? || body.value.slug.None? {
      return Fail(SERVER_ERROR, "create failed");
    }
    var slug := body.value.slug.value;
    if SlugTaken(t.rows, slug) {
      return Fail(BAD_REQUEST, "slug exists");
    }
    var c := NewCategory(body.value, slug);
    var id := t.Insert(c, now);
    r := Ok(CREATED, Row(id, now, c));
  }
}
