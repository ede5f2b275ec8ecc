/** The in-memory stand-in for a database table: rows with an
    auto-increment id and a creation time, kept in insertion order. */
module Store {

  datatype Row<T> = Row(id: nat, createdAt: nat, data: T)

  /** The ids of a list of rows, in order. */
  function Ids<T>(rows: seq<Row<T>>): (r: seq<nat>)
    ensures |r| == |rows|
    ensures forall i :: 0 <= i < |rows| ==> r[i] == rows[i].id
  {
    if rows == [] then [] else [rows[0].id] + Ids(rows[1..])
  }

  /** Position of the row with id `id`, or |rows| when there is none. */
  function IndexOfId<T>(rows: seq<Row<T>>, id: nat): (i: nat)
    ensures i <= |rows|
    ensures i < |rows| ==> rows[i].id == id
    ensures i == |rows| ==> forall j :: 0 <= j < |rows| ==> rows[j].id != id
  {
    if rows == [] then 0
    else if rows[0].id == id then 0
    else 1 + IndexOfId(rows[1..], id)
  }

  class Table<T> {
    var rows: seq<Row<T>>
    var nextId: nat

    /** Ids are unique (increasing in table order) and below `nextId`. */
    ghost predicate Valid()
      reads this
    {
      (forall i :: 0 <= i < |rows| ==> rows[i].id < nextId) &&
      (forall i, j :: 0 <= i < j < |rows| ==> rows[i].id < rows[j].id)
    }

    constructor ()
      ensures Valid() && rows == []
    {
      rows := [];
      nextId := 1;
    }

    /** `create`: appends one row with a fresh id. */
    method Insert(data: T, now: nat) returns (id: nat)
      requires Valid()
      modifies this
      ensures Valid()
      ensures forall i :: 0 <= i < |old(rows)| ==> old(rows)[i].id != id
      ensures rows == old(rows) + [Row(id, now, data)]
    {
      id := nextId;
      rows := rows + [Row(id, now, data)];
      nextId := nextId + 1;
    }

    /** `update` of the row at position `i`: only its data changes. */
    method Replace(i: nat, data: T)
      requires Valid() && i < |rows|
      modifies this
      ensures Valid() && nextId == old(nextId)
      ensures rows == old(rows)[i := Row(old(rows)[i].id, old(rows)[i].createdAt, data)]
    {
      rows := rows[i := Row(rows[i].id, rows[i].createdAt, data)];
    }
  }
}
