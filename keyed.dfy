/** Tables whose rows are identified by a unique text key (`where: { key }`):
    the key-indexed object a list is reduced to, and `upsert` by key. */
module Keyed {
  import opened Seqs
  import opened Store

  /** No two rows share a key (the column's unique index). */
  ghost predicate UniqueKeys<T>(rows: seq<Row<T>>, key: T -> string) {
    forall i, j :: 0 <= i < j < |rows| ==> key(rows[i].data) != key(rows[j].data)
  }

  /** `rows.reduce((acc, r) => { acc[r.key] = view(r); return acc }, {})`:
      each row in turn writes its entry, so a later row with the same key
      wins. */
  function Collect<T, V>(rows: seq<Row<T>>, key: T -> string, view: T -> V): map<string, V>
    decreases |rows|
  {
    if rows == [] then map[]
    else
      var last := rows[|rows| - 1];
      Collect(rows[..|rows| - 1], key, view)[key(last.data) := view(last.data)]
  }

  /** The key-indexed object has an entry for exactly the keys of the rows;
      with unique keys, each row's entry is that row's view. */
  lemma {:induction false} CollectLookup<T, V>(rows: seq<Row<T>>, key: T -> string, view: T -> V, k: string)
    ensures k in Collect(rows, key, view) <==> exists i :: 0 <= i < |rows| && key(rows[i].data) == k
    ensures UniqueKeys(rows, key) ==>
      forall i :: 0 <= i < |rows| && key(rows[i].data) == k ==> Collect(rows, key, view)[k] == view(rows[i].data)
    decreases |rows|
  {
    if rows != [] {
      var init := rows[..|rows| - 1];
      var last := rows[|rows| - 1];
      CollectLookup(init, key, view, k);
      assert forall i :: 0 <= i < |init| ==> init[i] == rows[i];
      if k in Collect(rows, key, view) && k != key(last.data) {
        var i :| 0 <= i < |init| && key(init[i].data) == k;
      }
    }
  }

  /** Position of the row with key `k`, or |rows| when there is none. */
  function FindKey<T>(rows: seq<Row<T>>, key: T -> string, k: string): (i: nat)
    ensures i <= |rows|
    ensures i < |rows| ==> key(rows[i].data) == k
    ensures i == |rows| ==> forall j :: 0 <= j < |rows| ==> key(rows[j].data) != k
  {
    if rows == [] then 0
    else if key(rows[0].data) == k then 0
    else 1 + FindKey(rows[1..], key, k)
  }

  /** `upsert({ where: { key: k }, update, create })`: the row with key `k`
      is rewritten by `update`, or `created` is inserted when there is none. */
  method Upsert<T>(t: Table<T>, key: T -> string, k: string, created: T, update: T -> T, now: nat)
    requires t.Valid() && UniqueKeys(t.rows, key)
    requires key(created) == k
    requires forall i :: 0 <= i < |t.rows| ==> key(update(t.rows[i].data)) == key(t.rows[i].data)
    modifies t
    ensures t.Valid() && UniqueKeys(t.rows, key)
    ensures var i := FindKey(old(t.rows), key, k);
      (i < |old(t.rows)| ==>
        t.rows == old(t.rows)[i := Row(old(t.rows)[i].id, old(t.rows)[i].createdAt, update(old(t.rows)[i].data))]) &&
      (i == |old(t.rows)| ==>
        (|t.rows| == |old(t.rows)| + 1 && t.rows[..|old(t.rows)|] == old(t.rows) &&
         t.rows[|old(t.rows)|].data == created && t.rows[|old(t.rows)|].createdAt == now))
  {
    var i := FindKey(t.rows, key, k);
    if i < |t.rows| {
      t.Replace(i, update(t.rows[i].data));
    } else {
      var _ := t.Insert(created, now);
    }
  }

  /** What an upsert does to the key-indexed object: the entry for `k`, and
      only it, becomes the view of the row now stored under `k`. */
  lemma UpsertCollect<T, V>(rows: seq<Row<T>>, rows': seq<Row<T>>, key: T -> string, view: T -> V, k: string, d: T)
    requires UniqueKeys(rows, key) && UniqueKeys(rows', key) && key(d) == k
    requires var i := FindKey(rows, key, k);
      (i < |rows| && rows' == rows[i := Row(rows[i].id, rows[i].createdAt, d)]) ||
      (i == |rows| && |rows'| == |rows| + 1 && rows'[..|rows|] == rows && rows'[|rows|].data == d)
    ensures Collect(rows', key, view) == Collect(rows, key, view)[k := view(d)]
  {
    var i := FindKey(rows, key, k);
    if i == |rows| {
      assert rows'[..|rows'| - 1] == rows;
    } else {
      var a := Collect(rows', key, view);
      var b := Collect(rows, key, view)[k := view(d)];
      forall k' ensures k' in a <==> k' in b
      {
        ReplaceSameKeys(rows, rows', key, view, i, d, k');
      }
      forall k' | k' in a
        ensures a[k'] == b[k']
      {
        ReplaceSameValue(rows, rows', key, view, i, d, k');
      }
    }
  }

  lemma ReplaceSameKeys<T, V>(rows: seq<Row<T>>, rows': seq<Row<T>>, key: T -> string, view: T -> V, i: nat, d: T, k': string)
    requires i < |rows| && rows' == rows[i := Row(rows[i].id, rows[i].createdAt, d)] && key(d) == key(rows[i].data)
    ensures k' in Collect(rows', key, view) <==> k' in Collect(rows, key, view)
    ensures key(d) in Collect(rows', key, view)
  {
    CollectLookup(rows', key, view, k');
    CollectLookup(rows, key, view, k');
    CollectLookup(rows', key, view, key(d));
    assert key(rows'[i].data) == key(d);
    if k' in Collect(rows, key, view) {
      var j :| 0 <= j < |rows| && key(rows[j].data) == k';
      assert key(rows'[j].data) == k';
    }
    if k' in Collect(rows', key, view) {
      var j :| 0 <= j < |rows'| && key(rows'[j].data) == k';
      assert key(rows[j].data) == k';
    }
  }

  lemma ReplaceSameValue<T, V>(rows: seq<Row<T>>, rows': seq<Row<T>>, key: T -> string, view: T -> V, i: nat, d: T, k': string)
    requires UniqueKeys(rows, key) && UniqueKeys(rows', key)
    requires i < |rows| && rows' == rows[i := Row(rows[i].id, rows[i].createdAt, d)] && key(d) == key(rows[i].data)
    requires k' in Collect(rows', key, view)
    ensures k' == key(d) ==> Collect(rows', key, view)[k'] == view(d)
    ensures k' != key(d) ==> k' in Collect(rows, key, view) && Collect(rows', key, view)[k'] == Collect(rows, key, view)[k']
  {
    CollectLookup(rows', key, view, k');
    CollectLookup(rows, key, view, k');
    var j :| 0 <= j < |rows'| && key(rows'[j].data) == k';
    if j != i {
      assert rows'[j] == rows[j];
    } else {
      assert rows'[j].data == d;
    }
  }

  /** Dropping rows keeps the keys unique. */
  lemma {:induction false} FilterUnique<T>(rows: seq<Row<T>>, key: T -> string, keep: Row<T> -> bool)
    requires UniqueKeys(rows, key)
    ensures UniqueKeys(Filter(rows, keep), key)
    decreases |rows|
  {
    if rows != [] {
      var rest := rows[1..];
      assert UniqueKeys(rest, key) by {
        assert forall i :: 0 <= i < |rest| ==> rest[i] == rows[i + 1];
      }
      FilterUnique(rest, key, keep);
      if keep(rows[0]) {
        HeadKeyFresh(rows, key, keep);
        ConsUnique(rows[0], Filter(rest, keep), key);
        assert Filter(rows, keep) == [rows[0]] + Filter(rest, keep);
      }
    }
  }

  lemma HeadKeyFresh<T>(rows: seq<Row<T>>, key: T -> string, keep: Row<T> -> bool)
    requires rows != [] && UniqueKeys(rows, key)
    ensures forall j :: 0 <= j < |Filter(rows[1..], keep)| ==> key(Filter(rows[1..], keep)[j].data) != key(rows[0].data)
  {
    var rest := rows[1..];
    var kept := Filter(rest, keep);
    forall j | 0 <= j < |kept|
      ensures key(kept[j].data) != key(rows[0].data)
    {
      FilterMember(rest, keep, kept[j]);
      var m :| 0 <= m < |rest| && rest[m] == kept[j];
      assert rest[m] == rows[m + 1];
    }
  }

  lemma ConsUnique<T>(x: Row<T>, kept: seq<Row<T>>, key: T -> string)
    requires UniqueKeys(kept, key)
    requires forall j :: 0 <= j < |kept| ==> key(kept[j].data) != key(x.data)
    ensures UniqueKeys([x] + kept, key)
  {
    var r := [x] + kept;
    forall a, b | 0 <= a < b < |r|
      ensures key(r[a].data) != key(r[b].data)
    {
      assert r[b] == kept[b - 1];
      if a > 0 {
        assert r[a] == kept[a - 1];
      }
    }
  }
}
