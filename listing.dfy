/** `findMany({ where, orderBy })` and `count({ where })` over a table: the
    rows whose data satisfy the `where` condition, in `orderBy` order. */
module Listing {
  import opened Seqs
  import opened Store
  import opened Paging

  /** The `where` condition lifted from a record to its row. */
  function OnData<T>(keep: T -> bool): Row<T> -> bool {
    (x: Row<T>) => keep(x.data)
  }

  /** `findMany({ where: keep, orderBy: key })` */
  function FindMany<T>(rows: seq<Row<T>>, keep: T -> bool, key: Row<T> -> Key): (r: seq<Row<T>>)
    ensures SortedBy(r, key)
    ensures forall i :: 0 <= i < |r| ==> r[i] in rows && keep(r[i].data)
    ensures forall i :: 0 <= i < |rows| && keep(rows[i].data) ==> rows[i] in r
    ensures multiset(r) == multiset(Filter(rows, OnData(keep)))
    ensures |r| == CountWhere(rows, keep)
  {
    var kept := Filter(rows, OnData(keep));
    var r := SortByKey(kept, key);
    forall i | 0 <= i < |r|
      ensures r[i] in rows && keep(r[i].data)
    {
      SortedMember(kept, key, r[i]);
      FilterMember(rows, OnData(keep), r[i]);
    }
    forall i | 0 <= i < |rows| && keep(rows[i].data)
      ensures rows[i] in r
    {
      SortedMember(kept, key, rows[i]);
      FilterMember(rows, OnData(keep), rows[i]);
    }
    r
  }

  /** `count({ where: keep })` */
  function CountWhere<T>(rows: seq<Row<T>>, keep: T -> bool): nat {
    |Filter(rows, OnData(keep))|
  }

  /** Counting the rows a stricter condition keeps gives no more than
      counting those a weaker one keeps. */
  lemma {:induction false} CountMonotone<T>(rows: seq<Row<T>>, strict: T -> bool, loose: T -> bool)
    requires forall x :: strict(x) ==> loose(x)
    ensures CountWhere(rows, strict) <= CountWhere(rows, loose)
  {
    if rows != [] {
      CountMonotone(rows[1..], strict, loose);
      var x := rows[0];
      var a := Filter(rows[1..], OnData(strict));
      var b := Filter(rows[1..], OnData(loose));
      assert OnData(strict)(x) == strict(x.data) && OnData(loose)(x) == loose(x.data);
      assert Filter(rows, OnData(strict)) == if strict(x.data) then [x] + a else a;
      assert Filter(rows, OnData(loose)) == if loose(x.data) then [x] + b else b;
    }
  }

  /** `take` after `orderBy: { createdAt: 'desc' }`: a prefix of a newest
      first listing holds every row meeting the condition that is newer
      than any row it holds. */
  lemma TakeNewest<T>(rows: seq<Row<T>>, keep: T -> bool, all: seq<Row<T>>, r: seq<Row<T>>)
    requires forall i :: 0 <= i < |rows| && keep(rows[i].data) ==> rows[i] in all
    requires forall i, j :: 0 <= i < j < |all| ==> all[i].createdAt >= all[j].createdAt
    requires |r| <= |all| && r == all[..|r|]
    ensures forall k, i :: 0 <= k < |rows| && keep(rows[k].data) && 0 <= i < |r| && rows[k].createdAt > r[i].createdAt ==> rows[k] in r
  {
    forall k, i | 0 <= k < |rows| && keep(rows[k].data) && 0 <= i < |r| && rows[k].createdAt > r[i].createdAt
      ensures rows[k] in r
    {
      var p :| 0 <= p < |all| && all[p] == rows[k];
      assert p < |r|;
      assert r[p] == rows[k];
    }
  }

  /** A page of a listing is ordered, no longer than the page size, and
      holds only rows of the table that meet the condition. */
  lemma ListedPage<T>(rows: seq<Row<T>>, keep: T -> bool, key: Row<T> -> Key, page: nat, limit: nat)
    requires page >= 1
    ensures var p := Page(FindMany(rows, keep, key), page, limit);
      |p| <= limit && SortedBy(p, key) &&
      forall i :: 0 <= i < |p| ==> p[i] in rows && keep(p[i].data)
  {
    PageOfListing(rows, keep, key, FindMany(rows, keep, key), page, limit);
  }

  lemma PageOfListing<T>(rows: seq<Row<T>>, keep: T -> bool, key: Row<T> -> Key, m: seq<Row<T>>, page: nat, limit: nat)
    requires page >= 1 && SortedBy(m, key)
    requires forall i :: 0 <= i < |m| ==> m[i] in rows && keep(m[i].data)
    ensures var p := Page(m, page, limit);
      |p| <= limit && SortedBy(p, key) &&
      forall i :: 0 <= i < |p| ==> p[i] in rows && keep(p[i].data)
  {
    var s := PageStart(|m|, page, limit);
    var e := PageEnd(|m|, page, limit);
    var p := Page(m, page, limit);
    assert p == m[s..e];
    SliceOfSorted(m, s, e, key);
    forall i | 0 <= i < |p|
      ensures p[i] in rows && keep(p[i].data)
    {
      assert p[i] == m[s + i];
    }
  }
}
