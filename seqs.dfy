/** What the ORM and the array methods do to lists: `where` filtering,
    counting, multi-key `orderBy`, `take`, and `Array.from(new Set(...))`. */
module Seqs {

  /** `xs.filter(p)`: the elements satisfying `p`, in their original order. */
  function Filter<T>(xs: seq<T>, p: T -> bool): (r: seq<T>)
    ensures |r| <= |xs|
    ensures forall i :: 0 <= i < |r| ==> p(r[i])
    ensures multiset(r) <= multiset(xs)
  {
    if xs == [] then []
    else
      assert xs == [xs[0]] + xs[1..];
      if p(xs[0]) then [xs[0]] + Filter(xs[1..], p) else Filter(xs[1..], p)
  }

  /** An element is kept exactly when it is in the list and satisfies `p`. */
  lemma {:induction false} FilterMember<T>(xs: seq<T>, p: T -> bool, x: T)
    ensures x in Filter(xs, p) <==> x in xs && p(x)
  {
    if xs != [] {
      FilterMember(xs[1..], p, x);
      assert x in xs <==> x == xs[0] || x in xs[1..];
    }
  }

  /** Filtering with a condition every element meets keeps the whole list. */
  lemma {:induction false} FilterAll<T>(xs: seq<T>, p: T -> bool)
    requires forall i :: 0 <= i < |xs| ==> p(xs[i])
    ensures Filter(xs, p) == xs
  {
    if xs != [] {
      FilterAll(xs[1..], p);
    }
  }

  lemma FilterMembers<T>(xs: seq<T>, p: T -> bool)
    ensures forall x :: x in Filter(xs, p) <==> x in xs && p(x)
  {
    forall x {
      FilterMember(xs, p, x);
    }
  }

  /** Filtering twice is filtering once by the conjunction. */
  lemma {:induction false} FilterFilter<T>(xs: seq<T>, p: T -> bool, q: T -> bool)
    ensures Filter(Filter(xs, p), q) == Filter(xs, x => p(x) && q(x))
  {
    if xs != [] {
      FilterFilter(xs[1..], p, q);
    }
  }

  /** Filtering a concatenation filters each part in turn. */
  lemma {:induction false} FilterAppend<T>(xs: seq<T>, ys: seq<T>, p: T -> bool)
    ensures Filter(xs + ys, p) == Filter(xs, p) + Filter(ys, p)
  {
    if xs != [] {
      FilterAppend(xs[1..], ys, p);
      assert (xs + ys)[0] == xs[0];
      assert (xs + ys)[1..] == xs[1..] + ys;
    } else {
      assert xs + ys == ys;
    }
  }

  /** Filtering one more element of a prefix. */
  lemma FilterStep<T>(xs: seq<T>, i: nat, p: T -> bool)
    requires i < |xs|
    ensures Filter(xs[..i + 1], p) == Filter(xs[..i], p) + (if p(xs[i]) then [xs[i]] else [])
  {
    assert xs[..i + 1] == xs[..i] + [xs[i]];
    FilterAppend(xs[..i], [xs[i]], p);
    assert Filter([xs[i]], p) == if p(xs[i]) then [xs[i]] else [];
  }

  /** `r` can be obtained from `xs` by deleting elements: what is left is
      in its original order. */
  predicate IsSubsequence<T(==)>(r: seq<T>, xs: seq<T>)
    decreases |xs|
  {
    if r == [] then true
    else if xs == [] then false
    else if r[0] == xs[0] then IsSubsequence(r[1..], xs[1..])
    else IsSubsequence(r, xs[1..])
  }

  /** Filtering keeps the relative order of what it keeps. */
  lemma {:induction false} FilterKeepsOrder<T>(xs: seq<T>, p: T -> bool)
    ensures IsSubsequence(Filter(xs, p), xs)
  {
    if xs != [] {
      FilterKeepsOrder(xs[1..], p);
    }
  }

  /** `xs.filter(p).length` */
  function Count<T>(xs: seq<T>, p: T -> bool): nat {
    |Filter(xs, p)|
  }

  /** A count reaches the whole list exactly when every element satisfies
      `p`, and is zero exactly when none does. */
  lemma CountExtremes<T>(xs: seq<T>, p: T -> bool)
    ensures Count(xs, p) <= |xs|
    ensures Count(xs, p) == |xs| <==> forall i :: 0 <= i < |xs| ==> p(xs[i])
    ensures Count(xs, p) == 0 <==> forall i :: 0 <= i < |xs| ==> !p(xs[i])
  {
    CountAll(xs, p);
    CountNone(xs, p);
  }

  lemma {:induction false} CountAll<T>(xs: seq<T>, p: T -> bool)
    ensures Count(xs, p) <= |xs|
    ensures Count(xs, p) == |xs| <==> forall i :: 0 <= i < |xs| ==> p(xs[i])
  {
    if xs != [] {
      CountAll(xs[1..], p);
      assert forall i :: 1 <= i < |xs| ==> xs[i] == xs[1..][i - 1];
    }
  }

  lemma {:induction false} CountNone<T>(xs: seq<T>, p: T -> bool)
    ensures Count(xs, p) == 0 <==> forall i :: 0 <= i < |xs| ==> !p(xs[i])
  {
    if xs != [] {
      CountNone(xs[1..], p);
      assert forall i :: 1 <= i < |xs| ==> xs[i] == xs[1..][i - 1];
    }
  }

  /** `xs.slice(0, n)` / `take: n` */
  function Take<T>(xs: seq<T>, n: nat): (r: seq<T>)
    ensures |r| <= n && |r| <= |xs|
    ensures |xs| <= n ==> r == xs
    ensures r == xs[..|r|]
  {
    if |xs| <= n then xs else xs[..n]
  }

  // ---------------------------------------------------------------------
  // Multi-key ordering

  /** A sort key of up to three integer components, compared
      lexicographically; a descending component is stored negated. */
  datatype Key = Key(k1: int, k2: int, k3: int)

  predicate KeyLe(a: Key, b: Key) {
    a.k1 < b.k1 || (a.k1 == b.k1 && (a.k2 < b.k2 || (a.k2 == b.k2 && a.k3 <= b.k3)))
  }

  /** The list is in non-decreasing key order. */
  predicate SortedBy<T>(xs: seq<T>, key: T -> Key) {
    forall i, j :: 0 <= i < j < |xs| ==> KeyLe(key(xs[i]), key(xs[j]))
  }

  /** A contiguous slice of an ordered list is ordered and holds only
      elements of the list. */
  lemma SliceOfSorted<T>(xs: seq<T>, lo: nat, hi: nat, key: T -> Key)
    requires lo <= hi <= |xs| && SortedBy(xs, key)
    ensures SortedBy(xs[lo..hi], key)
    ensures forall i :: 0 <= i < hi - lo ==> xs[lo..hi][i] in xs
  {
    forall i | 0 <= i < hi - lo
      ensures xs[lo..hi][i] in xs
    {
      assert xs[lo..hi][i] == xs[lo + i];
    }
  }

  /** Puts `x` before the first element with a strictly greater key. */
  function InsertByKey<T>(x: T, xs: seq<T>, key: T -> Key): (r: seq<T>)
    requires SortedBy(xs, key)
    ensures |r| == |xs| + 1
    ensures multiset(r) == multiset{x} + multiset(xs)
    ensures SortedBy(r, key)
  {
    if xs == [] then [x]
    else if KeyLe(key(x), key(xs[0])) then
      SortedBefore(x, xs, key);
      [x] + xs
    else
      SortedTail(xs, key);
      var rest := InsertByKey(x, xs[1..], key);
      HeadBelowInsert(x, xs, key, rest);
      SortedCons(xs[0], rest, key);
      assert xs == [xs[0]] + xs[1..];
      [xs[0]] + rest
  }

  lemma SortedTail<T>(xs: seq<T>, key: T -> Key)
    requires xs != [] && SortedBy(xs, key)
    ensures SortedBy(xs[1..], key)
  {
    forall i, j | 0 <= i < j < |xs[1..]|
      ensures KeyLe(key(xs[1..][i]), key(xs[1..][j]))
    {
      assert xs[1..][i] == xs[i + 1] && xs[1..][j] == xs[j + 1];
    }
  }

  /** An element whose key is at most the head's goes first. */
  lemma SortedBefore<T>(x: T, xs: seq<T>, key: T -> Key)
    requires xs != [] && SortedBy(xs, key) && KeyLe(key(x), key(xs[0]))
    ensures SortedBy([x] + xs, key)
  {
    forall i | 0 <= i < |xs|
      ensures KeyLe(key(x), key(xs[i]))
    {
      if i > 0 {
        assert KeyLe(key(xs[0]), key(xs[i]));
      }
    }
    SortedCons(x, xs, key);
  }

  /** When `x` goes after the head, the head's key is at most every key of
      the insertion into the tail. */
  lemma HeadBelowInsert<T>(x: T, xs: seq<T>, key: T -> Key, rest: seq<T>)
    requires xs != [] && SortedBy(xs, key) && !KeyLe(key(x), key(xs[0]))
    requires multiset(rest) == multiset{x} + multiset(xs[1..])
    ensures forall i :: 0 <= i < |rest| ==> KeyLe(key(xs[0]), key(rest[i]))
  {
    forall i | 0 <= i < |rest|
      ensures KeyLe(key(xs[0]), key(rest[i]))
    {
      assert rest[i] in multiset(rest);
      if rest[i] != x {
        assert rest[i] in multiset(xs[1..]);
        var j :| 0 <= j < |xs[1..]| && xs[1..][j] == rest[i];
        assert xs[j + 1] == rest[i];
      }
    }
  }

  /** An ordered list stays ordered under a head whose key is at most all
      of its keys. */
  lemma SortedCons<T>(h: T, rest: seq<T>, key: T -> Key)
    requires SortedBy(rest, key)
    requires forall i :: 0 <= i < |rest| ==> KeyLe(key(h), key(rest[i]))
    ensures SortedBy([h] + rest, key)
  {
    forall i, j | 0 <= i < j < |[h] + rest|
      ensures KeyLe(key(([h] + rest)[i]), key(([h] + rest)[j]))
    {
      if i > 0 {
        assert ([h] + rest)[i] == rest[i - 1];
      }
      assert ([h] + rest)[j] == rest[j - 1];
    }
  }

  /** The ORM's `orderBy`: a stable insertion sort on `key`. Rows with equal
      keys keep their table order, where the database itself promises none. */
  function SortByKey<T>(xs: seq<T>, key: T -> Key): (r: seq<T>)
    ensures SortedBy(r, key)
    ensures multiset(r) == multiset(xs)
    ensures |r| == |xs|
  {
    if xs == [] then []
    else
      assert xs == [xs[0]] + xs[1..];
      InsertByKey(xs[0], SortByKey(xs[1..], key), key)
  }

  lemma SortedMember<T>(xs: seq<T>, key: T -> Key, x: T)
    ensures x in SortByKey(xs, key) <==> x in xs
  {
    var r := SortByKey(xs, key);
    assert x in r <==> x in multiset(r);
    assert x in xs <==> x in multiset(xs);
  }

  // ---------------------------------------------------------------------
  // Array.from(new Set(xs))

  /** The position of the first occurrence of `x` (`FirstIndexFirst`
      shows that no earlier position holds it). */
  function FirstIndex<T(==)>(xs: seq<T>, x: T): (k: nat)
    requires x in xs
    ensures k < |xs| && xs[k] == x
  {
    if xs[0] == x then 0 else 1 + FirstIndex(xs[1..], x)
  }

  lemma {:induction false} FirstIndexFirst<T>(xs: seq<T>, x: T)
    requires x in xs
    ensures forall t :: 0 <= t < FirstIndex(xs, x) ==> xs[t] != x
  {
    if xs[0] != x {
      FirstIndexFirst(xs[1..], x);
      assert forall t :: 1 <= t < |xs| ==> xs[t] == xs[1..][t - 1];
    }
  }

  /** Distinct elements in order of first appearance. */
  function Dedup<T(==,!new)>(xs: seq<T>): seq<T> {
    DedupAfter(xs, {})
  }

  /** The elements of `xs` not in `seen`, each once (`DedupOrdered`
      adds: in the order of their first occurrence in `xs`). */
  function DedupAfter<T(==,!new)>(xs: seq<T>, seen: set<T>): (r: seq<T>)
    ensures forall i :: 0 <= i < |r| ==> r[i] !in seen
    ensures forall i, j :: 0 <= i < j < |r| ==> r[i] != r[j]
    ensures forall x :: x in r <==> x in xs && x !in seen
  {
    if xs == [] then []
    else if xs[0] in seen then DedupAfter(xs[1..], seen)
    else [xs[0]] + DedupAfter(xs[1..], seen + {xs[0]})
  }

  /** Each element of `r` occurs in `xs`, and the elements of `r` come in
      the order of their first occurrences in `xs`. */
  ghost predicate FirstOrdered<T>(xs: seq<T>, r: seq<T>) {
    forall i, j {:trigger FirstIndex(xs, r[i]), FirstIndex(xs, r[j])} :: 0 <= i < j < |r| ==>
      r[i] in xs && r[j] in xs && FirstIndex(xs, r[i]) < FirstIndex(xs, r[j])
  }

  /** A set keeps its elements in the order of their first insertion. */
  lemma {:induction false} DedupOrdered<T(!new)>(xs: seq<T>, seen: set<T>)
    ensures FirstOrdered(xs, DedupAfter(xs, seen))
    decreases |xs|
  {
    if xs != [] {
      var seen' := if xs[0] in seen then seen else seen + {xs[0]};
      var rest := DedupAfter(xs[1..], seen');
      DedupOrdered(xs[1..], seen');
      assert forall i :: 0 <= i < |rest| ==> rest[i] in xs[1..] && rest[i] != xs[0];
      if xs[0] in seen {
        TailOrdered(xs, rest);
      } else {
        ConsOrdered(xs, rest);
      }
    }
  }

  lemma TailOrdered<T>(xs: seq<T>, rest: seq<T>)
    requires xs != []
    requires forall i :: 0 <= i < |rest| ==> rest[i] in xs[1..] && rest[i] != xs[0]
    requires FirstOrdered(xs[1..], rest)
    ensures FirstOrdered(xs, rest)
  {
    assert forall i :: 0 <= i < |rest| ==> FirstIndex(xs, rest[i]) == 1 + FirstIndex(xs[1..], rest[i]);
  }

  lemma ConsOrdered<T>(xs: seq<T>, rest: seq<T>)
    requires xs != []
    requires forall i :: 0 <= i < |rest| ==> rest[i] in xs[1..] && rest[i] != xs[0]
    requires FirstOrdered(xs[1..], rest)
    ensures FirstOrdered(xs, [xs[0]] + rest)
  {
    var r := [xs[0]] + rest;
    TailOrdered(xs, rest);
    assert forall i :: 1 <= i < |r| ==> r[i] == rest[i - 1];
  }

  /** The set of the elements of a sequence. */
  function Elems<T(!new)>(xs: seq<T>): (r: set<T>)
    ensures forall x :: x in r <==> x in xs
  {
    if xs == [] then {} else {xs[0]} + Elems(xs[1..])
  }

  /** Adding to a set in two runs is adding the second run after the
      first, with the first run's elements already seen. */
  lemma {:induction false} DedupAppend<T(!new)>(a: seq<T>, b: seq<T>, seen: set<T>)
    ensures DedupAfter(a + b, seen) == DedupAfter(a, seen) + DedupAfter(b, seen + Elems(a))
    decreases |a|
  {
    if a == [] {
      assert a + b == b;
      assert seen + Elems(a) == seen;
    } else {
      var head := if a[0] in seen then [] else [a[0]];
      var seen' := if a[0] in seen then seen else seen + {a[0]};
      DedupUnfold(a, b, seen);
      DedupAppend(a[1..], b, seen');
      ElemsUnfold(a, seen);
      AppendAssoc(head, DedupAfter(a[1..], seen'), DedupAfter(b, seen + Elems(a)));
    }
  }

  lemma AppendAssoc<T>(x: seq<T>, y: seq<T>, z: seq<T>)
    ensures x + (y + z) == (x + y) + z
  {
  }

  lemma DedupUnfold<T(!new)>(a: seq<T>, b: seq<T>, seen: set<T>)
    requires a != []
    ensures var head := if a[0] in seen then [] else [a[0]];
      var seen' := if a[0] in seen then seen else seen + {a[0]};
      DedupAfter(a, seen) == head + DedupAfter(a[1..], seen') &&
      DedupAfter(a + b, seen) == head + DedupAfter(a[1..] + b, seen')
  {
    assert (a + b)[1..] == a[1..] + b && (a + b)[0] == a[0];
  }

  lemma ElemsUnfold<T(!new)>(a: seq<T>, seen: set<T>)
    requires a != []
    ensures (if a[0] in seen then seen else seen + {a[0]}) + Elems(a[1..]) == seen + Elems(a)
  {
  }

  /** Adding one more element to a set. */
  lemma DedupSnoc<T(!new)>(xs: seq<T>, x: T, seen: set<T>)
    ensures DedupAfter(xs + [x], seen) ==
      DedupAfter(xs, seen) + (if x in seen || x in xs then [] else [x])
  {
    DedupAppend(xs, [x], seen);
    var s := seen + Elems(xs);
    assert x in s <==> x in seen || x in xs;
    assert DedupAfter([x], s) == (if x in s then [] else [x]) by {
      assert [x][1..] == [];
    }
  }

  /** `set.add(x)` on a set that holds `prefix` and then the distinct
      elements of `xs`, kept as a sequence in insertion order. */
  lemma AddToSet<T(!new)>(out: seq<T>, prefix: seq<T>, xs: seq<T>, x: T)
    requires out == prefix + DedupAfter(xs, Elems(prefix))
    ensures (if x in out then out else out + [x]) == prefix + DedupAfter(xs + [x], Elems(prefix))
  {
    var seen := Elems(prefix);
    DedupSnoc(xs, x, seen);
    assert x in out <==> x in seen || x in xs;
    if x !in out {
      assert out + [x] == prefix + (DedupAfter(xs, seen) + [x]);
    } else {
      assert DedupAfter(xs, seen) + [] == DedupAfter(xs, seen);
    }
  }
}
