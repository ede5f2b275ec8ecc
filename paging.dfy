/** Offset pagination as the list routes use it: `skip = (page - 1) * limit`,
    `take = limit`, `totalPages = Math.ceil(total / limit)`. */
module Paging {
  import opened Common
  import opened Http

  /** The decimal text of a number, as `String(n)` writes it. */
  function NatToString(n: nat): (r: string)
    ensures |r| >= 1 && forall i :: 0 <= i < |r| ==> IsDigit(r[i])
  {
    var d := ['0' + (n % 10) as char];
    if n < 10 then d else NatToString(n / 10) + d
  }

  /** `parseInt(String(n)) === n` */
  lemma {:induction false} ParseNatToString(n: nat)
    ensures ParseInt(NatToString(n)) == Some(n)
  {
    var s := NatToString(n);
    assert TrimStart(s) == s;
    assert SignSkipped(s) == s;
    assert |s| >= 2 ==> IsDigit(s[1]);
    assert !HexPrefixed(s);
    DigitPrefixAll(s);
    DecimalOfNatToString(n);
  }

  lemma {:induction false} DigitPrefixAll(s: string)
    requires forall i :: 0 <= i < |s| ==> IsDigit(s[i])
    ensures DigitPrefix(s) == s
    decreases |s|
  {
    if s != [] {
      DigitPrefixAll(s[1..]);
    }
  }

  lemma {:induction false} DecimalOfNatToString(n: nat)
    ensures DecimalValue(NatToString(n)) == n
    decreases n
  {
    var s := NatToString(n);
    if n >= 10 {
      DecimalOfNatToString(n / 10);
      assert s[..|s| - 1] == NatToString(n / 10);
    }
  }

  datatype PageArgs = PageArgs(page: nat, limit: nat)

  /** `parseInt(searchParams.get(name) || fallback)` */
  function IntParam(q: Params, name: string, fallback: nat): Option<int> {
    ParseInt(OrElse(Param(q, name), NatToString(fallback)))
  }

  /** `page` (default 1) and `limit` (default `defaultLimit`) from the
      query, when both parse to numbers of at least 1. The routes do not
      check this themselves; what they do otherwise is not modelled. */
  function PageArgsOf(q: Params, defaultLimit: nat): (r: Option<PageArgs>)
    requires defaultLimit >= 1
    ensures r.Some? ==> r.value.page >= 1 && r.value.limit >= 1
    ensures !Truthy(Param(q, "page")) && !Truthy(Param(q, "limit")) ==> r == Some(PageArgs(1, defaultLimit))
  {
    ParseNatToString(1);
    ParseNatToString(defaultLimit);
    var page := IntParam(q, "page", 1);
    var limit := IntParam(q, "limit", defaultLimit);
    if page.Some? && page.value >= 1 && limit.Some? && limit.value >= 1
    then Some(PageArgs(page.value, limit.value))
    else None
  }

  /** `Math.ceil(total / limit)` for a positive limit: the fewest pages of
      `limit` rows that hold `total` rows. */
  function TotalPages(total: nat, limit: nat): (n: nat)
    requires limit >= 1
    ensures n * limit >= total
    ensures n > 0 ==> (n - 1) * limit < total
    ensures total == 0 <==> n == 0
  {
    if total == 0 then 0 else 1 + TotalPages(if total <= limit then 0 else total - limit, limit)
  }

  /** Where page `page` of `n` rows starts: `skip`, capped at the end. */
  function PageStart(n: nat, page: nat, limit: nat): (s: nat)
    requires page >= 1
    ensures s <= n
  {
    if (page - 1) * limit < n then (page - 1) * limit else n
  }

  /** Where page `page` of `n` rows ends: `skip + take`, capped at the end. */
  function PageEnd(n: nat, page: nat, limit: nat): (e: nat)
    requires page >= 1
    ensures PageStart(n, page, limit) <= e <= n
    ensures e - PageStart(n, page, limit) <= limit
  {
    var skip := (page - 1) * limit;
    if skip >= n then n else if skip + limit <= n then skip + limit else n
  }

  /** The rows of page `page` (counted from 1): the ORM's `skip`/`take`. */
  function Page<T>(xs: seq<T>, page: nat, limit: nat): (r: seq<T>)
    requires page >= 1
    ensures |r| <= limit
    ensures r == xs[PageStart(|xs|, page, limit)..PageEnd(|xs|, page, limit)]
    ensures (page - 1) * limit <= |xs| ==> r == xs[(page - 1) * limit..if page * limit <= |xs| then page * limit else |xs|]
    ensures (page - 1) * limit >= |xs| ==> r == []
  {
    var skip := (page - 1) * limit;
    SkipPlusLimit(page, limit);
    if skip >= |xs| then []
    else if skip + limit <= |xs| then xs[skip..skip + limit]
    else xs[skip..]
  }

  /** The end of page `page` is where page `page + 1` starts. */
  lemma SkipPlusLimit(page: nat, limit: nat)
    requires page >= 1
    ensures (page - 1) * limit + limit == page * limit
  {
  }

  /** The list cut into consecutive pages of `limit` rows. */
  function Pages<T>(xs: seq<T>, limit: nat): seq<seq<T>>
    requires limit >= 1
    decreases |xs|
  {
    if xs == [] then []
    else if |xs| <= limit then [xs]
    else [xs[..limit]] + Pages(xs[limit..], limit)
  }

  function Concat<T>(pss: seq<seq<T>>): seq<T> {
    if pss == [] then [] else pss[0] + Concat(pss[1..])
  }

  /** Reading pages 1 .. totalPages in turn yields every row of the ordered,
      filtered list exactly once and in order; page p is what `Page` returns. */
  lemma PagesRoundTrip<T>(xs: seq<T>, limit: nat)
    requires limit >= 1
    ensures |Pages(xs, limit)| == TotalPages(|xs|, limit)
    ensures Concat(Pages(xs, limit)) == xs
    ensures forall p :: 1 <= p <= |Pages(xs, limit)| ==> Pages(xs, limit)[p - 1] == Page(xs, p, limit)
  {
    PagesCount(xs, limit);
    PagesConcat(xs, limit);
    forall p | 1 <= p <= |Pages(xs, limit)|
      ensures Pages(xs, limit)[p - 1] == Page(xs, p, limit)
    {
      PagesAt(xs, limit, p);
    }
  }

  lemma {:induction false} PagesCount<T>(xs: seq<T>, limit: nat)
    requires limit >= 1
    ensures |Pages(xs, limit)| == TotalPages(|xs|, limit)
    decreases |xs|
  {
    if |xs| > limit {
      PagesCount(xs[limit..], limit);
    }
  }

  lemma {:induction false} PagesConcat<T>(xs: seq<T>, limit: nat)
    requires limit >= 1
    ensures Concat(Pages(xs, limit)) == xs
    decreases |xs|
  {
    if xs == [] {
    } else if |xs| <= limit {
      assert Pages(xs, limit) == [xs];
      assert Concat([xs]) == xs + Concat([]);
    } else {
      var rest := xs[limit..];
      PagesConcat(rest, limit);
      var ps := Pages(xs, limit);
      assert ps == [xs[..limit]] + Pages(rest, limit);
      assert ps[1..] == Pages(rest, limit);
      calc {
        Concat(ps);
        ps[0] + Concat(ps[1..]);
        xs[..limit] + rest;
        xs;
      }
    }
  }

  lemma {:induction false} PagesAt<T>(xs: seq<T>, limit: nat, p: nat)
    requires limit >= 1 && 1 <= p <= |Pages(xs, limit)|
    ensures Pages(xs, limit)[p - 1] == Page(xs, p, limit)
    decreases |xs|
  {
    if p == 1 {
      assert (p - 1) * limit == 0;
    } else {
      var rest := xs[limit..];
      assert Pages(xs, limit)[p - 1] == Pages(rest, limit)[p - 2];
      PagesAt(rest, limit, p - 1);
      PageShift(xs, p, limit);
    }
  }

  lemma PageShift<T>(xs: seq<T>, p: nat, limit: nat)
    requires limit >= 1 && p >= 2 && |xs| > limit
    ensures Page(xs, p, limit) == Page(xs[limit..], p - 1, limit)
  {
    var skip := (p - 1) * limit;
    assert skip == (p - 2) * limit + limit;
  }
}
