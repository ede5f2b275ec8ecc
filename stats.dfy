/** `src/app/api/stats/route.ts`: the site figures shown on the home page,
    read with built-in defaults and written key by key. */
module Stats {
  import opened Common
  import opened Http
  import opened Store
  import opened Keyed
  import opened Validations

  /** A row of the site-stat table; `key` is unique. */
  datatype Stat = Stat(key: string, value: int)

  function KeyOf(s: Stat): string { s.key }

  function ValueOf(s: Stat): int { s.value }

  /** The figures shown when nothing is stored. */
  const Defaults: map<string, int> := map[
    "projects_completed" := 50, "happy_clients" := 30,
    "satisfaction_rate" := 98, "years_experience" := 5]

  // ---------------------------------------------------------------------
  // GET

  /** The `reduce` that turns the rows into `{ [key]: value }`. */
  method StatsObject(rows: seq<Row<Stat>>) returns (acc: map<string, int>)
    ensures acc == Collect(rows, KeyOf, ValueOf)
  {
    acc := map[];
    var i := 0;
    while i < |rows|
      invariant i <= |rows|
      invariant acc == Collect(rows[..i], KeyOf, ValueOf)
    {
      assert rows[..i + 1][..i] == rows[..i];
      acc := acc[rows[i].data.key := rows[i].data.value];
      i := i + 1;
    }
    assert rows[..|rows|] == rows;
  }

  /** GET /api/stats: `{ ...defaults, ...statsObject }`. */
  method Get(rows: seq<Row<Stat>>) returns (r: map<string, int>)
    requires UniqueKeys(rows, KeyOf)
    ensures forall k :: k in Defaults ==> k in r
    ensures forall i :: 0 <= i < |rows| ==> rows[i].data.key in r && r[rows[i].data.key] == rows[i].data.value
    ensures forall k :: k in r ==> k in Defaults || exists i :: 0 <= i < |rows| && rows[i].data.key == k
    ensures forall k :: k in Defaults && k !in Collect(rows, KeyOf, ValueOf) ==> r[k] == Defaults[k]
    ensures forall k :: k in Collect(rows, KeyOf, ValueOf) <==> exists i :: 0 <= i < |rows| && rows[i].data.key == k
  {
    var stored := StatsObject(rows);
    r := Defaults + stored;
    forall k ensures k in stored <==> exists i :: 0 <= i < |rows| && rows[i].data.key == k {
      CollectLookup(rows, KeyOf, ValueOf, k);
    }
    forall i | 0 <= i < |rows|
      ensures stored[rows[i].data.key] == rows[i].data.value
    {
      CollectLookup(rows, KeyOf, ValueOf, rows[i].data.key);
    }
  }

  // ---------------------------------------------------------------------
  // PATCH

  /** An entry of the body is written unless its upsert fails: the value
      is not a number, or the database refuses the key (`fails`). */
  predicate Applied(e: (string, Value), fails: set<string>) {
    e.1.Num? && e.0 !in fails
  }

  /** The figures after the entries' upserts, applied in turn. */
  function Patched(m: map<string, int>, entries: seq<(string, Value)>, fails: set<string>): map<string, int>
    decreases |entries|
  {
    if entries == [] then m
    else
      var before := Patched(m, entries[..|entries| - 1], fails);
      var e := entries[|entries| - 1];
      if Applied(e, fails) then before[e.0 := e.1.n] else before
  }

  /** PATCH /api/stats. A body that is not JSON (`None`) is a 500 with
      nothing written. Otherwise every entry is attempted; the reply is
      500 when one failed, and the others stay written. */
  method Patch(t: Table<Stat>, body: Option<seq<(string, Value)>>, fails: set<string>, now: nat) returns (r: Reply<()>)
    requires t.Valid() && UniqueKeys(t.rows, KeyOf)
    modifies t
    ensures t.Valid() && UniqueKeys(t.rows, KeyOf)
    ensures body.None? ==> r == Fail(SERVER_ERROR, "update failed") && t.rows == old(t.rows)
    ensures body.Some? ==>
      Collect(t.rows, KeyOf, ValueOf) == Patched(Collect(old(t.rows), KeyOf, ValueOf), body.value, fails)
    ensures body.Some? ==> (r.Ok? <==> forall i :: 0 <= i < |body.value| ==> Applied(body.value[i], fails))
    ensures r.Ok? ==> r.status == OK
    ensures r.Fail? ==> r.status == SERVER_ERROR
    ensures body == Some([]) ==> r.Ok? && t.rows == old(t.rows)
  {
    if body.None? {
      return Fail(SERVER_ERROR, "update failed");
    }
    var failed := PatchEach(t, body.value, fails, now);
    if failed {
      return Fail(SERVER_ERROR, "update failed");
    }
    return Ok(OK, ());
  }

  /** The upserts of the body entries, one after the other. */
  method PatchEach(t: Table<Stat>, entries: seq<(string, Value)>, fails: set<string>, now: nat) returns (failed: bool)
    requires t.Valid() && UniqueKeys(t.rows, KeyOf)
    modifies t
    ensures t.Valid() && UniqueKeys(t.rows, KeyOf)
    ensures Collect(t.rows, KeyOf, ValueOf) == Patched(Collect(old(t.rows), KeyOf, ValueOf), entries, fails)
    ensures failed <==> exists j :: 0 <= j < |entries| && !Applied(entries[j], fails)
    ensures entries == [] ==> t.rows == old(t.rows)
  {
    ghost var m0 := Collect(t.rows, KeyOf, ValueOf);
    failed := false;
    var i := 0;
    while i < |entries|
      invariant i <= |entries|
      invariant t.Valid() && UniqueKeys(t.rows, KeyOf)
      invariant Collect(t.rows, KeyOf, ValueOf) == Patched(m0, entries[..i], fails)
      invariant failed <==> exists j :: 0 <= j < i && !Applied(entries[j], fails)
      invariant 0 < i || t.rows == old(t.rows)
    {
      var (k, v) := entries[i];
      PatchedStep(m0, entries, i, fails);
      if v.Num? && k !in fails {
        PatchOne(t, k, v.n, now);
        assert Collect(t.rows, KeyOf, ValueOf) == Patched(m0, entries[..i + 1], fails);
        assert forall j :: 0 <= j < i + 1 && !Applied(entries[j], fails) ==> j < i;
      } else {
        failed := true;
        assert 0 <= i < i + 1 && !Applied(entries[i], fails);
      }
      i := i + 1;
    }
    assert entries[..|entries|] == entries;
  }

  /** One upsert: the figure stored under `k` becomes `n`, and no other
      figure changes. */
  method PatchOne(t: Table<Stat>, k: string, n: int, now: nat)
    requires t.Valid() && UniqueKeys(t.rows, KeyOf)
    modifies t
    ensures t.Valid() && UniqueKeys(t.rows, KeyOf)
    ensures Collect(t.rows, KeyOf, ValueOf) == Collect(old(t.rows), KeyOf, ValueOf)[k := n]
  {
    ghost var before := t.rows;
    Upsert(t, KeyOf, k, Stat(k, n), (s: Stat) => Stat(s.key, n), now);
    UpsertCollect(before, t.rows, KeyOf, ValueOf, k, Stat(k, n));
  }

  lemma PatchedStep(m: map<string, int>, entries: seq<(string, Value)>, i: nat, fails: set<string>)
    requires i < |entries|
    ensures var before := Patched(m, entries[..i], fails);
      Patched(m, entries[..i + 1], fails) ==
        if Applied(entries[i], fails) then before[entries[i].0 := entries[i].1.n] else before
  {
    assert entries[..i + 1][..i] == entries[..i];
  }

  /** After a PATCH whose keys are distinct, every written key holds the
      value it was given, and every key not in the body is as it was. */
  lemma {:induction false} PatchedMeaning(m: map<string, int>, entries: seq<(string, Value)>, fails: set<string>)
    requires forall i, j :: 0 <= i < j < |entries| ==> entries[i].0 != entries[j].0
    ensures forall i :: 0 <= i < |entries| && Applied(entries[i], fails) ==>
      entries[i].0 in Patched(m, entries, fails) && Patched(m, entries, fails)[entries[i].0] == entries[i].1.n
    ensures forall k :: (forall i :: 0 <= i < |entries| ==> entries[i].0 != k) ==>
      (k in Patched(m, entries, fails) <==> k in m) &&
      (k in m ==> Patched(m, entries, fails)[k] == m[k])
    decreases |entries|
  {
    if entries != [] {
      var init := entries[..|entries| - 1];
      PatchedMeaning(m, init, fails);
      assert forall i :: 0 <= i < |init| ==> init[i] == entries[i];
    }
  }

  /** The figures GET shows after a PATCH: every written key shows its new
      value; the four defaults are always present. */
  lemma ShownAfterPatch(rows: seq<Row<Stat>>, entries: seq<(string, Value)>, fails: set<string>, i: nat)
    requires forall a, b :: 0 <= a < b < |entries| ==> entries[a].0 != entries[b].0
    requires i < |entries| && Applied(entries[i], fails)
    ensures var shown := Defaults + Patched(Collect(rows, KeyOf, ValueOf), entries, fails);
      entries[i].0 in shown && shown[entries[i].0] == entries[i].1.n
  {
    PatchedMeaning(Collect(rows, KeyOf, ValueOf), entries, fails);
  }
}
