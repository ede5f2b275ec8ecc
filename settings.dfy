/** `src/app/api/settings/route.ts`: the site settings, read as one object
    keyed by setting key and written by an admin key by key. */
module Settings {
  import opened Common
  import opened Seqs
  import opened Http
  import opened Store
  import opened Listing
  import opened Keyed

  /** A row of the setting table; `key` is unique. `kind` and `labelText`
      are the `type` and `label` columns. */
  datatype Setting = Setting(
    key: string, value: Option<string>, valueAr: Option<string>, kind: string, group: string,
    labelText: Option<string>, labelAr: Option<string>, description: Option<string>, isPublic: bool)

  function KeyOf(s: Setting): string { s.key }

  function Itself(s: Setting): Setting { s }

  // ---------------------------------------------------------------------
  // GET

  /** The `where` object: `group` when given, `isPublic: true` when
      `public=true`. */
  predicate Selected(q: Params, s: Setting) {
    (!Truthy(Param(q, "group")) || s.group == Param(q, "group").value) &&
    (!ParamIs(q, "public", "true") || s.isPublic)
  }

  function SelectedBy(q: Params): Setting -> bool {
    s => Selected(q, s)
  }

  /** The entry the object holds for a setting (its description is left out). */
  datatype SettingView = SettingView(
    value: Option<string>, valueAr: Option<string>, kind: string, group: string,
    labelText: Option<string>, labelAr: Option<string>, isPublic: bool)

  function ViewOf(s: Setting): SettingView {
    SettingView(s.value, s.valueAr, s.kind, s.group, s.labelText, s.labelAr, s.isPublic)
  }

  /** GET /api/settings: the `reduce` over the selected rows into
      `{ [key]: view }`. */
  method Get(rows: seq<Row<Setting>>, q: Params) returns (r: map<string, SettingView>)
    requires UniqueKeys(rows, KeyOf)
    ensures forall k :: k in r <==> exists i :: 0 <= i < |rows| && rows[i].data.key == k && Selected(q, rows[i].data)
    ensures forall i :: 0 <= i < |rows| && Selected(q, rows[i].data) ==>
      rows[i].data.key in r && r[rows[i].data.key] == ViewOf(rows[i].data)
    ensures forall k :: k in r ==> (!ParamIs(q, "public", "true") || r[k].isPublic)
  {
    var selected := Filter(rows, OnData(SelectedBy(q)));
    FilterUnique(rows, KeyOf, OnData(SelectedBy(q)));
    r := map[];
    var i := 0;
    while i < |selected|
      invariant i <= |selected|
      invariant r == Collect(selected[..i], KeyOf, ViewOf)
    {
      assert selected[..i + 1][..i] == selected[..i];
      r := r[selected[i].data.key := ViewOf(selected[i].data)];
      i := i + 1;
    }
    assert selected[..|selected|] == selected;
    assert r == SettingsObject(rows, q);
    SelectedSettings(rows, q);
  }

  /** The object the reduce builds: the selected rows folded by key. */
  function SettingsObject(rows: seq<Row<Setting>>, q: Params): map<string, SettingView> {
    Collect(Filter(rows, OnData(SelectedBy(q))), KeyOf, ViewOf)
  }

  /** The object has an entry for exactly the selected keys, each the view
      of its own row. */
  lemma SelectedSettings(rows: seq<Row<Setting>>, q: Params)
    requires UniqueKeys(rows, KeyOf)
    ensures forall k :: k in SettingsObject(rows, q) <==>
      exists i :: 0 <= i < |rows| && rows[i].data.key == k && Selected(q, rows[i].data)
    ensures forall i :: 0 <= i < |rows| && Selected(q, rows[i].data) ==>
      rows[i].data.key in SettingsObject(rows, q) && SettingsObject(rows, q)[rows[i].data.key] == ViewOf(rows[i].data)
  {
    forall k ensures k in SettingsObject(rows, q) <==>
      exists i :: 0 <= i < |rows| && rows[i].data.key == k && Selected(q, rows[i].data)
    {
      SelectedKey(rows, q, k);
    }
    forall i | 0 <= i < |rows| && Selected(q, rows[i].data)
      ensures rows[i].data.key in SettingsObject(rows, q) && SettingsObject(rows, q)[rows[i].data.key] == ViewOf(rows[i].data)
    {
      SelectedView(rows, q, i);
    }
  }

  lemma SelectedKey(rows: seq<Row<Setting>>, q: Params, k: string)
    ensures k in SettingsObject(rows, q) <==>
      exists i :: 0 <= i < |rows| && rows[i].data.key == k && Selected(q, rows[i].data)
  {
    var selected := Filter(rows, OnData(SelectedBy(q)));
    CollectLookup(selected, KeyOf, ViewOf, k);
    if k in SettingsObject(rows, q) {
      var j :| 0 <= j < |selected| && selected[j].data.key == k;
      FilterMember(rows, OnData(SelectedBy(q)), selected[j]);
    } else {
      forall i | 0 <= i < |rows| && rows[i].data.key == k
        ensures !Selected(q, rows[i].data)
      {
        FilterMember(rows, OnData(SelectedBy(q)), rows[i]);
      }
    }
  }

  lemma SelectedView(rows: seq<Row<Setting>>, q: Params, i: nat)
    requires UniqueKeys(rows, KeyOf)
    requires i < |rows| && Selected(q, rows[i].data)
    ensures rows[i].data.key in SettingsObject(rows, q)
    ensures SettingsObject(rows, q)[rows[i].data.key] == ViewOf(rows[i].data)
  {
    var selected := Filter(rows, OnData(SelectedBy(q)));
    FilterUnique(rows, KeyOf, OnData(SelectedBy(q)));
    FilterMember(rows, OnData(SelectedBy(q)), rows[i]);
    var j :| 0 <= j < |selected| && selected[j] == rows[i];
    CollectLookup(selected, KeyOf, ViewOf, rows[i].data.key);
  }

  // ---------------------------------------------------------------------
  // PUT

  /** One payload entry's object; an absent member is `undefined`. */
  datatype SettingPayload = SettingPayload(
    value: Option<string>, valueAr: Option<string>, kind: Option<string>, group: Option<string>,
    labelText: Option<string>, labelAr: Option<string>, description: Option<string>, isPublic: Option<bool>)

  /** The `create` branch of the upsert. */
  function Created(k: string, p: SettingPayload): (s: Setting)
    ensures s.key == k && s.value == p.value && s.labelText == p.labelText
    ensures s.kind == (if Truthy(p.kind) then p.kind.value else "string")
    ensures s.group == (if Truthy(p.group) then p.group.value else "general")
    ensures s.isPublic <==> p.isPublic == Some(true)
  {
    Setting(k, p.value, p.valueAr, OrElse(p.kind, "string"), OrElse(p.group, "general"),
            p.labelText, p.labelAr, p.description, p.isPublic.GetOr(false))
  }

  /** `undefined` in an update leaves the column as it is. */
  function Keep(given: Option<string>, current: Option<string>): Option<string> {
    if given.Some? then given else current
  }

  /** The `update` branch of the upsert: the defaulted members always
      overwrite, the others only when given. */
  function Updated(s: Setting, p: SettingPayload): (u: Setting)
    ensures u.key == s.key
    ensures p.value.Some? ==> u.value == p.value
    ensures p.value.None? ==> u.value == s.value
    ensures p.labelText.None? ==> u.labelText == s.labelText
    ensures u.kind == (if Truthy(p.kind) then p.kind.value else "string")
    ensures u.group == (if Truthy(p.group) then p.group.value else "general")
    ensures u.isPublic <==> p.isPublic == Some(true)
  {
    Setting(s.key, Keep(p.value, s.value), Keep(p.valueAr, s.valueAr), OrElse(p.kind, "string"),
            OrElse(p.group, "general"), Keep(p.labelText, s.labelText), Keep(p.labelAr, s.labelAr),
            Keep(p.description, s.description), p.isPublic.GetOr(false))
  }

  /** What the upsert for `k` leaves under `k`. */
  function Upserted(m: map<string, Setting>, k: string, p: SettingPayload): Setting {
    if k in m then Updated(m[k], p) else Created(k, p)
  }

  /** The settings after the payload's upserts, applied in turn; the upsert
      of a key in `fails` is refused by the database. */
  function PutAll(m: map<string, Setting>, entries: seq<(string, SettingPayload)>, fails: set<string>): map<string, Setting>
    decreases |entries|
  {
    if entries == [] then m
    else
      var before := PutAll(m, entries[..|entries| - 1], fails);
      var e := entries[|entries| - 1];
      if e.0 in fails then before else before[e.0 := Upserted(before, e.0, e.1)]
  }

  lemma PutAllStep(m: map<string, Setting>, entries: seq<(string, SettingPayload)>, i: nat, fails: set<string>)
    requires i < |entries|
    ensures var before := PutAll(m, entries[..i], fails);
      PutAll(m, entries[..i + 1], fails) ==
        if entries[i].0 in fails then before
        else before[entries[i].0 := Upserted(before, entries[i].0, entries[i].1)]
  {
    assert entries[..i + 1][..i] == entries[..i];
  }

  /** The upsert of one payload entry. */
  method PutOne(t: Table<Setting>, k: string, p: SettingPayload, now: nat)
    requires t.Valid() && UniqueKeys(t.rows, KeyOf)
    modifies t
    ensures t.Valid() && UniqueKeys(t.rows, KeyOf)
    ensures Collect(t.rows, KeyOf, Itself) ==
      Collect(old(t.rows), KeyOf, Itself)[k := Upserted(Collect(old(t.rows), KeyOf, Itself), k, p)]
  {
    ghost var before := t.rows;
    ghost var j := FindKey(before, KeyOf, k);
    CollectLookup(before, KeyOf, Itself, k);
    Upsert(t, KeyOf, k, Created(k, p), (s: Setting) => Updated(s, p), now);
    ghost var stored := if j < |before| then Updated(before[j].data, p) else Created(k, p);
    UpsertCollect(before, t.rows, KeyOf, Itself, k, stored);
  }

  /** PUT /api/settings: admins only; a body that is not JSON (`None`)
      is a 500 with nothing written; otherwise every entry is attempted
      and the reply is 500 when one failed, with the others left written. */
  method Put(t: Table<Setting>, session: Option<Session>, body: Option<seq<(string, SettingPayload)>>, fails: set<string>, now: nat)
    returns (r: Reply<()>)
    requires t.Valid() && UniqueKeys(t.rows, KeyOf)
    modifies t
    ensures t.Valid() && UniqueKeys(t.rows, KeyOf)
    ensures !IsAdmin(session) ==> r == Fail(UNAUTHORIZED, "unauthorized") && t.rows == old(t.rows)
    ensures IsAdmin(session) && body.None? ==> r == Fail(SERVER_ERROR, "update failed") && t.rows == old(t.rows)
    ensures IsAdmin(session) && body.Some? ==>
      Collect(t.rows, KeyOf, Itself) == PutAll(Collect(old(t.rows), KeyOf, Itself), body.value, fails) &&
      (r.Ok? <==> forall i :: 0 <= i < |body.value| ==> body.value[i].0 !in fails) &&
      (r.Fail? ==> r.status == SERVER_ERROR)
  {
    if !IsAdmin(session) {
      return Fail(UNAUTHORIZED, "unauthorized");
    }
    if body.None? {
      return Fail(SERVER_ERROR, "update failed");
    }
    var failed := PutEach(t, body.value, fails, now);
    if failed {
      return Fail(SERVER_ERROR, "update failed");
    }
    return Ok(OK, ());
  }

  /** The upserts of the payload entries, one after the other. */
  method PutEach(t: Table<Setting>, entries: seq<(string, SettingPayload)>, fails: set<string>, now: nat)
    returns (failed: bool)
    requires t.Valid() && UniqueKeys(t.rows, KeyOf)
    modifies t
    ensures t.Valid() && UniqueKeys(t.rows, KeyOf)
    ensures Collect(t.rows, KeyOf, Itself) == PutAll(Collect(old(t.rows), KeyOf, Itself), entries, fails)
    ensures failed <==> exists i :: 0 <= i < |entries| && entries[i].0 in fails
  {
    ghost var m0 := Collect(t.rows, KeyOf, Itself);
    failed := false;
    var i := 0;
    while i < |entries|
      invariant i <= |entries|
      invariant t.Valid() && UniqueKeys(t.rows, KeyOf)
      invariant Collect(t.rows, KeyOf, Itself) == PutAll(m0, entries[..i], fails)
      invariant failed <==> exists j :: 0 <= j < i && entries[j].0 in fails
    {
      var k := entries[i].0;
      ghost var before := PutAll(m0, entries[..i], fails);
      PutAllStep(m0, entries, i, fails);
      if k !in fails {
        PutOne(t, k, entries[i].1, now);
        assert Collect(t.rows, KeyOf, Itself) == before[k := Upserted(before, k, entries[i].1)];
        assert forall j :: 0 <= j < i + 1 && entries[j].0 in fails ==> j < i;
      } else {
        failed := true;
        assert 0 <= i < i + 1 && entries[i].0 in fails;
      }
      i := i + 1;
    }
    assert entries[..|entries|] == entries;
  }

  /** After a PUT whose keys are distinct, every written key exists and
      holds what its upsert stored, and every key not in the payload is as
      it was. */
  lemma {:induction false} PutMeaning(m: map<string, Setting>, entries: seq<(string, SettingPayload)>, fails: set<string>)
    requires forall i, j :: 0 <= i < j < |entries| ==> entries[i].0 != entries[j].0
    ensures forall i :: 0 <= i < |entries| && entries[i].0 !in fails ==>
      entries[i].0 in PutAll(m, entries, fails) &&
      PutAll(m, entries, fails)[entries[i].0] == Upserted(m, entries[i].0, entries[i].1)
    ensures forall k :: (forall i :: 0 <= i < |entries| ==> entries[i].0 != k) ==>
      (k in PutAll(m, entries, fails) <==> k in m) &&
      (k in m ==> PutAll(m, entries, fails)[k] == m[k])
    decreases |entries|
  {
    if entries != [] {
      var init := entries[..|entries| - 1];
      PutMeaning(m, init, fails);
      assert forall i :: 0 <= i < |init| ==> init[i] == entries[i];
    }
  }
}
