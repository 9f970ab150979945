/**
 * What `upsertConfigRows` (app/lib/google.ts:86-139) does to the config
 * table. The inductive proofs are over `UpsertWith` and any index that
 * points into the table; the properties are then stated for `Upserted`,
 * whose index is the one the source builds.
 */
module UpsertFacts {
  import opened ConfigStore

  /** Update `u` is aimed at row `i`. */
  predicate TargetsRowOf(index: map<string, nat>, u: Update, year: string, i: nat) {
    Targets(index, u, year) && index[Key(u.clubId, year)] == i
  }

  /** Every index entry names a row that holds that key. */
  predicate IndexFaithful(rows: Table, index: map<string, nat>) {
    forall k :: k in index ==> index[k] < |rows| && RowKey(rows[index[k]]) == k
  }

  /** The updates whose key is not in the index, in input order. */
  function FreshUpdates(index: map<string, nat>, updates: seq<Update>, year: string): (newcomers: seq<Update>)
    ensures |newcomers| <= |updates|
    ensures forall u :: u in newcomers ==> u in updates && !Targets(index, u, year)
    ensures forall u :: u in updates && !Targets(index, u, year) ==> u in newcomers
    decreases |updates|
  {
    if updates == [] then []
    else
      var init := FreshUpdates(index, updates[..|updates| - 1], year);
      var u := updates[|updates| - 1];
      assert forall v :: v in updates ==> v in updates[..|updates| - 1] || v == u;
      if Targets(index, u, year) then init else init + [u]
  }

  /** The rows written for a list of updates, in order. */
  function NewRows(us: seq<Update>, year: string, now: string): (r: Table)
    ensures |r| == |us|
    ensures forall k :: 0 <= k < |us| ==> r[k] == NewRow(us[k], year, now)
    decreases |us|
  {
    if us == [] then []
    else NewRows(us[..|us| - 1], year, now) + [NewRow(us[|us| - 1], year, now)]
  }

  /** The record a written row is read back as. */
  function ConfigRowFor(u: Update, year: string, now: string): ClubConfigRow {
    ClubConfigRow(u.clubId, u.clubName, u.sheetId, year, now)
  }

  // ---------------------------------------------------------------------------
  // Over any index

  lemma {:induction false} AppendsFreshRows(rows: Table, index: map<string, nat>, updates: seq<Update>, year: string, now: string)
    requires IndexWithin(index, |rows|)
    ensures var t := UpsertWith(rows, index, updates, year, now);
      t[|rows|..] == NewRows(FreshUpdates(index, updates, year), year, now)
    decreases |updates|
  {
    if updates != [] {
      var init, u := updates[..|updates| - 1], updates[|updates| - 1];
      AppendsFreshRows(rows, index, init, year, now);
      var t0 := UpsertWith(rows, index, init, year, now);
      var key := Key(u.clubId, year);
      if key in index {
        TailAfterWrite(t0, |rows|, index[key], NewRow(u, year, now));
      } else {
        TailAfterAppend(t0, |rows|, NewRow(u, year, now));
        NewRowsSnoc(FreshUpdates(index, init, year), u, year, now);
      }
    }
  }

  lemma TailAfterWrite(t: Table, n: nat, i: nat, row: Row)
    requires i < n <= |t|
    ensures t[i := row][n..] == t[n..]
  {
  }

  lemma TailAfterAppend(t: Table, n: nat, row: Row)
    requires n <= |t|
    ensures (t + [row])[n..] == t[n..] + [row]
  {
  }

  lemma NewRowsSnoc(us: seq<Update>, u: Update, year: string, now: string)
    ensures NewRows(us + [u], year, now) == NewRows(us, year, now) + [NewRow(u, year, now)]
  {
    assert (us + [u])[..|us|] == us;
  }

  lemma {:induction false} KeepsUntargetedRows(rows: Table, index: map<string, nat>, updates: seq<Update>, year: string, now: string, i: nat)
    requires IndexWithin(index, |rows|) && i < |rows|
    requires forall u :: u in updates ==> !TargetsRowOf(index, u, year, i)
    ensures UpsertWith(rows, index, updates, year, now)[i] == rows[i]
    decreases |updates|
  {
    if updates != [] {
      var init := updates[..|updates| - 1];
      assert forall u :: u in init ==> u in updates;
      assert updates[|updates| - 1] in updates;
      KeepsUntargetedRows(rows, index, init, year, now, i);
    }
  }

  lemma {:induction false} OverwritesLastTarget(rows: Table, index: map<string, nat>, updates: seq<Update>, year: string, now: string, j: nat)
    requires IndexFaithful(rows, index)
    requires j < |updates| && Targets(index, updates[j], year)
    requires forall l :: j < l < |updates| ==> updates[l].clubId != updates[j].clubId
    ensures UpsertWith(rows, index, updates, year, now)[index[Key(updates[j].clubId, year)]]
         == NewRow(updates[j], year, now)
    decreases |updates|
  {
    var init, u := updates[..|updates| - 1], updates[|updates| - 1];
    if j < |updates| - 1 {
      OverwritesLastTarget(rows, index, init, year, now, j);
      var kj, ku := Key(updates[j].clubId, year), Key(u.clubId, year);
      if kj == ku { KeyDeterminesClub(updates[j].clubId, u.clubId, year); }
    }
  }

  lemma {:induction false} KeepsKeys(rows: Table, index: map<string, nat>, updates: seq<Update>, year: string, now: string, i: nat)
    requires IndexFaithful(rows, index) && i < |rows|
    ensures RowKey(UpsertWith(rows, index, updates, year, now)[i]) == RowKey(rows[i])
    decreases |updates|
  {
    if updates != [] {
      KeepsKeys(rows, index, updates[..|updates| - 1], year, now, i);
      NewRowKey(updates[|updates| - 1], year, now);
    }
  }

  lemma {:induction false} StampsWrittenRows(rows: Table, index: map<string, nat>, updates: seq<Update>, year: string, now: string, i: nat)
    requires IndexWithin(index, |rows|)
    requires i < |UpsertWith(rows, index, updates, year, now)|
    requires i >= |rows| || UpsertWith(rows, index, updates, year, now)[i] != rows[i]
    ensures var r := UpsertWith(rows, index, updates, year, now)[i]; |r| == 5 && r[3] == year && r[4] == now
    decreases |updates|
  {
    var init := updates[..|updates| - 1];
    var t0 := UpsertWith(rows, index, init, year, now);
    if i < |t0| && (i >= |rows| || t0[i] != rows[i]) {
      StampsWrittenRows(rows, index, init, year, now, i);
    }
  }

  // ---------------------------------------------------------------------------
  // For the index the source builds

  lemma SourceIndexFaithful(rows: Table)
    ensures IndexFaithful(rows, IndexByKey(rows))
  {
    IndexByKeyIsLastOccurrence(rows);
  }

  /**
   * The table grows by exactly the updates whose key was not stored, and
   * their rows are appended at the end in input order.
   */
  lemma UpsertedAppendsFreshRows(rows: Table, updates: seq<Update>, year: string, now: string)
    ensures var t := Upserted(rows, updates, year, now);
      var newcomers := FreshUpdates(IndexByKey(rows), updates, year);
      |t| == |rows| + |newcomers| && t[|rows|..] == NewRows(newcomers, year, now)
  {
    AppendsFreshRows(rows, IndexByKey(rows), updates, year, now);
  }

  /** A stored row that no update is aimed at keeps its contents. */
  lemma UpsertedKeepsUntargetedRows(rows: Table, updates: seq<Update>, year: string, now: string, i: nat)
    requires i < |rows|
    requires forall u :: u in updates ==> !TargetsRowOf(IndexByKey(rows), u, year, i)
    ensures Upserted(rows, updates, year, now)[i] == rows[i]
  {
    KeepsUntargetedRows(rows, IndexByKey(rows), updates, year, now, i);
  }

  /**
   * An update whose key is stored, if no later update in the call names the
   * same club, leaves `[clubId, clubName, sheetId, year, now]` in the last
   * row holding that key.
   */
  lemma UpsertedOverwritesLastTarget(rows: Table, updates: seq<Update>, year: string, now: string, j: nat)
    requires j < |updates| && Targets(IndexByKey(rows), updates[j], year)
    requires forall l :: j < l < |updates| ==> updates[l].clubId != updates[j].clubId
    ensures var i := IndexByKey(rows)[Key(updates[j].clubId, year)];
      IsLastIndexOf(rows, Key(updates[j].clubId, year), i) &&
      Upserted(rows, updates, year, now)[i] == NewRow(updates[j], year, now)
  {
    IndexByKeyIsLastOccurrence(rows);
    OverwritesLastTarget(rows, IndexByKey(rows), updates, year, now, j);
  }

  /** Stored rows keep their keys. */
  lemma UpsertedKeepsKeys(rows: Table, updates: seq<Update>, year: string, now: string, i: nat)
    requires i < |rows|
    ensures RowKey(Upserted(rows, updates, year, now)[i]) == RowKey(rows[i])
  {
    SourceIndexFaithful(rows);
    KeepsKeys(rows, IndexByKey(rows), updates, year, now, i);
  }

  /**
   * Every row the call writes, overwritten or appended, holds five cells with
   * the call's year and its one shared `now`.
   */
  lemma WrittenRowsShareTimestamp(rows: Table, updates: seq<Update>, year: string, now: string, i: nat)
    requires i < |Upserted(rows, updates, year, now)|
    requires i >= |rows| || Upserted(rows, updates, year, now)[i] != rows[i]
    ensures var r := Upserted(rows, updates, year, now)[i]; |r| == 5 && r[3] == year && r[4] == now
  {
    StampsWrittenRows(rows, IndexByKey(rows), updates, year, now, i);
  }

  /**
   * After the upsert, reading the year returns, for every club in the call,
   * the record of the last update naming it.
   */
  lemma ReadAfterUpsertHasLastUpdates(rows: Table, updates: seq<Update>, year: string, now: string, j: nat)
    requires j < |updates|
    requires forall l :: j < l < |updates| ==> updates[l].clubId != updates[j].clubId
    ensures ConfigRowFor(updates[j], year, now) in ReadConfigForYear(Upserted(rows, updates, year, now), year)
  {
    var t := Upserted(rows, updates, year, now);
    var u := updates[j];
    var index := IndexByKey(rows);
    var pos: nat;
    if Targets(index, u, year) {
      UpsertedOverwritesLastTarget(rows, updates, year, now, j);
      pos := index[Key(u.clubId, year)];
    } else {
      var newcomers := FreshUpdates(index, updates, year);
      UpsertedAppendsFreshRows(rows, updates, year, now);
      assert u in newcomers;
      var k :| 0 <= k < |newcomers| && newcomers[k] == u;
      assert t[|rows|..][k] == NewRow(u, year, now);
      pos := |rows| + k;
    }
    assert t[pos] == NewRow(u, year, now);
    assert ParseRow(t[pos]) == ConfigRowFor(u, year, now);
  }

  /**
   * Applying the same single update twice: the second call adds no row and
   * leaves that key's row with the second call's values; all other rows are
   * as after the first call.
   */
  lemma UpsertTwiceIsIdempotent(rows: Table, u: Update, year: string, now1: string, now2: string)
    ensures var t1 := Upserted(rows, [u], year, now1);
      var t2 := Upserted(t1, [u], year, now2);
      Key(u.clubId, year) in IndexByKey(t1) &&
      var q := IndexByKey(t1)[Key(u.clubId, year)];
      |t2| == |t1| && t2[q] == NewRow(u, year, now2) &&
      forall i :: 0 <= i < |t1| && i != q ==> t2[i] == t1[i]
  {
    var t1 := Upserted(rows, [u], year, now1);
    var key := Key(u.clubId, year);
    UpsertOne(rows, IndexByKey(rows), u, year, now1);
    UpsertOne(t1, IndexByKey(t1), u, year, now2);
    NewRowKey(u, year, now1);
    var index := IndexByKey(rows);
    var p := if Targets(index, u, year) then index[key] else |rows|;
    assert RowKey(t1[p]) == key;
    IndexByKeyIsLastOccurrence(t1);
    assert Occurs(t1, key);
  }

  /** The index is not updated inside the loop: one new key given twice is appended twice. */
  lemma RepeatedNewKeyAppendsTwice(rows: Table, u: Update, year: string, now: string)
    requires !Targets(IndexByKey(rows), u, year)
    ensures Upserted(rows, [u, u], year, now) == rows + [NewRow(u, year, now), NewRow(u, year, now)]
  {
    assert [u, u][..1] == [u];
    UpsertOne(rows, IndexByKey(rows), u, year, now);
  }

  /** No two rows share a composite key. */
  predicate UniqueKeys(rows: Table) {
    forall i, j :: 0 <= i < j < |rows| ==> RowKey(rows[i]) != RowKey(rows[j])
  }

  /** No two updates name the same club. */
  predicate DistinctClubs(updates: seq<Update>) {
    forall i, j :: 0 <= i < j < |updates| ==> updates[i].clubId != updates[j].clubId
  }

  lemma {:induction false} FreshUpdatesDistinct(index: map<string, nat>, updates: seq<Update>, year: string)
    requires DistinctClubs(updates)
    ensures DistinctClubs(FreshUpdates(index, updates, year))
    decreases |updates|
  {
    if updates != [] {
      var init, u := updates[..|updates| - 1], updates[|updates| - 1];
      FreshUpdatesDistinct(index, init, year);
      var f := FreshUpdates(index, init, year);
      forall v | v in f ensures v.clubId != u.clubId {
        var k :| 0 <= k < |init| && init[k] == v;
        assert updates[k] == v;
      }
    }
  }

  /**
   * The one-row-per-key invariant is kept by an upsert whose updates name
   * distinct clubs.
   */
  lemma UpsertKeepsKeysUnique(rows: Table, updates: seq<Update>, year: string, now: string)
    requires UniqueKeys(rows) && DistinctClubs(updates)
    ensures UniqueKeys(Upserted(rows, updates, year, now))
  {
    var t := Upserted(rows, updates, year, now);
    var index := IndexByKey(rows);
    var newcomers := FreshUpdates(index, updates, year);
    UpsertedAppendsFreshRows(rows, updates, year, now);
    FreshUpdatesDistinct(index, updates, year);
    IndexByKeyIsLastOccurrence(rows);
    forall i, j | 0 <= i < j < |t| ensures RowKey(t[i]) != RowKey(t[j]) {
      if j < |rows| {
        UpsertedKeepsKeys(rows, updates, year, now, i);
        UpsertedKeepsKeys(rows, updates, year, now, j);
      } else {
        var fj := newcomers[j - |rows|];
        assert t[j] == t[|rows|..][j - |rows|];
        NewRowKey(fj, year, now);
        assert fj in newcomers;
        if i < |rows| {
          UpsertedKeepsKeys(rows, updates, year, now, i);
          assert Occurs(rows, RowKey(rows[i]));
        } else {
          var fi := newcomers[i - |rows|];
          assert t[i] == t[|rows|..][i - |rows|];
          NewRowKey(fi, year, now);
          if RowKey(t[i]) == RowKey(t[j]) {
            KeyDeterminesClub(fi.clubId, fj.clubId, year);
          }
        }
      }
    }
  }
}
