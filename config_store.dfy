/**
 * The club configuration store of app/lib/google.ts. The config spreadsheet
 * holds a header row and then one row per (club, academic year) binding with
 * the five columns clubId, clubName, sheetId, academicYear, updatedAt. The
 * model's table is the sequence of rows below the header, in sheet order:
 * `rows[i]` is sheet row i + 2. Rows are read as the range A2:E, so a row may
 * be shorter than five cells.
 */
module ConfigStore {
  import opened Text
  import opened Remote

  type Row = seq<string>
  type Table = seq<Row>

  /** The header a newly created config sheet receives in A1:E1. */
  const ConfigHeader: Row := ["clubId", "clubName", "sheetId", "academicYear", "updatedAt"]

  datatype ClubConfigRow = ClubConfigRow(
    clubId: string, clubName: string, sheetId: string, academicYear: string, updatedAt: string)

  /** One entry of the `updates` argument of an upsert. */
  datatype Update = Update(clubId: string, clubName: string, sheetId: string)

  /** Cell i of a row; a missing cell reads as the empty string. */
  function Cell(r: Row, i: nat): string {
    if i < |r| then r[i] else ""
  }

  /** The five-field record a raw row parses to, cells taken by position. */
  function ParseRow(r: Row): (c: ClubConfigRow)
    ensures forall i :: 0 <= i < 5 && i < |r| ==> ToCells(c)[i] == r[i]
    ensures forall i :: |r| <= i < 5 ==> ToCells(c)[i] == ""
  {
    ClubConfigRow(Cell(r, 0), Cell(r, 1), Cell(r, 2), Cell(r, 3), Cell(r, 4))
  }

  /** The cells a record is written as. */
  function ToCells(c: ClubConfigRow): Row {
    [c.clubId, c.clubName, c.sheetId, c.academicYear, c.updatedAt]
  }

  function Blanks(n: nat): (r: Row)
    ensures |r| == n && forall i :: 0 <= i < n ==> r[i] == ""
  {
    seq(n, _ => "")
  }

  /** Writing a record and parsing it back gives the record. */
  lemma ParseWrittenRow(c: ClubConfigRow)
    ensures ParseRow(ToCells(c)) == c
  {
  }

  /** Parsing keeps cells 0..4 and pads a short row with empty strings. */
  lemma ParsePadsShortRows(r: Row)
    ensures ToCells(ParseRow(r)) == if |r| >= 5 then r[..5] else r + Blanks(5 - |r|)
  {
    var padded := if |r| >= 5 then r[..5] else r + Blanks(5 - |r|);
    assert forall i :: 0 <= i < 5 ==> ToCells(ParseRow(r))[i] == padded[i];
  }

  /**
   * `readConfigForYear`: the parsed rows whose academicYear is `year`, in
   * storage order.
   */
  function ReadConfigForYear(rows: Table, year: string): (clubs: seq<ClubConfigRow>)
    ensures |clubs| <= |rows|
    ensures forall c :: c in clubs ==> c.academicYear == year
    ensures forall c :: c in clubs <==>
      (exists i :: 0 <= i < |rows| && ParseRow(rows[i]) == c && c.academicYear == year)
    decreases |rows|
  {
    if rows == [] then []
    else
      var c := ParseRow(rows[0]);
      var rest := ReadConfigForYear(rows[1..], year);
      assert forall i :: 1 <= i < |rows| ==> rows[i] == rows[1..][i - 1];
      if c.academicYear == year then [c] + rest else rest
  }

  /** Reading distributes over the table's parts, so storage order is kept. */
  lemma {:induction false} ReadConfigOfConcat(a: Table, b: Table, year: string)
    ensures ReadConfigForYear(a + b, year) == ReadConfigForYear(a, year) + ReadConfigForYear(b, year)
    decreases |a|
  {
    if a != [] {
      assert (a + b)[1..] == a[1..] + b;
      ReadConfigOfConcat(a[1..], b, year);
    } else {
      assert a + b == b;
    }
  }

  /** Rows of other years contribute nothing. */
  lemma {:induction false} ReadSkipsOtherYears(rows: Table, year: string)
    requires forall i :: 0 <= i < |rows| ==> Cell(rows[i], 3) != year
    ensures ReadConfigForYear(rows, year) == []
    decreases |rows|
  {
    if rows != [] {
      assert forall i :: 1 <= i < |rows| ==> rows[1..][i - 1] == rows[i];
      ReadSkipsOtherYears(rows[1..], year);
    }
  }

  // ---------------------------------------------------------------------------
  // Keys

  /** The composite key: club id and academic year joined by '|'. */
  function Key(clubId: string, year: string): (k: string)
    ensures |k| == |clubId| + 1 + |year|
  {
    clubId + "|" + year
  }

  /** The key of a stored row, missing cells read as "". */
  function RowKey(r: Row): (k: string)
    ensures |r| >= 4 ==> k == Key(r[0], r[3])
  {
    Key(Cell(r, 0), Cell(r, 3))
  }

  /** Within one year the joined key determines the club id. */
  lemma {:induction false} KeyDeterminesClub(c1: string, c2: string, year: string)
    requires Key(c1, year) == Key(c2, year)
    ensures c1 == c2
  {
    assert |c1| == |c2|;
    assert c1 == Key(c1, year)[..|c1|] == Key(c2, year)[..|c2|] == c2;
  }

  /** When club ids contain no '|', the joined key is the pair (clubId, year). */
  lemma KeyIsPair(c1: string, y1: string, c2: string, y2: string)
    requires '|' !in c1 && '|' !in c2
    ensures Key(c1, y1) == Key(c2, y2) <==> c1 == c2 && y1 == y2
  {
    if Key(c1, y1) == Key(c2, y2) {
      assert Key(c1, y1) == c1 + ['|'] + y1;
      assert Key(c2, y2) == c2 + ['|'] + y2;
      SplitAtSeparator('|', c1, y1, c2, y2);
    }
  }

  /** Without that condition two different (club, year) pairs can share a key. */
  lemma KeysCollideAcrossYears()
    ensures Key("a|b", "2025/2026") == Key("a", "b|2025/2026")
  {
  }

  /** A freshly written row carries the key it was written under. */
  lemma NewRowKey(u: Update, year: string, now: string)
    ensures RowKey(NewRow(u, year, now)) == Key(u.clubId, year)
  {
  }

  // ---------------------------------------------------------------------------
  // The key index `idxByKey`

  /** Key `k` occurs in the table. */
  predicate Occurs(rows: Table, k: string) {
    exists i :: 0 <= i < |rows| && RowKey(rows[i]) == k
  }

  /** Row `i` is the last row whose key is `k`. */
  predicate IsLastIndexOf(rows: Table, k: string, i: nat) {
    i < |rows| && RowKey(rows[i]) == k && forall j :: i < j < |rows| ==> RowKey(rows[j]) != k
  }

  /**
   * The key index the source builds from the stored rows: the
   * rows are visited in order and a later `set` overwrites an earlier one.
   */
  function IndexByKey(rows: Table): (index: map<string, nat>)
    ensures forall k :: k in index ==> index[k] < |rows|
    decreases |rows|
  {
    if rows == [] then map[]
    else IndexByKey(rows[..|rows| - 1])[RowKey(rows[|rows| - 1]) := |rows| - 1]
  }

  /** The index holds exactly the keys of the table, each at its last row. */
  lemma {:induction false} IndexByKeyIsLastOccurrence(rows: Table)
    ensures forall k :: k in IndexByKey(rows) <==> Occurs(rows, k)
    ensures forall k :: k in IndexByKey(rows) ==> IsLastIndexOf(rows, k, IndexByKey(rows)[k])
    decreases |rows|
  {
    if rows != [] {
      var init := rows[..|rows| - 1];
      var last := |rows| - 1;
      IndexByKeyIsLastOccurrence(init);
      assert forall i :: 0 <= i < last ==> init[i] == rows[i];
      forall k | Occurs(rows, k) ensures k in IndexByKey(rows) {
        var i :| 0 <= i < |rows| && RowKey(rows[i]) == k;
        if i < last { assert Occurs(init, k); }
      }
      forall k | k in IndexByKey(rows) ensures Occurs(rows, k) && IsLastIndexOf(rows, k, IndexByKey(rows)[k]) {
        if k != RowKey(rows[last]) {
          assert IsLastIndexOf(init, k, IndexByKey(init)[k]);
        }
      }
    }
  }

  /** Distinct keys sit at distinct rows. */
  lemma IndexByKeyInjective(rows: Table, k1: string, k2: string)
    requires k1 in IndexByKey(rows) && k2 in IndexByKey(rows) && k1 != k2
    ensures IndexByKey(rows)[k1] != IndexByKey(rows)[k2]
  {
    IndexByKeyIsLastOccurrence(rows);
  }

  // ---------------------------------------------------------------------------
  // The upsert plan and its effect

  /** The five cells written for an update: its three fields, the academic year and the time stamp. */
  function NewRow(u: Update, year: string, now: string): (row: Row)
    ensures |row| == 5 && row[3] == year && row[4] == now
  {
    [u.clubId, u.clubName, u.sheetId, year, now]
  }

  /** One entry of `dataToUpdate`: the sheet row `A{rowNumber}:E{rowNumber}` and its new cells. */
  datatype RangeWrite = RangeWrite(rowNumber: nat, values: Row)

  /** The two lists `upsertConfigRows` builds: in-place overwrites and appends. */
  datatype UpsertPlan = UpsertPlan(toUpdate: seq<RangeWrite>, toAppend: seq<Row>)

  /** A key already in the index sends its update to that row. */
  predicate Targets(index: map<string, nat>, u: Update, year: string) {
    Key(u.clubId, year) in index
  }

  /**
   * The loop over the updates against a fixed index: a key found in
   * the index schedules an overwrite of sheet row index + 2, any other key an
   * append. The index is not updated inside the loop.
   */
  function PlanUpsert(index: map<string, nat>, updates: seq<Update>, year: string, now: string): (plan: UpsertPlan)
    ensures |plan.toUpdate| + |plan.toAppend| == |updates|
    ensures forall k :: 0 <= k < |plan.toUpdate| ==>
      var v := plan.toUpdate[k].values; |v| == 5 && v[3] == year && v[4] == now
    ensures forall k :: 0 <= k < |plan.toAppend| ==>
      var v := plan.toAppend[k]; |v| == 5 && v[3] == year && v[4] == now
    decreases |updates|
  {
    if updates == [] then UpsertPlan([], [])
    else
      var plan := PlanUpsert(index, updates[..|updates| - 1], year, now);
      var u := updates[|updates| - 1];
      var key := Key(u.clubId, year);
      if key in index then
        plan.(toUpdate := plan.toUpdate + [RangeWrite(index[key] + 2, NewRow(u, year, now))])
      else
        plan.(toAppend := plan.toAppend + [NewRow(u, year, now)])
  }

  /** Every write addresses a row below the header and inside the table. */
  predicate WritesWithin(writes: seq<RangeWrite>, n: nat) {
    forall k :: 0 <= k < |writes| ==> 2 <= writes[k].rowNumber < n + 2
  }

  /** `values.batchUpdate`: the writes are applied in order, each replacing one row. */
  function ApplyWrites(rows: Table, writes: seq<RangeWrite>): (r: Table)
    requires WritesWithin(writes, |rows|)
    ensures |r| == |rows|
    decreases |writes|
  {
    if writes == [] then rows
    else
      var w := writes[|writes| - 1];
      ApplyWrites(rows, writes[..|writes| - 1])[w.rowNumber - 2 := w.values]
  }

  /** Every index entry points into a table of `n` rows. */
  predicate IndexWithin(index: map<string, nat>, n: nat) {
    forall k :: k in index ==> index[k] < n
  }

  /**
   * The updates taken one at a time against the fixed index of the original
   * table: a known key overwrites its row in place, an unknown key adds a row
   * at the end.
   */
  function UpsertWith(rows: Table, index: map<string, nat>, updates: seq<Update>, year: string, now: string): (t: Table)
    requires IndexWithin(index, |rows|)
    ensures |t| >= |rows|
    decreases |updates|
  {
    if updates == [] then rows
    else
      var t := UpsertWith(rows, index, updates[..|updates| - 1], year, now);
      var u := updates[|updates| - 1];
      var key := Key(u.clubId, year);
      if key in index then t[index[key] := NewRow(u, year, now)] else t + [NewRow(u, year, now)]
  }

  /** The config table after `upsertConfigRows(updates, year)` run at time `now`. */
  function Upserted(rows: Table, updates: seq<Update>, year: string, now: string): (t: Table)
    ensures |t| >= |rows|
  {
    UpsertWith(rows, IndexByKey(rows), updates, year, now)
  }

  /** Every overwrite the plan schedules addresses a stored row. */
  lemma {:induction false} PlanWritesWithin(index: map<string, nat>, updates: seq<Update>, year: string, now: string, n: nat)
    requires IndexWithin(index, n)
    ensures WritesWithin(PlanUpsert(index, updates, year, now).toUpdate, n)
    decreases |updates|
  {
    if updates != [] {
      PlanWritesWithin(index, updates[..|updates| - 1], year, now, n);
    }
  }

  /** The plan for one more update extends one of the two lists. */
  lemma PlanSnoc(index: map<string, nat>, init: seq<Update>, u: Update, year: string, now: string)
    ensures var p0 := PlanUpsert(index, init, year, now);
      var key := Key(u.clubId, year);
      PlanUpsert(index, init + [u], year, now) ==
        if key in index then UpsertPlan(p0.toUpdate + [RangeWrite(index[key] + 2, NewRow(u, year, now))], p0.toAppend)
        else UpsertPlan(p0.toUpdate, p0.toAppend + [NewRow(u, year, now)])
  {
    assert (init + [u])[..|init|] == init;
  }

  /** The two-phase table and the one-at-a-time table agree for a list of updates. */
  predicate TwoPhaseAgrees(rows: Table, index: map<string, nat>, updates: seq<Update>, year: string, now: string)
    requires IndexWithin(index, |rows|)
  {
    var plan := PlanUpsert(index, updates, year, now);
    WritesWithin(plan.toUpdate, |rows|) &&
    ApplyWrites(rows, plan.toUpdate) + plan.toAppend == UpsertWith(rows, index, updates, year, now)
  }

  lemma UpsertWithSnoc(rows: Table, index: map<string, nat>, init: seq<Update>, u: Update, year: string, now: string)
    requires IndexWithin(index, |rows|)
    ensures var t0 := UpsertWith(rows, index, init, year, now);
      var key := Key(u.clubId, year);
      UpsertWith(rows, index, init + [u], year, now) ==
        if key in index then t0[index[key] := NewRow(u, year, now)] else t0 + [NewRow(u, year, now)]
  {
    assert (init + [u])[..|init|] == init;
  }

  lemma OverwriteBeforeAppend(a: Table, b: Table, p: nat, row: Row)
    requires p < |a|
    ensures (a + b)[p := row] == a[p := row] + b
  {
  }

  lemma TwoPhaseStepOverwrite(rows: Table, index: map<string, nat>, init: seq<Update>, u: Update, year: string, now: string)
    requires IndexWithin(index, |rows|) && Key(u.clubId, year) in index
    requires TwoPhaseAgrees(rows, index, init, year, now)
    ensures TwoPhaseAgrees(rows, index, init + [u], year, now)
  {
    var key := Key(u.clubId, year);
    var row := NewRow(u, year, now);
    PlanWritesWithin(index, init + [u], year, now, |rows|);
    PlanSnoc(index, init, u, year, now);
    UpsertWithSnoc(rows, index, init, u, year, now);
    var p0 := PlanUpsert(index, init, year, now);
    var w := RangeWrite(index[key] + 2, row);
    ApplyWritesSnoc(rows, p0.toUpdate, w);
    OverwriteBeforeAppend(ApplyWrites(rows, p0.toUpdate), p0.toAppend, index[key], row);
  }

  lemma TwoPhaseStepAppend(rows: Table, index: map<string, nat>, init: seq<Update>, u: Update, year: string, now: string)
    requires IndexWithin(index, |rows|) && Key(u.clubId, year) !in index
    requires TwoPhaseAgrees(rows, index, init, year, now)
    ensures TwoPhaseAgrees(rows, index, init + [u], year, now)
  {
    var row := NewRow(u, year, now);
    PlanSnoc(index, init, u, year, now);
    UpsertWithSnoc(rows, index, init, u, year, now);
    var p0 := PlanUpsert(index, init, year, now);
    var a0 := ApplyWrites(rows, p0.toUpdate);
    assert a0 + (p0.toAppend + [row]) == (a0 + p0.toAppend) + [row];
  }

  /**
   * The two phases of the source, all overwrites as one batch and then all
   * appends as one append, give the table of the one-at-a-time reading.
   */
  lemma {:induction false} TwoPhaseMatchesUpsert(rows: Table, index: map<string, nat>, updates: seq<Update>, year: string, now: string)
    requires IndexWithin(index, |rows|)
    ensures TwoPhaseAgrees(rows, index, updates, year, now)
    decreases |updates|
  {
    if updates != [] {
      var init, u := updates[..|updates| - 1], updates[|updates| - 1];
      assert updates == init + [u];
      TwoPhaseMatchesUpsert(rows, index, init, year, now);
      if Key(u.clubId, year) in index {
        TwoPhaseStepOverwrite(rows, index, init, u, year, now);
      } else {
        TwoPhaseStepAppend(rows, index, init, u, year, now);
      }
    }
  }

  lemma ApplyWritesSnoc(rows: Table, writes: seq<RangeWrite>, w: RangeWrite)
    requires WritesWithin(writes + [w], |rows|)
    ensures WritesWithin(writes, |rows|) && 2 <= w.rowNumber < |rows| + 2
    ensures ApplyWrites(rows, writes + [w]) == ApplyWrites(rows, writes)[w.rowNumber - 2 := w.values]
  {
    var all := writes + [w];
    assert all[..|writes|] == writes;
    assert all[|writes|] == w;
    forall k | 0 <= k < |writes|
      ensures 2 <= writes[k].rowNumber < |rows| + 2
    {
      assert writes[k] == all[k];
    }
  }

  /** A single update: overwrite in place when its key is indexed, otherwise append. */
  lemma UpsertOne(rows: Table, index: map<string, nat>, u: Update, year: string, now: string)
    requires IndexWithin(index, |rows|)
    ensures UpsertWith(rows, index, [u], year, now) ==
      if Targets(index, u, year) then rows[index[Key(u.clubId, year)] := NewRow(u, year, now)]
      else rows + [NewRow(u, year, now)]
  {
    assert [u][..0] == [];
  }
}
