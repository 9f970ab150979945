/**
 * `upsertConfigRows` (app/lib/google.ts:86-139) as the source runs it: read
 * the rows once, fill the key index in a loop, split the updates into
 * overwrites and appends in a second loop, then issue at most one
 * `values.batchUpdate` and at most one `values.append` against the config
 * sheet.
 */
module ConfigSheet {
  import opened Wrappers
  import opened Remote
  import opened ConfigStore

  /** The table an upsert leaves behind, how many remote calls it issued, and whether it got through. */
  datatype UpsertOutcome = UpsertOutcome(rows: Table, calls: nat, completed: bool)

  /**
   * The writes of a planned upsert issued as remote calls `next`, ... under
   * `fault`: the batched overwrite if there is one, then the append if there
   * is one. A throwing call ends the upsert and leaves whatever the call
   * before it wrote. `calls` counts the writes issued.
   */
  function PlanRun(rows: Table, plan: UpsertPlan, fault: Fault, next: nat): (r: UpsertOutcome)
    requires WritesWithin(plan.toUpdate, |rows|)
    ensures r.calls <= 2
    ensures r.completed ==> r.rows == ApplyWrites(rows, plan.toUpdate) + plan.toAppend
    ensures !r.completed ==> r.rows == rows || r.rows == ApplyWrites(rows, plan.toUpdate)
  {
    var batch := if |plan.toUpdate| > 0 then 1 else 0;
    if batch == 1 && Fails(fault, next) then UpsertOutcome(rows, 1, false)
    else
      var overwritten := ApplyWrites(rows, plan.toUpdate);
      var append := if |plan.toAppend| > 0 then 1 else 0;
      if append == 1 && Fails(fault, next + batch) then UpsertOutcome(overwritten, 1 + batch, false)
      else UpsertOutcome(overwritten + plan.toAppend, batch + append, true)
  }

  /**
   * The upsert issued as remote calls `first`, `first + 1`, ... under `fault`:
   * the read, then the writes of its plan.
   */
  function UpsertRun(rows: Table, updates: seq<Update>, year: string, now: string, fault: Fault, first: nat): (r: UpsertOutcome)
    ensures 1 <= r.calls <= 3
  {
    if Fails(fault, first) then UpsertOutcome(rows, 1, false)
    else
      var plan := PlanUpsert(IndexByKey(rows), updates, year, now);
      PlanWritesWithin(IndexByKey(rows), updates, year, now, |rows|);
      var w := PlanRun(rows, plan, fault, first + 1);
      UpsertOutcome(w.rows, 1 + w.calls, w.completed)
  }

  /** A completed upsert leaves exactly the upserted table. */
  lemma CompletedRunUpserts(rows: Table, updates: seq<Update>, year: string, now: string, fault: Fault, first: nat)
    ensures var r := UpsertRun(rows, updates, year, now, fault, first);
      r.completed ==> r.rows == Upserted(rows, updates, year, now)
  {
    TwoPhaseMatchesUpsert(rows, IndexByKey(rows), updates, year, now);
  }

  /** Without a fault the upsert completes. */
  lemma HealthyRunCompletes(rows: Table, updates: seq<Update>, year: string, now: string, first: nat)
    ensures UpsertRun(rows, updates, year, now, NoFault, first).completed
  {
  }

  /**
   * An upsert that throws has appended nothing: the table keeps its length
   * and is either unchanged or carries only the batched overwrites.
   */
  lemma FailedRunAppendsNothing(rows: Table, updates: seq<Update>, year: string, now: string, fault: Fault, first: nat)
    ensures var r := UpsertRun(rows, updates, year, now, fault, first);
      var plan := PlanUpsert(IndexByKey(rows), updates, year, now);
      !r.completed ==>
        |r.rows| == |rows| &&
        (r.rows == rows || (WritesWithin(plan.toUpdate, |rows|) && r.rows == ApplyWrites(rows, plan.toUpdate)))
  {
    PlanWritesWithin(IndexByKey(rows), updates, year, now, |rows|);
  }

  /**
   * A completed upsert issued one read, one batched overwrite exactly when
   * some update's key was stored, and one append exactly when some was not;
   * never one call per row.
   */
  lemma CompletedRunCalls(rows: Table, updates: seq<Update>, year: string, now: string, fault: Fault, first: nat)
    ensures var r := UpsertRun(rows, updates, year, now, fault, first);
      var plan := PlanUpsert(IndexByKey(rows), updates, year, now);
      r.completed ==> r.calls == 1 + (if |plan.toUpdate| > 0 then 1 else 0) + (if |plan.toAppend| > 0 then 1 else 0)
  {
  }

  /** The loop over the stored rows that fills the key index, later rows overwriting earlier ones. */
  method BuildIndex(rows: Table) returns (index: map<string, nat>)
    ensures index == IndexByKey(rows)
  {
    index := map[];
    var i := 0;
    while i < |rows|
      invariant 0 <= i <= |rows|
      invariant index == IndexByKey(rows[..i])
    {
      assert rows[..i + 1][..i] == rows[..i];
      index := index[RowKey(rows[i]) := i];
      i := i + 1;
    }
    assert rows[..i] == rows;
  }

  /** The loop over the updates that fills the overwrite list and the append list. */
  method PlanUpdates(index: map<string, nat>, updates: seq<Update>, year: string, now: string)
    returns (dataToUpdate: seq<RangeWrite>, dataToAppend: seq<Row>)
    ensures UpsertPlan(dataToUpdate, dataToAppend) == PlanUpsert(index, updates, year, now)
    ensures |dataToUpdate| + |dataToAppend| == |updates|
  {
    dataToUpdate, dataToAppend := [], [];
    var i := 0;
    while i < |updates|
      invariant 0 <= i <= |updates|
      invariant UpsertPlan(dataToUpdate, dataToAppend) == PlanUpsert(index, updates[..i], year, now)
    {
      var u := updates[i];
      assert updates[..i + 1] == updates[..i] + [u];
      PlanSnoc(index, updates[..i], u, year, now);
      var key := Key(u.clubId, year);
      if key in index {
        var rowNumber := index[key] + 2;
        dataToUpdate := dataToUpdate + [RangeWrite(rowNumber, [u.clubId, u.clubName, u.sheetId, year, now])];
      } else {
        dataToAppend := dataToAppend + [[u.clubId, u.clubName, u.sheetId, year, now]];
      }
      i := i + 1;
    }
    assert updates[..i] == updates;
  }

  /** The config spreadsheet's data rows (A2:E) and the requests it has received. */
  class ConfigSheet {
    var rows: Table
    var probes: nat
    var gets: nat
    var batchUpdates: nat
    var appends: nat

    constructor (rows: Table)
      ensures this.rows == rows && probes == 0 && gets == 0 && batchUpdates == 0 && appends == 0
    {
      this.rows := rows;
      probes, gets, batchUpdates, appends := 0, 0, 0, 0;
    }

    /**
     * `ensureConfigSheet` with `CONFIG_SPREADSHEET_ID` set: one
     * `spreadsheets.get` that throws when the id is invalid or not shared.
     */
    method EnsureConfigSheet(fails: bool) returns (found: bool)
      modifies this`probes
      ensures probes == old(probes) + 1 && found == !fails
    {
      probes := probes + 1;
      found := !fails;
    }

    /** `values.get` of A2:E. */
    method ValuesGet(fails: bool) returns (values: Option<Table>)
      modifies this`gets
      ensures gets == old(gets) + 1
      ensures values == if fails then None else Some(rows)
    {
      gets := gets + 1;
      values := if fails then None else Some(rows);
    }

    /** `readConfigForYear`: one `values.get` of A2:E, then the pure parse and filter. */
    method ReadConfig(year: string, fails: bool) returns (clubs: Option<seq<ClubConfigRow>>)
      modifies this`gets
      ensures gets == old(gets) + 1
      ensures clubs == if fails then None else Some(ReadConfigForYear(rows, year))
    {
      var values := ValuesGet(fails);
      clubs := if values == None then None else Some(ReadConfigForYear(values.value, year));
    }

    /** `values.batchUpdate`: each range write replaces one data row. */
    method BatchUpdate(data: seq<RangeWrite>, fails: bool) returns (ok: bool)
      requires WritesWithin(data, |rows|)
      modifies this`rows, this`batchUpdates
      ensures batchUpdates == old(batchUpdates) + 1 && ok == !fails
      ensures rows == if fails then old(rows) else ApplyWrites(old(rows), data)
    {
      batchUpdates := batchUpdates + 1;
      ok := !fails;
      if ok {
        rows := ApplyWrites(rows, data);
      }
    }

    /** `values.append` with INSERT_ROWS: the rows go after the last data row. */
    method Append(values: seq<Row>, fails: bool) returns (ok: bool)
      modifies this`rows, this`appends
      ensures appends == old(appends) + 1 && ok == !fails
      ensures rows == if fails then old(rows) else old(rows) + values
    {
      appends := appends + 1;
      ok := !fails;
      if ok {
        rows := rows + values;
      }
    }

    /**
     * `upsertConfigRows` with its
     * remote calls numbered from `first`. The table and the call count
     * follow `UpsertRun`; each of the two writes is issued at most once and
     * only when its list is non-empty.
     */
    method UpsertConfigRows(updates: seq<Update>, year: string, now: string, fault: Fault, first: nat)
      returns (completed: bool, calls: nat)
      modifies this`rows, this`gets, this`batchUpdates, this`appends
      ensures UpsertOutcome(rows, calls, completed) == UpsertRun(old(rows), updates, year, now, fault, first)
      ensures gets == old(gets) + 1
      ensures (gets - old(gets)) + (batchUpdates - old(batchUpdates)) + (appends - old(appends)) == calls
      ensures batchUpdates <= old(batchUpdates) + 1 && appends <= old(appends) + 1
      ensures var plan := PlanUpsert(IndexByKey(old(rows)), updates, year, now);
        (plan.toUpdate == [] ==> batchUpdates == old(batchUpdates)) &&
        (plan.toAppend == [] ==> appends == old(appends))
    {
      var got := ValuesGet(Fails(fault, first));
      if got == None {
        return false, 1;
      }
      var current := got.value;
      var index := BuildIndex(current);
      var dataToUpdate, dataToAppend := PlanUpdates(index, updates, year, now);
      PlanWritesWithin(index, updates, year, now, |current|);
      var writes;
      completed, writes := WritePlan(UpsertPlan(dataToUpdate, dataToAppend), fault, first + 1);
      calls := 1 + writes;
    }

    /**
     * The two writes of `upsertConfigRows`: one `values.batchUpdate` of the
     * overwrites, if any, then one `values.append` of the new rows, if any,
     * stopping at the first that throws.
     */
    method WritePlan(plan: UpsertPlan, fault: Fault, next: nat) returns (completed: bool, writes: nat)
      requires WritesWithin(plan.toUpdate, |rows|)
      modifies this`rows, this`batchUpdates, this`appends
      ensures UpsertOutcome(rows, writes, completed) == PlanRun(old(rows), plan, fault, next)
      ensures (batchUpdates - old(batchUpdates)) + (appends - old(appends)) == writes
      ensures batchUpdates == old(batchUpdates) + (if plan.toUpdate == [] then 0 else 1)
      ensures appends <= old(appends) + 1 && (plan.toAppend == [] ==> appends == old(appends))
    {
      writes := 0;
      if |plan.toUpdate| > 0 {
        var ok := BatchUpdate(plan.toUpdate, Fails(fault, next));
        writes := 1;
        if !ok {
          return false, 1;
        }
      }
      if |plan.toAppend| > 0 {
        var ok := Append(plan.toAppend, Fails(fault, next + writes));
        writes := writes + 1;
        if !ok {
          return false, writes;
        }
      }
      completed := true;
    }
  }
}
