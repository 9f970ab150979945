/**
 * app/api/submit-registration-multi/route.ts: append one registration row
 * to each spreadsheet of `sheetIds`, one after the other, recording for
 * each whether its append succeeded. A failed append does not stop the
 * ones after it.
 */
module SubmitRegistrationMulti {
  import opened Wrappers
  import opened Remote
  import opened ConfigStore
  import opened Workspace
  import opened Http

  /** The `data` object of the request, with consent as a boolean. */
  datatype Registration = Registration(
    timestamp: string, email: string, name: string, grade: string,
    photoConsent: bool, discord: string)

  /** What `sheetIds` held: absent, some other JSON value, or an array. */
  datatype SheetIdsField = NoSheetIds | NotAList | SheetIdList(ids: seq<string>)

  /** The outcome of parsing the request body; `data` is `None` when absent. */
  datatype MultiRequest = Unparseable | Parsed(sheetIds: SheetIdsField, data: Option<Registration>)

  /** The response and the spreadsheets' rows the request leaves behind. */
  datatype MultiOutcome = MultiOutcome(response: Response, grids: map<string, Table>)

  const SubmitFailed := "Failed to submit"

  /** The six cells appended to every destination. */
  function RegistrationRow(data: Registration): (row: Row)
    ensures |row| == 6
    ensures row[0] == data.timestamp && row[1] == data.email && row[2] == data.name && row[3] == data.grade
    ensures row[4] == (if data.photoConsent then "Yes" else "No")
    ensures row[5] == (if data.discord == "" then "Not provided" else data.discord)
  {
    [data.timestamp, data.email, data.name, data.grade,
     if data.photoConsent then "Yes" else "No",
     if data.discord == "" then "Not provided" else data.discord]
  }

  /** The consent cell is always one of two words, and the discord cell is never blank. */
  lemma RowCellsAreFilled(data: Registration)
    ensures RegistrationRow(data)[4] in {"Yes", "No"}
    ensures RegistrationRow(data)[5] != ""
    ensures data.discord != "" ==> RegistrationRow(data)[5] == data.discord
  {
  }

  /** The `results` entry of one destination: the error message, or "Unknown error" when it is empty. */
  function DeliveryOf(sheetId: string, outcome: CallOutcome): (d: Delivery)
    ensures d.sheetId == sheetId
    ensures d.ok <==> outcome.Succeeds?
    ensures d.ok ==> d.error == None
    ensures outcome.Throws? ==> d.error == Some(if outcome.message == "" then "Unknown error" else outcome.message)
  {
    match outcome
    case Succeeds => Delivery(sheetId, true, None)
    case Throws(message) => Delivery(sheetId, false, Some(if message == "" then "Unknown error" else message))
  }

  /** `results` after the loop: one entry per destination, in order, duplicates included. */
  function Deliveries(ids: seq<string>, fate: string -> CallOutcome): (results: seq<Delivery>)
    ensures |results| == |ids|
    ensures forall i :: 0 <= i < |ids| ==> results[i] == DeliveryOf(ids[i], fate(ids[i]))
  {
    if ids == [] then []
    else Deliveries(ids[..|ids| - 1], fate) + [DeliveryOf(ids[|ids| - 1], fate(ids[|ids| - 1]))]
  }

  /** The number of successful destinations, reported as `ok`. */
  function OkCount(results: seq<Delivery>): (n: nat)
    ensures n <= |results|
  {
    if results == [] then 0
    else OkCount(results[..|results| - 1]) + (if results[|results| - 1].ok then 1 else 0)
  }

  /** The count splits over a concatenation: each result adds one exactly when it is ok. */
  lemma {:induction false} OkCountConcat(a: seq<Delivery>, b: seq<Delivery>)
    ensures OkCount(a + b) == OkCount(a) + OkCount(b)
    decreases |b|
  {
    if b == [] {
      assert a + b == a;
    } else {
      var init := b[..|b| - 1];
      assert (a + b)[..|a + b| - 1] == a + init;
      OkCountConcat(a, init);
    }
  }

  /** Result i contributes exactly one to `ok` when it succeeded and nothing otherwise. */
  lemma OkCountAt(results: seq<Delivery>, i: nat)
    requires i < |results|
    ensures OkCount(results) == OkCount(results[..i]) + (if results[i].ok then 1 else 0) + OkCount(results[i + 1..])
  {
    var front, x, back := results[..i], results[i], results[i + 1..];
    assert results == (front + [x]) + back;
    OkCountConcat(front + [x], back);
    OkCountConcat(front, [x]);
    assert [x][..0] == [];
  }

  /** `ok` reaches `total` exactly when every append succeeded, and is 0 exactly when none did. */
  lemma {:induction false} OkCountBounds(results: seq<Delivery>)
    ensures OkCount(results) == |results| <==> forall i :: 0 <= i < |results| ==> results[i].ok
    ensures OkCount(results) == 0 <==> forall i :: 0 <= i < |results| ==> !results[i].ok
  {
    if results != [] {
      var init := results[..|results| - 1];
      OkCountBounds(init);
      assert forall i :: 0 <= i < |init| ==> init[i] == results[i];
    }
  }

  /** `n` copies of `values`, one after the other. */
  function Repeat(values: Table, n: nat): (t: Table)
    ensures |t| == n * |values|
  {
    if n == 0 then [] else Repeat(values, n - 1) + values
  }

  /** How often `d` occurs in `ids`. */
  function Occurrences(ids: seq<string>, d: string): (n: nat)
    ensures n <= |ids|
  {
    if ids == [] then 0
    else Occurrences(ids[..|ids| - 1], d) + (if ids[|ids| - 1] == d then 1 else 0)
  }

  /** The spreadsheets after appending `values` to each destination whose append succeeds. */
  function Delivered(grids: map<string, Table>, ids: seq<string>, values: Table, fate: string -> CallOutcome)
    : (after: map<string, Table>)
    ensures forall d :: d in grids ==> d in after
    ensures forall d :: d !in ids ==> Grid(after, d) == Grid(grids, d)
  {
    if ids == [] then grids
    else
      var before := Delivered(grids, ids[..|ids| - 1], values, fate);
      var sid := ids[|ids| - 1];
      if fate(sid).Succeeds? then before[sid := Grid(before, sid) + values] else before
  }

  /**
   * Each spreadsheet whose append succeeds gains the row once per time it
   * is listed, at its end; a spreadsheet whose append fails, or that is not
   * listed, keeps its rows.
   */
  lemma {:induction false} DeliveredGrid(grids: map<string, Table>, ids: seq<string>, values: Table,
                                         fate: string -> CallOutcome, d: string)
    ensures Grid(Delivered(grids, ids, values, fate), d)
         == Grid(grids, d) + (if fate(d).Succeeds? then Repeat(values, Occurrences(ids, d)) else [])
  {
    if ids != [] {
      var init := ids[..|ids| - 1];
      DeliveredGrid(grids, init, values, fate, d);
      DeliveredStep(grids, ids, values, fate, d);
      RepeatStep(Grid(grids, d), Grid(Delivered(grids, init, values, fate), d), Grid(Delivered(grids, ids, values, fate), d),
                 values, Occurrences(init, d), ids[|ids| - 1] == d, fate(d).Succeeds?);
    }
  }

  /** One more destination adds one more copy exactly when it is `d` and succeeds. */
  lemma RepeatStep(g: Table, before: Table, after: Table, values: Table, k: nat, hit: bool, succeeds: bool)
    requires before == g + (if succeeds then Repeat(values, k) else [])
    requires after == before + (if hit && succeeds then values else [])
    ensures after == g + (if succeeds then Repeat(values, k + (if hit then 1 else 0)) else [])
  {
    if hit && succeeds {
      assert Repeat(values, k + 1) == Repeat(values, k) + values;
    }
  }

  /** The last destination adds `values` to its own spreadsheet when its append succeeds, and nothing elsewhere. */
  lemma DeliveredStep(grids: map<string, Table>, ids: seq<string>, values: Table,
                      fate: string -> CallOutcome, d: string)
    requires ids != []
    ensures var init := ids[..|ids| - 1];
      var hit := ids[|ids| - 1] == d;
      Occurrences(ids, d) == Occurrences(init, d) + (if hit then 1 else 0) &&
      Grid(Delivered(grids, ids, values, fate), d)
        == Grid(Delivered(grids, init, values, fate), d) + (if hit && fate(d).Succeeds? then values else [])
  {
  }

  /** The route as a function of the spreadsheets and each destination's outcome. */
  function MultiRun(grids: map<string, Table>, request: MultiRequest, fate: string -> CallOutcome): (o: MultiOutcome)
    ensures o.response.status in {200, 400, 500}
  {
    match request
    case Unparseable => MultiOutcome(Error(500, SubmitFailed), grids)
    case Parsed(field, data) =>
      if !field.SheetIdList? || |field.ids| == 0 then MultiOutcome(Error(400, "sheetIds[] required"), grids)
      else if data.None? then MultiOutcome(Error(500, SubmitFailed), grids)
      else
        var results := Deliveries(field.ids, fate);
        MultiOutcome(Json(FanOutBody(OkCount(results), |results|, results)),
                     Delivered(grids, field.ids, [RegistrationRow(data.value)], fate))
  }

  /** A missing, non-array or empty `sheetIds` is a 400 before anything is appended. */
  lemma SheetIdsRequired(grids: map<string, Table>, request: MultiRequest, fate: string -> CallOutcome)
    ensures var o := MultiRun(grids, request, fate);
      (o.response.status == 400 <==> request.Parsed? && (!request.sheetIds.SheetIdList? || request.sheetIds.ids == [])) &&
      (o.response.status == 400 ==> o.response == Error(400, "sheetIds[] required") && o.grids == grids)
  {
  }

  /** Every failure other than the 400 is the fixed 500, also before anything is appended. */
  lemma FailureAppendsNothing(grids: map<string, Table>, request: MultiRequest, fate: string -> CallOutcome)
    ensures var o := MultiRun(grids, request, fate);
      o.response.status == 500 ==> o.response == Error(500, SubmitFailed) && o.grids == grids
  {
  }

  /**
   * A 200 reports one result per listed id in order, `total` equal to the
   * number of ids, `ok` counting the successful appends, and every failure
   * with its message; each spreadsheet gains the row once for each time it
   * is listed when its append succeeds, and nothing otherwise.
   */
  lemma FanOutReport(grids: map<string, Table>, ids: seq<string>, data: Registration,
                     fate: string -> CallOutcome, d: string)
    requires |ids| > 0
    ensures var o := MultiRun(grids, Parsed(SheetIdList(ids), Some(data)), fate);
      var results := o.response.body.results;
      o.response.status == 200 &&
      |results| == |ids| && o.response.body.total == |ids| &&
      o.response.body.ok == OkCount(results) &&
      (o.response.body.ok == |ids| <==> forall i :: 0 <= i < |ids| ==> fate(ids[i]).Succeeds?) &&
      (forall i :: 0 <= i < |ids| ==> results[i] == DeliveryOf(ids[i], fate(ids[i]))) &&
      Grid(o.grids, d) == Grid(grids, d) + (if fate(d).Succeeds? then Repeat([RegistrationRow(data)], Occurrences(ids, d)) else [])
  {
    var results := Deliveries(ids, fate);
    OkCountBounds(results);
    DeliveredGrid(grids, ids, [RegistrationRow(data)], fate, d);
  }

  /** The route issuing its appends against the workspace, one destination at a time. */
  method SubmitMulti(ws: Workspace, request: MultiRequest, fate: string -> CallOutcome) returns (response: Response)
    modifies ws
    ensures MultiOutcome(response, ws.grids) == MultiRun(old(ws.grids), request, fate)
    ensures ws.files == old(ws.files) && ws.formats == old(ws.formats)
  {
    if request.Unparseable? {
      return Error(500, SubmitFailed);
    }
    var field, data := request.sheetIds, request.data;
    if !field.SheetIdList? || |field.ids| == 0 {
      return Error(400, "sheetIds[] required");
    }
    if data.None? {
      return Error(500, SubmitFailed);
    }
    var sheetIds := field.ids;
    var values := [RegistrationRow(data.value)];
    var results: seq<Delivery> := [];
    var i := 0;
    while i < |sheetIds|
      invariant 0 <= i <= |sheetIds|
      invariant results == Deliveries(sheetIds[..i], fate)
      invariant ws.grids == Delivered(old(ws.grids), sheetIds[..i], values, fate)
      invariant ws.files == old(ws.files) && ws.formats == old(ws.formats)
    {
      var sid := sheetIds[i];
      assert sheetIds[..i + 1][..i] == sheetIds[..i];
      var ok := ws.AppendRows(sid, values, fate(sid).Throws?);
      if ok {
        results := results + [Delivery(sid, true, None)];
      } else {
        var message := fate(sid).message;
        results := results + [Delivery(sid, false, Some(if message == "" then "Unknown error" else message))];
      }
      i := i + 1;
    }
    assert sheetIds[..i] == sheetIds;
    response := Json(FanOutBody(OkCount(results), |results|, results));
  }
}
