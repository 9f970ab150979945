/**
 * app/api/submit-registration/route.ts: append the registration the
 * browser sends, cell for cell, as one row of one spreadsheet.
 */
module SubmitRegistration {
  import opened Wrappers
  import opened Remote
  import opened ConfigStore
  import opened Workspace
  import opened Http

  /** The `data` object as sent: every cell already a string. */
  datatype SubmittedData = SubmittedData(
    timestamp: string, email: string, name: string, grade: string,
    photoConsent: string, discord: string)

  /** The outcome of parsing the request body; absent fields are `None`. */
  datatype SubmitRequest = Unparseable | Parsed(sheetId: Option<string>, data: Option<SubmittedData>)

  datatype SubmitOutcome = SubmitOutcome(response: Response, grids: map<string, Table>)

  const SubmitFailed := "Failed to submit registration"

  /**
   * The route's row: six cells. Unlike the multi-destination route, which
   * turns consent into "Yes"/"No" and fills a blank discord, this route
   * stores the consent and discord cells as sent.
   */
  function RawRow(data: SubmittedData): (row: Row)
    ensures |row| == 6
    ensures row[4] == data.photoConsent && row[5] == data.discord
  {
    [data.timestamp, data.email, data.name, data.grade, data.photoConsent, data.discord]
  }

  /** The row determines the data it was built from. */
  lemma RawRowInjective(a: SubmittedData, b: SubmittedData)
    requires RawRow(a) == RawRow(b)
    ensures a == b
  {
    assert a.timestamp == RawRow(a)[0] && a.email == RawRow(a)[1] && a.name == RawRow(a)[2];
    assert a.grade == RawRow(a)[3] && a.photoConsent == RawRow(a)[4] && a.discord == RawRow(a)[5];
  }

  /**
   * The route as a function of the spreadsheets and the outcome of its one
   * append; a request without `data` or `sheetId` throws before appending.
   */
  function SubmitRun(grids: map<string, Table>, request: SubmitRequest, outcome: CallOutcome): (o: SubmitOutcome)
    ensures o.response.status in {200, 500}
  {
    if request.Unparseable? || request.data.None? || request.sheetId.None? || outcome.Throws? then
      SubmitOutcome(Error(500, SubmitFailed), grids)
    else
      var sid := request.sheetId.value;
      SubmitOutcome(Json(SubmittedBody), grids[sid := Grid(grids, sid) + [RawRow(request.data.value)]])
  }

  /**
   * Success comes with exactly one more row, at the end of the named
   * spreadsheet, and no other change; every failure is the fixed 500 with
   * the spreadsheets untouched.
   */
  lemma SubmitAppendsOneRow(grids: map<string, Table>, request: SubmitRequest, outcome: CallOutcome)
    ensures var o := SubmitRun(grids, request, outcome);
      (o.response.status == 200 <==>
        request.Parsed? && request.sheetId.Some? && request.data.Some? && outcome.Succeeds?) &&
      (o.response.status == 200 ==>
        o.response.body == SubmittedBody &&
        Grid(o.grids, request.sheetId.value) == Grid(grids, request.sheetId.value) + [RawRow(request.data.value)] &&
        forall other :: other != request.sheetId.value ==> Grid(o.grids, other) == Grid(grids, other)) &&
      (o.response.status == 500 ==> o.response == Error(500, SubmitFailed) && o.grids == grids)
  {
  }

  /** The route issuing its one append against the workspace. */
  method Submit(ws: Workspace, request: SubmitRequest, outcome: CallOutcome) returns (response: Response)
    modifies ws
    ensures SubmitOutcome(response, ws.grids) == SubmitRun(old(ws.grids), request, outcome)
    ensures ws.files == old(ws.files) && ws.formats == old(ws.formats)
  {
    if request.Unparseable? || request.data.None? || request.sheetId.None? {
      return Error(500, SubmitFailed);
    }
    var values := [RawRow(request.data.value)];
    var ok := ws.AppendRows(request.sheetId.value, values, outcome.Throws?);
    if !ok {
      return Error(500, SubmitFailed);
    }
    response := Json(SubmittedBody);
  }
}
