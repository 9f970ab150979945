/**
 * app/api/club-config/route.ts and app/api/admin/save-config/route.ts: read
 * the current year's club configuration, and save a batch of updates to it
 * (behind the admin secret in the first route, ungated in the second).
 *
 * Each handler is given twice: as a function from the stored rows to the
 * response and the rows left behind, which the lemmas below are about, and
 * as a method issuing the same remote calls against a `ConfigSheet`, proved
 * to agree with the function.
 */
module ConfigRoutes {
  import opened Wrappers
  import opened Remote
  import opened SchoolYear
  import opened ConfigStore
  import opened ConfigSheet
  import opened Http

  /** What the body's `updates` member held: absent or falsy, some other JSON value, or an array. */
  datatype UpdatesField = NoUpdates | NotAnArray | UpdateList(list: seq<Update>)

  /** The outcome of parsing the request body as JSON, which throws on a body that is not JSON. */
  datatype RequestBody = Unparseable | Parsed(updates: UpdatesField)

  /** The response and the config rows the request leaves behind. */
  datatype Reply = Reply(response: Response, rows: Table)

  const LoadFailed := "Failed to load config"
  const SaveFailed := "Failed to save config"

  /**
   * `isAuthorized`: the `ADMIN_SECRET` environment value and the
   * `x-admin-secret` header must both be present and non-empty, and equal.
   */
  function IsAuthorized(adminSecret: Option<string>, provided: Option<string>): (authorized: bool)
    ensures authorized <==> adminSecret.Some? && adminSecret.value != "" && provided == adminSecret
  {
    adminSecret.Some? && adminSecret.value != "" && provided.Some? && provided.value != ""
      && provided.value == adminSecret.value
  }

  /** With no secret configured, no header opens the POST route. */
  lemma NoSecretLocksEveryone(adminSecret: Option<string>, provided: Option<string>)
    requires adminSecret == None || adminSecret == Some("")
    ensures !IsAuthorized(adminSecret, provided)
  {
  }

  /**
   * The validation both routes share: `updates` passes only as a non-empty
   * array (an absent or falsy value is read as the empty array).
   */
  function ValidUpdates(field: UpdatesField): (updates: Option<seq<Update>>)
    ensures updates.Some? <==> field.UpdateList? && |field.list| > 0
    ensures updates.Some? ==> updates.value == field.list
  {
    if field.UpdateList? && |field.list| > 0 then Some(field.list) else None
  }

  /**
   * The part of the save that touches the store: `ensureConfigSheet` (call
   * 0), `upsertConfigRows` (calls from 1), then `readConfigForYear`; any
   * throw answers 500 and keeps whatever the upsert already wrote.
   */
  function SaveUpdates(rows: Table, updates: seq<Update>, clock: Clock, fault: Fault): (reply: Reply)
    ensures reply.response.status in {200, 500}
  {
    var year := AcademicYear(clock.fullYear, clock.month);
    if Fails(fault, 0) then Reply(Error(500, SaveFailed), rows)
    else
      var run := UpsertRun(rows, updates, year, clock.isoNow, fault, 1);
      if !run.completed || Fails(fault, 1 + run.calls) then Reply(Error(500, SaveFailed), run.rows)
      else Reply(Json(ConfigBody(year, ReadConfigForYear(run.rows, year))), run.rows)
  }

  /** `GET /api/club-config`: `ensureConfigSheet` (call 0), then the read (call 1). */
  function ClubConfigGet(rows: Table, clock: Clock, fault: Fault): (response: Response)
    ensures response.status in {200, 500}
  {
    var year := AcademicYear(clock.fullYear, clock.month);
    if Fails(fault, 0) || Fails(fault, 1) then Error(500, LoadFailed)
    else Json(ConfigBody(year, ReadConfigForYear(rows, year)))
  }

  /** `POST /api/club-config`: authorize, parse, validate, then save. */
  function ClubConfigPost(adminSecret: Option<string>, provided: Option<string>, body: RequestBody,
                          rows: Table, clock: Clock, fault: Fault): (reply: Reply)
    ensures reply.response.status in {200, 400, 401, 500}
  {
    if !IsAuthorized(adminSecret, provided) then Reply(Error(401, "Unauthorized"), rows)
    else if body.Unparseable? then Reply(Error(500, SaveFailed), rows)
    else match ValidUpdates(body.updates)
      case None => Reply(Error(400, "No updates provided"), rows)
      case Some(updates) => SaveUpdates(rows, updates, clock, fault)
  }

  /** `POST /api/admin/save-config`: the same save with no authorization gate. */
  function SaveConfigPost(body: RequestBody, rows: Table, clock: Clock, fault: Fault): (reply: Reply)
    ensures reply.response.status in {200, 400, 500}
  {
    if body.Unparseable? then Reply(Error(500, SaveFailed), rows)
    else match ValidUpdates(body.updates)
      case None => Reply(Error(400, "No updates provided"), rows)
      case Some(updates) => SaveUpdates(rows, updates, clock, fault)
  }

  /** GET answers with exactly this year's configured clubs, in storage order, or fails with a fixed message. */
  lemma GetReturnsCurrentYear(rows: Table, clock: Clock, fault: Fault)
    ensures var year := AcademicYear(clock.fullYear, clock.month);
      var response := ClubConfigGet(rows, clock, fault);
      (response.status == 200 ==>
        response.body == ConfigBody(year, ReadConfigForYear(rows, year)) &&
        forall i :: 0 <= i < |response.body.clubs| ==> response.body.clubs[i].academicYear == year) &&
      (response.status == 500 ==> response.body == ErrorBody(LoadFailed)) &&
      (fault == NoFault ==> response.status == 200)
  {
  }

  /**
   * An unauthorized POST answers 401 and touches nothing: the reply is the
   * same whatever the body and whatever the remote services would do.
   */
  lemma UnauthorizedPostTouchesNothing(adminSecret: Option<string>, provided: Option<string>,
                                       body: RequestBody, other: RequestBody,
                                       rows: Table, clock: Clock, fault: Fault, otherFault: Fault)
    requires !IsAuthorized(adminSecret, provided)
    ensures ClubConfigPost(adminSecret, provided, body, rows, clock, fault) == Reply(Error(401, "Unauthorized"), rows)
    ensures ClubConfigPost(adminSecret, provided, body, rows, clock, fault)
         == ClubConfigPost(adminSecret, provided, other, rows, clock, otherFault)
  {
  }

  /** An authorized POST answers 400 exactly when `updates` is missing, not an array, or empty, and then leaves the store alone. */
  lemma RejectedPostKeepsStore(adminSecret: Option<string>, provided: Option<string>, body: RequestBody,
                               rows: Table, clock: Clock, fault: Fault)
    requires IsAuthorized(adminSecret, provided)
    ensures var reply := ClubConfigPost(adminSecret, provided, body, rows, clock, fault);
      (reply.response.status == 400 <==> body.Parsed? && ValidUpdates(body.updates) == None) &&
      (reply.response.status == 400 ==> reply == Reply(Error(400, "No updates provided"), rows))
  {
    if body.Parsed? && ValidUpdates(body.updates).Some? {
      assert ClubConfigPost(adminSecret, provided, body, rows, clock, fault)
          == SaveUpdates(rows, ValidUpdates(body.updates).value, clock, fault);
    }
  }

  /**
   * A save that answers 200 has stored the upserted table and answers with
   * this year's rows read back from it; without a fault it always does.
   */
  lemma SaveSucceeds(rows: Table, updates: seq<Update>, clock: Clock, fault: Fault)
    ensures var year := AcademicYear(clock.fullYear, clock.month);
      var stored := Upserted(rows, updates, year, clock.isoNow);
      var reply := SaveUpdates(rows, updates, clock, fault);
      (reply.response.status == 200 ==>
        reply.rows == stored && reply.response.body == ConfigBody(year, ReadConfigForYear(stored, year))) &&
      (fault == NoFault ==> reply.response.status == 200)
  {
    var year := AcademicYear(clock.fullYear, clock.month);
    CompletedRunUpserts(rows, updates, year, clock.isoNow, fault, 1);
    HealthyRunCompletes(rows, updates, year, clock.isoNow, 1);
  }

  /** A failed save answers the fixed message and has appended no row. */
  lemma FailedSaveAppendsNothing(rows: Table, updates: seq<Update>, clock: Clock, fault: Fault)
    ensures var reply := SaveUpdates(rows, updates, clock, fault);
      reply.response.status == 500 ==>
        reply.response.body == ErrorBody(SaveFailed) &&
        (|reply.rows| == |rows| ||
         reply.rows == Upserted(rows, updates, AcademicYear(clock.fullYear, clock.month), clock.isoNow))
  {
    var year := AcademicYear(clock.fullYear, clock.month);
    FailedRunAppendsNothing(rows, updates, year, clock.isoNow, fault, 1);
    CompletedRunUpserts(rows, updates, year, clock.isoNow, fault, 1);
  }

  /** An authorized, valid POST answers 200 with the upserted table's rows for this year, or fails with the fixed message. */
  lemma AuthorizedPostUpserts(adminSecret: Option<string>, provided: Option<string>, updates: seq<Update>,
                              rows: Table, clock: Clock, fault: Fault)
    requires IsAuthorized(adminSecret, provided) && |updates| > 0
    ensures var year := AcademicYear(clock.fullYear, clock.month);
      var stored := Upserted(rows, updates, year, clock.isoNow);
      var reply := ClubConfigPost(adminSecret, provided, Parsed(UpdateList(updates)), rows, clock, fault);
      (reply.response.status == 200 ==>
        reply.rows == stored && reply.response.body == ConfigBody(year, ReadConfigForYear(stored, year))) &&
      (reply.response.status != 200 ==> reply.response == Error(500, SaveFailed)) &&
      (fault == NoFault ==> reply.response.status == 200)
  {
    SaveSucceeds(rows, updates, clock, fault);
  }

  /** save-config answers exactly as an authorized club-config POST does, for every body, table and fault. */
  lemma SaveConfigIsUngatedPost(adminSecret: Option<string>, provided: Option<string>, body: RequestBody,
                                rows: Table, clock: Clock, fault: Fault)
    requires IsAuthorized(adminSecret, provided)
    ensures SaveConfigPost(body, rows, clock, fault) == ClubConfigPost(adminSecret, provided, body, rows, clock, fault)
  {
  }

  /** save-config rejects with 400 exactly the bodies whose `updates` are invalid, leaving the store alone. */
  lemma SaveConfigValidatesFirst(body: RequestBody, rows: Table, clock: Clock, fault: Fault)
    ensures var reply := SaveConfigPost(body, rows, clock, fault);
      (reply.response.status == 400 <==> body.Parsed? && ValidUpdates(body.updates) == None) &&
      (reply.response.status == 400 ==> reply == Reply(Error(400, "No updates provided"), rows)) &&
      (reply.response.status == 500 ==> reply.response.body == ErrorBody(SaveFailed))
  {
    if body.Parsed? && ValidUpdates(body.updates).Some? {
      FailedSaveAppendsNothing(rows, ValidUpdates(body.updates).value, clock, fault);
    }
  }

  /** The shared save, issuing its calls against the config sheet. */
  method Save(sheet: ConfigSheet, updates: seq<Update>, clock: Clock, fault: Fault) returns (response: Response)
    modifies sheet
    ensures Reply(response, sheet.rows) == SaveUpdates(old(sheet.rows), updates, clock, fault)
  {
    var year := AcademicYear(clock.fullYear, clock.month);
    var found := sheet.EnsureConfigSheet(Fails(fault, 0));
    if !found {
      return Error(500, SaveFailed);
    }
    var completed, calls := sheet.UpsertConfigRows(updates, year, clock.isoNow, fault, 1);
    if !completed {
      return Error(500, SaveFailed);
    }
    var clubs := sheet.ReadConfig(year, Fails(fault, 1 + calls));
    if clubs == None {
      return Error(500, SaveFailed);
    }
    response := Json(ConfigBody(year, clubs.value));
  }

  /** `GET` issuing its calls against the config sheet; it writes nothing. */
  method HandleGet(sheet: ConfigSheet, clock: Clock, fault: Fault) returns (response: Response)
    modifies sheet
    ensures response == ClubConfigGet(old(sheet.rows), clock, fault)
    ensures sheet.rows == old(sheet.rows)
  {
    var year := AcademicYear(clock.fullYear, clock.month);
    var found := sheet.EnsureConfigSheet(Fails(fault, 0));
    if !found {
      return Error(500, LoadFailed);
    }
    var clubs := sheet.ReadConfig(year, Fails(fault, 1));
    if clubs == None {
      return Error(500, LoadFailed);
    }
    response := Json(ConfigBody(year, clubs.value));
  }

  /** club-config `POST` against the config sheet. */
  method HandleClubConfigPost(sheet: ConfigSheet, adminSecret: Option<string>, provided: Option<string>,
                              body: RequestBody, clock: Clock, fault: Fault) returns (response: Response)
    modifies sheet
    ensures Reply(response, sheet.rows) == ClubConfigPost(adminSecret, provided, body, old(sheet.rows), clock, fault)
    ensures response.status in {400, 401} || body.Unparseable? ==>
      sheet.probes == old(sheet.probes) && sheet.gets == old(sheet.gets) &&
            sheet.batchUpdates == old(sheet.batchUpdates) && sheet.appends == old(sheet.appends)
  {
    if !IsAuthorized(adminSecret, provided) {
      return Error(401, "Unauthorized");
    }
    if body.Unparseable? {
      return Error(500, SaveFailed);
    }
    var updates := ValidUpdates(body.updates);
    if updates == None {
      return Error(400, "No updates provided");
    }
    response := Save(sheet, updates.value, clock, fault);
  }

  /** save-config `POST` against the config sheet. */
  method HandleSaveConfigPost(sheet: ConfigSheet, body: RequestBody, clock: Clock, fault: Fault)
    returns (response: Response)
    modifies sheet
    ensures Reply(response, sheet.rows) == SaveConfigPost(body, old(sheet.rows), clock, fault)
    ensures response.status == 400 || body.Unparseable? ==>
      sheet.probes == old(sheet.probes) && sheet.gets == old(sheet.gets) &&
            sheet.batchUpdates == old(sheet.batchUpdates) && sheet.appends == old(sheet.appends)
  {
    if body.Unparseable? {
      return Error(500, SaveFailed);
    }
    var updates := ValidUpdates(body.updates);
    if updates == None {
      return Error(400, "No updates provided");
    }
    response := Save(sheet, updates.value, clock, fault);
  }
}
