/**
 * app/api/create-sheet/route.ts: find or create the registration
 * spreadsheet of one club for the current academic year. The route works
 * out the academic year itself rather than calling `getAcademicYear`.
 *
 * Its remote calls are numbered 0 (`files.list`), 1 (`files.create`),
 * 2 (header write) and 3 (bold formatting). It does not touch the config
 * sheet.
 */
module CreateSheetRoute {
  import opened Wrappers
  import opened Remote
  import opened Text
  import opened SchoolYear
  import opened ConfigStore
  import opened Workspace
  import opened Http

  /** The outcome of parsing the request body and its `clubName`. */
  datatype SheetRequest = Unparseable | ClubName(clubName: string)

  /** The response and the drive the request leaves behind. */
  datatype CreateOutcome = CreateOutcome(response: Response, drive: DriveState)

  const CreateFailed := "Failed to create sheet"

  /** The six column headings written to A1:F1 of a new sheet. */
  const RegistrationHeader: Row := [
    "Timestamp",
    "Email Address",
    "What is your name (First and Last)?",
    "What grade are you in this year?",
    "We will be taking photos of club activities this year. These photos may also be used in the yearbook and club media. Do you agree to being subject of photography?",
    "Discord Username (Optional)"
  ]

  /** Row 0, columns 0 to 5: the cells the header occupies. */
  const HeaderRange := GridRange(0, 1, 0, 6)

  /** The route's own copy of the academic-year rule. */
  function InlineAcademicYear(currentYear: int, month: int): (year: string)
    ensures year == AcademicYear(currentYear, month)
  {
    if month >= 7 then IntToString(currentYear) + "/" + IntToString(currentYear + 1)
    else IntToString(currentYear - 1) + "/" + IntToString(currentYear)
  }

  /** `"<clubName> Registration <academicYear>"`, both searched for and given to the new file. */
  function SheetName(clubName: string, year: string): (name: string)
    ensures StartsWith(name, clubName)
  {
    clubName + " Registration " + year
  }

  /** The route as a function of the drive, the service's answers and the fault. */
  function CreateSheetRun(s: DriveState, request: SheetRequest, clock: Clock, issuedId: Option<string>, fault: Fault)
    : (o: CreateOutcome)
    ensures o.response.status in {200, 500}
    ensures o.response.status == 500 ==> o.response.body == ErrorBody(CreateFailed)
  {
    if request.Unparseable? then CreateOutcome(Error(500, CreateFailed), s)
    else
      var clubName := request.clubName;
      var year := InlineAcademicYear(clock.fullYear, clock.month);
      var name := SheetName(clubName, year);
      if Fails(fault, 0) then CreateOutcome(Error(500, CreateFailed), s)
      else
        var hits := Named(s.files, name);
        if |hits| > 0 then
          CreateOutcome(Json(SheetBody(hits[0].id, "Sheet for " + clubName + " " + year + " already exists", true)), s)
        else if Fails(fault, 1) || issuedId.None? || issuedId.value == "" then
          CreateOutcome(Error(500, CreateFailed), s)
        else
          var id := issuedId.value;
          var created := s.(files := s.files + [DriveFile(id, name)], grids := s.grids[id := []]);
          if Fails(fault, 2) then CreateOutcome(Error(500, CreateFailed), created)
          else
            var headed := created.(grids := created.grids[id := WriteFirstRow(Grid(created.grids, id), RegistrationHeader)]);
            if Fails(fault, 3) then CreateOutcome(Error(500, CreateFailed), headed)
            else
              CreateOutcome(Json(SheetBody(id, "Created new sheet for " + clubName + " " + year, false)),
                            headed.(formats := headed.formats + [Bold(id, HeaderRange)]))
  }

  /** A listed file of that name is returned as existing, first in listing order, and nothing is created. */
  lemma ExistingSheetIsReused(s: DriveState, clubName: string, clock: Clock, issuedId: Option<string>, fault: Fault)
    requires !Fails(fault, 0)
    ensures var year := AcademicYear(clock.fullYear, clock.month);
      var hits := Named(s.files, SheetName(clubName, year));
      var o := CreateSheetRun(s, ClubName(clubName), clock, issuedId, fault);
      |hits| > 0 ==>
        o.drive == s && o.response.status == 200 &&
        o.response.body.SheetBody? && o.response.body.sheetId == hits[0].id && o.response.body.existing &&
        hits[0] in s.files && hits[0].name == clubName + " Registration " + year
  {
  }

  /**
   * With no file of that name, a healthy run adds one file of that name,
   * gives it exactly the six-cell header, bolds row 0 columns 0 to 5,
   * changes no other spreadsheet and answers the new id as not existing.
   */
  lemma MissingSheetIsCreated(s: DriveState, clubName: string, clock: Clock, id: string)
    requires id != ""
    ensures var year := AcademicYear(clock.fullYear, clock.month);
      var name := SheetName(clubName, year);
      var o := CreateSheetRun(s, ClubName(clubName), clock, Some(id), NoFault);
      Named(s.files, name) == [] ==>
        o.response == Json(SheetBody(id, "Created new sheet for " + clubName + " " + year, false)) &&
        o.drive.files == s.files + [DriveFile(id, name)] &&
        o.drive.grids[id] == [RegistrationHeader] && |RegistrationHeader| == 6 &&
        (forall other :: other in s.grids && other != id ==> other in o.drive.grids && o.drive.grids[other] == s.grids[other]) &&
        o.drive.formats == s.formats + [Bold(id, GridRange(0, 1, 0, 6))]
  {
  }

  /** When the sheet has to be created, a create that answers no id is a 500 and adds no file. */
  lemma MissingIdFails(s: DriveState, clubName: string, clock: Clock, issuedId: Option<string>, fault: Fault)
    requires issuedId == None || issuedId == Some("")
    ensures var o := CreateSheetRun(s, ClubName(clubName), clock, issuedId, fault);
      Named(s.files, SheetName(clubName, AcademicYear(clock.fullYear, clock.month))) == [] ==>
        o.response == Error(500, CreateFailed) && o.drive == s
  {
  }

  /** After a 200, the first file listed under the sheet's name is the one answered. */
  lemma AnsweredSheetIsListedFirst(s: DriveState, clubName: string, clock: Clock, issuedId: Option<string>, fault: Fault)
    ensures var o := CreateSheetRun(s, ClubName(clubName), clock, issuedId, fault);
      var hits := Named(o.drive.files, SheetName(clubName, AcademicYear(clock.fullYear, clock.month)));
      o.response.status == 200 ==> |hits| > 0 && o.response.body.SheetBody? && hits[0].id == o.response.body.sheetId
  {
    var name := SheetName(clubName, AcademicYear(clock.fullYear, clock.month));
    if !Fails(fault, 0) && Named(s.files, name) == [] && !Fails(fault, 1) && issuedId.Some? && issuedId.value != ""
       && !Fails(fault, 2) && !Fails(fault, 3) {
      var o := CreateSheetRun(s, ClubName(clubName), clock, issuedId, fault);
      assert o.drive.files == s.files + [DriveFile(issuedId.value, name)];
      NamedSnoc(s.files, DriveFile(issuedId.value, name), name);
    }
  }

  /**
   * Calling the route again for the same club in the same academic year,
   * after a call that answered 200, finds the sheet the first call answered
   * with and reports it as existing, whatever the service would assign.
   */
  lemma SecondCallFindsFirst(s: DriveState, clubName: string, clock1: Clock, clock2: Clock,
                             id1: Option<string>, id2: Option<string>, fault1: Fault, fault2: Fault)
    requires AcademicYear(clock1.fullYear, clock1.month) == AcademicYear(clock2.fullYear, clock2.month)
    requires !Fails(fault2, 0)
    ensures var first := CreateSheetRun(s, ClubName(clubName), clock1, id1, fault1);
      var second := CreateSheetRun(first.drive, ClubName(clubName), clock2, id2, fault2);
      first.response.status == 200 && first.response.body.SheetBody? ==>
        second.drive == first.drive && second.response.status == 200 && second.response.body.SheetBody? &&
        second.response.body.existing && second.response.body.sheetId == first.response.body.sheetId
  {
    var first := CreateSheetRun(s, ClubName(clubName), clock1, id1, fault1);
    AnsweredSheetIsListedFirst(s, clubName, clock1, id1, fault1);
    ExistingSheetIsReused(first.drive, clubName, clock2, id2, fault2);
  }

  method CreateSheet(ws: Workspace, request: SheetRequest, clock: Clock, issuedId: Option<string>, fault: Fault)
    returns (response: Response)
    modifies ws
    ensures CreateOutcome(response, ws.State()) == CreateSheetRun(old(ws.State()), request, clock, issuedId, fault)
  {
    if request.Unparseable? {
      return Error(500, CreateFailed);
    }
    var clubName := request.clubName;
    var year := InlineAcademicYear(clock.fullYear, clock.month);
    var name := SheetName(clubName, year);
    var search := ws.ListFiles(name, Fails(fault, 0));
    if search == None {
      return Error(500, CreateFailed);
    }
    if |search.value| > 0 {
      var existingSheet := search.value[0];
      return Json(SheetBody(existingSheet.id, "Sheet for " + clubName + " " + year + " already exists", true));
    }
    var sheetId := ws.CreateFile(name, if Fails(fault, 1) then None else issuedId);
    if sheetId == None {
      return Error(500, CreateFailed);
    }
    var written := ws.WriteHeader(sheetId.value, RegistrationHeader, Fails(fault, 2));
    if !written {
      return Error(500, CreateFailed);
    }
    var formatted := ws.Embolden(sheetId.value, HeaderRange, Fails(fault, 3));
    if !formatted {
      return Error(500, CreateFailed);
    }
    response := Json(SheetBody(sheetId.value, "Created new sheet for " + clubName + " " + year, false));
  }
}
