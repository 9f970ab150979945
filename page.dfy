/**
 * app/page.tsx: the registration page's state and the handlers that change
 * it. The admin login, the "create all sheets" loop and the submit handler
 * are methods of `ClubRegistration`; the list rules they rely on are
 * functions.
 */
module Page {
  import opened Wrappers
  import opened Text
  import opened Clubs
  import SubmitRegistration
  import SubmitRegistrationMulti

  /** The registration form's fields. */
  datatype FormData = FormData(email: string, name: string, grade: string, photoConsent: bool, discord: string)

  const EmptyForm := FormData("", "", "", false, "")

  /** A toast: its title and whether it is the destructive variant. */
  datatype Toast = Toast(title: string, destructive: bool)

  /** The JSON of an ok `/api/create-sheet` response. */
  datatype SheetInfo = SheetInfo(sheetId: string, existing: bool)

  /** How one `/api/create-sheet` request ended: its JSON on an ok response, or a throw. */
  datatype SheetReply = Answered(info: SheetInfo) | Failed

  const AdminPassword := "123"

  /** The first club with that id, as the page's lookup by id finds it. */
  function FindClub(clubs: seq<Club>, id: string): (found: Option<Club>)
    ensures found.None? <==> forall i :: 0 <= i < |clubs| ==> clubs[i].id != id
    ensures found.Some? ==>
      exists i :: 0 <= i < |clubs| && clubs[i] == found.value && clubs[i].id == id &&
        forall j :: 0 <= j < i ==> clubs[j].id != id
  {
    if clubs == [] then None
    else if clubs[0].id == id then Some(clubs[0])
    else
      var rest := FindClub(clubs[1..], id);
      assert forall i :: 1 <= i < |clubs| ==> clubs[i] == clubs[1..][i - 1];
      rest
  }

  /** `updateClubSheetId`: the clubs with that id get the new sheet id; nothing else changes. */
  function WithSheetId(clubs: seq<Club>, clubId: string, sheetId: string): (r: seq<Club>)
    ensures |r| == |clubs|
    ensures forall i :: 0 <= i < |clubs| ==>
      r[i].id == clubs[i].id && r[i].name == clubs[i].name &&
      r[i].sheetId == (if clubs[i].id == clubId then sheetId else clubs[i].sheetId)
  {
    if clubs == [] then []
    else
      [if clubs[0].id == clubId then clubs[0].(sheetId := sheetId) else clubs[0]]
        + WithSheetId(clubs[1..], clubId, sheetId)
  }

  /** After the update, looking the club up finds the new sheet id; other lookups are unaffected. */
  lemma {:induction false} FindAfterWithSheetId(clubs: seq<Club>, clubId: string, sheetId: string, other: string)
    ensures var r := WithSheetId(clubs, clubId, sheetId);
      var before := FindClub(clubs, clubId);
      FindClub(r, clubId) == (if before.Some? then Some(before.value.(sheetId := sheetId)) else None) &&
      (other != clubId ==> FindClub(r, other) == FindClub(clubs, other))
  {
    if clubs != [] {
      FindAfterWithSheetId(clubs[1..], clubId, sheetId, other);
    }
  }

  /** WithSheetId twice with the same arguments is WithSheetId once. */
  lemma WithSheetIdIdempotent(clubs: seq<Club>, clubId: string, sheetId: string)
    ensures WithSheetId(WithSheetId(clubs, clubId, sheetId), clubId, sheetId) == WithSheetId(clubs, clubId, sheetId)
  {
  }

  /** A sheet id the page treats as set up: non-empty and not a `YOUR_` placeholder. */
  predicate SheetConfigured(sheetId: string): (configured: bool)
    ensures configured <==> sheetId != "" && (|sheetId| < 5 || sheetId[..5] != "YOUR_")
  {
    sheetId != "" && !StartsWith(sheetId, "YOUR_")
  }

  /** A `YOUR_` placeholder is never taken for a configured sheet. */
  lemma PlaceholderNotConfigured(rest: string)
    ensures !SheetConfigured("YOUR_" + rest)
  {
    assert ("YOUR_" + rest)[..5] == "YOUR_";
  }

  /** The `data` object `handleSubmit` sends. */
  function ClientPayload(form: FormData, timestamp: string): (data: SubmitRegistration.SubmittedData)
    ensures data.photoConsent == (if form.photoConsent then "Yes" else "No")
    ensures data.discord == (if form.discord == "" then "Not provided" else form.discord)
    ensures data.timestamp == timestamp && data.email == form.email && data.name == form.name && data.grade == form.grade
  {
    SubmitRegistration.SubmittedData(timestamp, form.email, form.name, form.grade,
      if form.photoConsent then "Yes" else "No",
      if form.discord == "" then "Not provided" else form.discord)
  }

  /**
   * The single-sheet route stores the page's payload as the very row the
   * multi-sheet route builds from the same form with a boolean consent.
   */
  lemma PayloadRowMatchesMultiRow(form: FormData, timestamp: string)
    ensures SubmitRegistration.RawRow(ClientPayload(form, timestamp))
         == SubmitRegistrationMulti.RegistrationRow(SubmitRegistrationMulti.Registration(
              timestamp, form.email, form.name, form.grade, form.photoConsent, form.discord))
  {
  }

  /** `updatedClubs` after the loop: entry i takes the answered sheet id when request i succeeded. */
  function UpdatedClubs(clubs: seq<Club>, reply: nat -> SheetReply): (r: seq<Club>)
    ensures |r| == |clubs|
    ensures forall i :: 0 <= i < |clubs| ==>
      r[i] == (if reply(i).Answered? then clubs[i].(sheetId := reply(i).info.sheetId) else clubs[i])
  {
    if clubs == [] then []
    else
      var n := |clubs| - 1;
      UpdatedClubs(clubs[..n], reply) + [if reply(n).Answered? then clubs[n].(sheetId := reply(n).info.sheetId) else clubs[n]]
  }

  /** `results` after the loop: the answers of the successful requests, in order. */
  function Answers(n: nat, reply: nat -> SheetReply): (results: seq<SheetInfo>)
    ensures |results| <= n
    ensures |results| == 0 <==> forall i :: 0 <= i < n ==> reply(i).Failed?
  {
    if n == 0 then []
    else Answers(n - 1, reply) + (if reply(n - 1).Answered? then [reply(n - 1).info] else [])
  }

  /** Every result is the answer of a successful request. */
  lemma {:induction false} AnswersSound(n: nat, reply: nat -> SheetReply)
    ensures forall r :: r in Answers(n, reply) ==> exists i :: 0 <= i < n && reply(i) == Answered(r)
  {
    if n > 0 {
      AnswersSound(n - 1, reply);
      var init := Answers(n - 1, reply);
      forall r | r in Answers(n, reply)
        ensures exists i :: 0 <= i < n && reply(i) == Answered(r)
      {
        if r in init {
          var i :| 0 <= i < n - 1 && reply(i) == Answered(r);
          assert 0 <= i < n && reply(i) == Answered(r);
        } else {
          assert reply(n - 1) == Answered(r);
        }
      }
    }
  }

  /** Every successful request's answer is among the results. */
  lemma {:induction false} AnswersComplete(n: nat, reply: nat -> SheetReply)
    ensures forall i :: 0 <= i < n && reply(i).Answered? ==> reply(i).info in Answers(n, reply)
  {
    if n > 0 {
      AnswersComplete(n - 1, reply);
    }
  }

  /** The toasts shown while the requests run: one per club, and a second one for each that failed. */
  function LoopToasts(clubs: seq<Club>, reply: nat -> SheetReply): (shown: seq<Toast>)
    ensures |clubs| <= |shown| <= 2 * |clubs|
  {
    if clubs == [] then []
    else
      var n := |clubs| - 1;
      LoopToasts(clubs[..n], reply) + [Toast("Creating sheet for " + clubs[n].name + "...", false)]
        + (if reply(n).Failed? then [Toast("Failed to create sheet for " + clubs[n].name, true)] else [])
  }

  lemma LoopToastsStep(clubs: seq<Club>, i: nat, reply: nat -> SheetReply)
    requires i < |clubs|
    ensures LoopToasts(clubs[..i + 1], reply) == LoopToasts(clubs[..i], reply)
      + [Toast("Creating sheet for " + clubs[i].name + "...", false)]
      + (if reply(i).Failed? then [Toast("Failed to create sheet for " + clubs[i].name, true)] else [])
  {
    assert clubs[..i + 1][..i] == clubs[..i];
  }

  predicate NoneExisting(results: seq<SheetInfo>) {
    forall i :: 0 <= i < |results| ==> !results[i].existing
  }

  predicate AllExisting(results: seq<SheetInfo>) {
    forall i :: 0 <= i < |results| ==> results[i].existing
  }

  /**
   * The request loop of `createAllSheets` over a copy of the clubs: the
   * updated copy, the successful answers and the toasts shown on the way.
   */
  method RequestSheets(clubs: seq<Club>, reply: nat -> SheetReply)
    returns (updatedClubs: seq<Club>, results: seq<SheetInfo>, shown: seq<Toast>)
    ensures updatedClubs == UpdatedClubs(clubs, reply)
    ensures results == Answers(|clubs|, reply)
    ensures shown == LoopToasts(clubs, reply)
  {
    updatedClubs, results, shown := clubs, [], [];
    var i := 0;
    while i < |updatedClubs|
      invariant 0 <= i <= |updatedClubs| == |clubs|
      invariant forall j :: 0 <= j < i ==>
        updatedClubs[j] == (if reply(j).Answered? then clubs[j].(sheetId := reply(j).info.sheetId) else clubs[j])
      invariant forall j :: i <= j < |clubs| ==> updatedClubs[j] == clubs[j]
      invariant results == Answers(i, reply)
      invariant shown == LoopToasts(clubs[..i], reply)
    {
      var club := updatedClubs[i];
      LoopToastsStep(clubs, i, reply);
      shown := shown + [Toast("Creating sheet for " + club.name + "...", false)];
      var answer := reply(i);
      if answer.Answered? {
        updatedClubs := updatedClubs[i := club.(sheetId := answer.info.sheetId)];
        results := results + [answer.info];
      } else {
        shown := shown + [Toast("Failed to create sheet for " + club.name, true)];
      }
      i := i + 1;
    }
    assert clubs[..i] == clubs;
  }

  /** The title of the toast that closes `createAllSheets`. */
  function SummaryTitle(results: seq<SheetInfo>): (title: string)
    ensures results == [] ==> title == "Unable to create sheets automatically"
    ensures results != [] ==>
      (title == "Sheets updated!" <==> !NoneExisting(results) && !AllExisting(results)) &&
      (title == "All sheets created successfully!" <==> NoneExisting(results)) &&
      (title == "Sheets already exist!" <==> AllExisting(results))
  {
    if results == [] then "Unable to create sheets automatically"
    else if exists i :: 0 <= i < |results| && !results[i].existing then
      if exists i :: 0 <= i < |results| && results[i].existing then "Sheets updated!"
      else "All sheets created successfully!"
    else
      assert !NoneExisting(results) by { assert results[0].existing; }
      "Sheets already exist!"
  }

  class ClubRegistration {
    var isAdmin: bool
    var adminPassword: string
    var showAdminLogin: bool
    var clubs: seq<Club>
    var selectedClub: string
    var formData: FormData
    var isSubmitting: bool
    var toasts: seq<Toast>

    constructor (initialClubs: seq<Club>)
      ensures !isAdmin && adminPassword == "" && !showAdminLogin && clubs == initialClubs
      ensures selectedClub == "" && formData == EmptyForm && !isSubmitting && toasts == []
    {
      isAdmin, adminPassword, showAdminLogin := false, "", false;
      clubs, selectedClub, formData := initialClubs, "", EmptyForm;
      isSubmitting, toasts := false, [];
    }

    /** `handleAdminLogin`: the fixed password grants admin access and closes the login box. */
    method HandleAdminLogin()
      modifies this`isAdmin, this`showAdminLogin, this`toasts
      ensures adminPassword == AdminPassword ==>
        isAdmin && !showAdminLogin && toasts == old(toasts) + [Toast("Admin access granted", false)]
      ensures adminPassword != AdminPassword ==>
        isAdmin == old(isAdmin) && showAdminLogin == old(showAdminLogin) &&
        toasts == old(toasts) + [Toast("Invalid password", true)]
    {
      if adminPassword == AdminPassword {
        isAdmin := true;
        showAdminLogin := false;
        toasts := toasts + [Toast("Admin access granted", false)];
      } else {
        toasts := toasts + [Toast("Invalid password", true)];
      }
    }

    method UpdateClubSheetId(clubId: string, sheetId: string)
      modifies this`clubs
      ensures clubs == WithSheetId(old(clubs), clubId, sheetId)
    {
      clubs := WithSheetId(clubs, clubId, sheetId);
    }

    /**
     * `createAllSheets`: one `/api/create-sheet` request per club, in
     * order, request i answering `reply(i)`. The clubs are replaced by the
     * updated copy only when some request succeeded.
     */
    method CreateAllSheets(reply: nat -> SheetReply)
      modifies this`clubs, this`toasts
      ensures var results := Answers(|old(clubs)|, reply);
        clubs == (if results != [] then UpdatedClubs(old(clubs), reply) else old(clubs)) &&
        toasts == old(toasts) + LoopToasts(old(clubs), reply) + [Toast(SummaryTitle(results), results == [])]
    {
      var updatedClubs, results, shown := RequestSheets(clubs, reply);
      toasts := toasts + shown;
      if |results| > 0 {
        clubs := updatedClubs;
      }
      toasts := toasts + [Toast(SummaryTitle(results), results == [])];
    }

    /**
     * `handleSubmit`, with the time it reads and whether the request
     * answered ok. It returns the request sent to `/api/submit-registration`,
     * `None` when a guard stops it.
     */
    method HandleSubmit(timestamp: string, responseOk: bool) returns (sent: Option<SubmitRegistration.SubmitRequest>)
      modifies this`formData, this`isSubmitting, this`toasts
      ensures var club := FindClub(clubs, selectedClub);
        sent.Some? <==> selectedClub != "" && club.Some? && SheetConfigured(club.value.sheetId)
      ensures sent.Some? ==>
        sent.value == SubmitRegistration.Parsed(Some(FindClub(clubs, selectedClub).value.sheetId),
                                                Some(ClientPayload(old(formData), timestamp)))
      ensures formData == (if sent.Some? && responseOk then EmptyForm else old(formData))
      ensures isSubmitting == (if selectedClub == "" then old(isSubmitting) else false)
      ensures |toasts| == |old(toasts)| + 1 && toasts[..|old(toasts)|] == old(toasts)
      ensures toasts[|old(toasts)|].destructive <==> !(sent.Some? && responseOk)
    {
      if selectedClub == "" {
        toasts := toasts + [Toast("Please select a club", true)];
        return None;
      }
      isSubmitting := true;
      var club := FindClub(clubs, selectedClub);
      if club.None? || !SheetConfigured(club.value.sheetId) {
        toasts := toasts + [Toast("Sheet not configured", true)];
        isSubmitting := false;
        return None;
      }
      sent := Some(SubmitRegistration.Parsed(Some(club.value.sheetId), Some(ClientPayload(formData, timestamp))));
      if responseOk {
        toasts := toasts + [Toast("Registration successful!", false)];
        formData := EmptyForm;
      } else {
        toasts := toasts + [Toast("Registration failed", true)];
      }
      isSubmitting := false;
    }
  }
}
