/**
 * The JSON responses of the API routes. `NextResponse.json(body)` answers
 * with status 200 unless a status is given.
 */
module Http {
  import opened Wrappers
  import opened ConfigStore

  /** One entry of `results` in the multi-destination registration route. */
  datatype Delivery = Delivery(sheetId: string, ok: bool, error: Option<string>)

  datatype Body =
    | ErrorBody(error: string)
    | ConfigBody(academicYear: string, clubs: seq<ClubConfigRow>)
    | SubmittedBody
    | FanOutBody(ok: nat, total: nat, results: seq<Delivery>)
    | SheetBody(sheetId: string, message: string, existing: bool)

  datatype Response = Response(status: nat, body: Body)

  function Json(body: Body): Response {
    Response(200, body)
  }

  function Error(status: nat, message: string): Response {
    Response(status, ErrorBody(message))
  }
}
