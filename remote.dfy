/**
 * Failures of calls into the Google Drive and Sheets services. A request
 * issues its remote calls one after the other; the model numbers them from
 * 0 in that order, and a fault names the one call that throws, if any.
 * Every call before it succeeds and none after it is issued.
 */
module Remote {
  datatype Fault = NoFault | FailOnCall(call: nat)

  /** Call number `n` of the request throws. */
  predicate Fails(fault: Fault, n: nat) {
    fault.FailOnCall? && fault.call == n
  }

  /** How one remote call ends when the caller catches its error: its `message`. */
  datatype CallOutcome = Succeeds | Throws(message: string)

  /**
   * What the current date tells a request: the calendar year, the 0-based month
   * and the ISO timestamp string.
   */
  datatype Clock = Clock(fullYear: int, month: int, isoNow: string)
}
