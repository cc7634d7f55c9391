/**
 One notification_event row and the values its columns hold.
 Instants and durations are integers (nanoseconds in the source). UUIDs are naturals; only
 their distinctness matters. JSON columns are kept as the fields the code itself reads or
 decides on.
 */
module Domain {
  import opened Wrappers

  type Time = int
  type Token = nat
  type EventId = nat

  const MAX_SMALLINT := 32767

  datatype Status = PENDING | PROCESSING | SUCCEEDED | FAILED

  datatype Outcome = RequeueRequested | OutcomeSucceeded | OutcomeFailed

  /** The last_result column: SQL NULL, a phase marker, or the record of a finished attempt. */
  datatype LastResult =
    | NoResult
    | PhaseClaimed
    | PhaseRequesting
    | Finished(outcome: Outcome, errorClass: string, requestMayHaveBeenSent: bool,
               nextAttemptAt: Option<Time>, attemptNumber: int)

  /** The columns no statement writes after the insert. */
  datatype Identity = Identity(id: EventId, sourceSystem: string, sourceRequestId: string,
                               providerCode: string, providerAction: string, payload: string)

  datatype Event = Event(
    identity: Identity,
    status: Status,
    attemptCount: int,
    nextAttemptAt: Time,
    enqueuedAt: Option<Time>,
    leaseToken: Option<Token>,
    leaseUntil: Option<Time>,
    lastResult: LastResult,
    providerResponse: Option<string>)

  predicate Terminal(row: Event) {
    row.status == SUCCEEDED || row.status == FAILED
  }

  /** `last_result->>'outcome' = 'REQUEUE_REQUESTED'`; false for NULL and for the phase markers. */
  predicate RequeueIsRequested(result: LastResult) {
    result.Finished? && result.outcome == RequeueRequested
  }
}
