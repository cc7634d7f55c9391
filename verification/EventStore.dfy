/**
 The repository: every UPDATE of internal/store/event_repo.go as one atomic guarded step.

 `Execute` says what one statement, carried by one lease token, does to one row. `EventRepo` holds
 the table and performs the statements in place; its methods are proved against `Execute`.
 */
module EventStore {
  import opened Wrappers
  import opened Domain

  /** The statements a worker issues under its own lease token. */
  datatype Statement =
    | Claim(lease: int)
    | MarkRequesting
    | RenewLease(extendBy: int)
    | MarkSucceeded(result: LastResult, response: Option<string>)
    | MarkWaiting(deadline: Time, result: LastResult, response: Option<string>)
    | MarkCircuitOpen(deadline: Time, result: LastResult)
    | MarkFailed(result: LastResult, response: Option<string>)
    | MarkFailedUncalled(result: LastResult)

  /** What the database answers: one row changed, no row matched, or attempt_count overflowed. */
  datatype Effect = Updated(row: Event) | NoRow | Overflow

  predicate Claimable(row: Event, now: Time) {
    || (row.status == PENDING && row.nextAttemptAt <= now)
    || (row.status == PROCESSING && row.leaseToken == None && RequeueIsRequested(row.lastResult))
  }

  predicate HeldBy(row: Event, token: Token) {
    row.status == PROCESSING && row.leaseToken == Some(token)
  }

  /** GREATEST(attempt_count - 1, 0) */
  function RolledBack(count: int): int {
    if count - 1 > 0 then count - 1 else 0
  }

  function Execute(row: Event, token: Token, st: Statement, now: Time): Effect {
    match st
    case Claim(lease) =>
      if !Claimable(row, now) then NoRow
      else if row.attemptCount + 1 > MAX_SMALLINT then Overflow
      else Updated(row.(status := PROCESSING, attemptCount := row.attemptCount + 1,
                        leaseToken := Some(token), leaseUntil := Some(now + lease),
                        lastResult := PhaseClaimed, providerResponse := None))
    case _ =>
      if HeldBy(row, token) then Updated(Settled(row, st, now)) else NoRow
  }

  /** The SET list of the statements guarded by the lease token. */
  function Settled(row: Event, st: Statement, now: Time): Event
    requires !st.Claim?
  {
    match st
    case MarkRequesting => row.(lastResult := PhaseRequesting)
    case RenewLease(extendBy) => row.(leaseUntil := Some(now + extendBy))
    case MarkSucceeded(result, response) =>
      row.(status := SUCCEEDED, leaseToken := None, leaseUntil := None,
           lastResult := result, providerResponse := response)
    case MarkWaiting(deadline, result, response) =>
      row.(leaseToken := None, leaseUntil := Some(deadline),
           lastResult := result, providerResponse := response)
    case MarkCircuitOpen(deadline, result) =>
      row.(attemptCount := RolledBack(row.attemptCount), leaseToken := None,
           leaseUntil := Some(deadline), lastResult := result, providerResponse := None)
    case MarkFailed(result, response) =>
      row.(status := FAILED, leaseToken := None, leaseUntil := None,
           lastResult := result, providerResponse := response)
    case MarkFailedUncalled(result) =>
      row.(status := FAILED, attemptCount := RolledBack(row.attemptCount), leaseToken := None,
           leaseUntil := None, lastResult := result, providerResponse := None)
  }

  /** `lease_until < now()`, which is not true of NULL. */
  predicate LeaseExpired(row: Event, now: Time) {
    row.leaseUntil.Some? && row.leaseUntil.value < now
  }

  function ExecuteReserve(row: Event, extendBy: int, now: Time): Effect {
    if && row.status == PROCESSING && row.leaseToken == None
       && LeaseExpired(row, now) && RequeueIsRequested(row.lastResult)
    then Updated(row.(leaseUntil := Some(now + extendBy)))
    else NoRow
  }

  function ExecuteRecover(row: Event, token: Token, deadline: Time, result: LastResult, now: Time): Effect {
    if HeldBy(row, token) && LeaseExpired(row, now)
    then Updated(row.(leaseToken := None, leaseUntil := Some(deadline),
                      lastResult := result, providerResponse := None))
    else NoRow
  }

  function ExecuteMarkEnqueued(row: Event, now: Time): Effect {
    if row.status == PENDING then Updated(row.(enqueuedAt := Some(now))) else NoRow
  }

  /** The WHERE clause of SelectPendingToPublish. */
  predicate InPublishScan(row: Event, now: Time) {
    row.status == PENDING && row.nextAttemptAt <= now && row.enqueuedAt == None
  }

  /** The WHERE clause of SelectExpiredLeases. */
  predicate InExpiredScan(row: Event, now: Time) {
    row.status == PROCESSING && LeaseExpired(row, now)
  }

  function Inserted(identity: Identity, now: Time): Event {
    Event(identity, PENDING, 0, now, None, None, None, NoResult, None)
  }

  /** What became of one statement sent to the database: it ran and its answer arrived, it ran and the answer was
      lost, or it never ran. */
  datatype Fate = Answered | AnswerLost | NotRun

  datatype RepoError = NoError | ErrNotClaimed | ErrDuplicateSourceRequest | ErrDatabase

  function ErrorOf(e: Effect): RepoError {
    match e
    case Updated(_) => NoError
    case NoRow => ErrNotClaimed
    case Overflow => ErrDatabase
  }

  type Table = map<EventId, Event>

  /** `WHERE id = $1 AND ...`: a missing id matches no row; no other row is touched. */
  function Written(rows: Table, id: EventId, e: Effect): Table {
    if e.Updated? then rows[id := e.row] else rows
  }

  function ExecuteAt(rows: Table, id: EventId, token: Token, st: Statement, now: Time): Effect {
    if id in rows then Execute(rows[id], token, st, now) else NoRow
  }

  /** UNIQUE (source_system, source_request_id) */
  predicate UniqueSource(rows: Table) {
    forall i, j :: i in rows && j in rows && i != j ==> !SameSource(rows[i].identity, rows[j].identity)
  }

  predicate HasSource(row: Identity, sourceSystem: string, sourceRequestId: string) {
    row.sourceSystem == sourceSystem && row.sourceRequestId == sourceRequestId
  }

  predicate SameSource(a: Identity, b: Identity) {
    HasSource(a, b.sourceSystem, b.sourceRequestId)
  }

  class EventRepo {
    var rows: Table

    ghost predicate Valid()
      reads this
    {
      && UniqueSource(rows)
      && forall i :: i in rows ==> rows[i].identity.id == i
    }

    constructor ()
      ensures Valid() && rows == map[]
    {
      rows := map[];
    }

    method Insert(identity: Identity, now: Time) returns (err: RepoError)
      requires Valid()
      modifies this
      ensures Valid()
      ensures err == NoError || err == ErrDuplicateSourceRequest
      ensures err == ErrDuplicateSourceRequest <==>
              || identity.id in old(rows)
              || exists i :: i in old(rows) && old(rows)[i].identity.sourceSystem == identity.sourceSystem
                             && old(rows)[i].identity.sourceRequestId == identity.sourceRequestId
      ensures rows == if err == NoError then old(rows)[identity.id := Inserted(identity, now)] else old(rows)
      ensures err == NoError ==>
                rows[identity.id] == Event(identity, PENDING, 0, now, None, None, None, NoResult, None)
    {
      // SQLSTATE 23505, whichever of the two unique indexes raised it
      if identity.id in rows || exists i :: i in rows && SameSource(rows[i].identity, identity) {
        return ErrDuplicateSourceRequest;
      }
      rows := rows[identity.id := Event(identity, PENDING, 0, now, None, None, None, NoResult, None)];
      return NoError;
    }

    method FindBySourceRequest(sourceSystem: string, sourceRequestId: string) returns (ev: Option<Event>)
      requires Valid()
      ensures ev.Some? ==>
                && ev.value.identity.id in rows && rows[ev.value.identity.id] == ev.value
                && HasSource(ev.value.identity, sourceSystem, sourceRequestId)
      ensures ev == None ==>
                forall i :: i in rows ==> !HasSource(rows[i].identity, sourceSystem, sourceRequestId)
    {
      if i :| i in rows && HasSource(rows[i].identity, sourceSystem, sourceRequestId) {
        return Some(rows[i]);
      }
      return None;
    }

    /** SelectPendingToPublish, without its ORDER BY and LIMIT. */
    method SelectPendingToPublish(now: Time) returns (found: set<EventId>)
      requires Valid()
      ensures forall i :: i in found <==>
                            && i in rows && rows[i].status == PENDING && rows[i].enqueuedAt == None
                            && rows[i].nextAttemptAt <= now
    {
      found := set i | i in rows && InPublishScan(rows[i], now);
    }

    /** SelectExpiredLeases, without its ORDER BY and LIMIT. */
    method SelectExpiredLeases(now: Time) returns (found: set<EventId>)
      requires Valid()
      ensures forall i :: i in found <==>
                            && i in rows && rows[i].status == PROCESSING
                            && rows[i].leaseUntil.Some? && rows[i].leaseUntil.value < now
    {
      found := set i | i in rows && InExpiredScan(rows[i], now);
    }

    method ClaimEvent(id: EventId, token: Token, now: Time, lease: int) returns (err: RepoError, ev: Option<Event>)
      requires Valid()
      modifies this
      ensures Valid()
      ensures var e := ExecuteAt(old(rows), id, token, Claim(lease), now);
              && rows == Written(old(rows), id, e)
              && err == ErrorOf(e)
              && ev == (if e.Updated? then Some(e.row) else None)
      ensures err == NoError ==>
                && id in old(rows) && id in rows
                && var was, row := old(rows)[id], rows[id];
                   && (|| (was.status == PENDING && was.nextAttemptAt <= now)
                       || (was.status == PROCESSING && was.leaseToken == None && was.lastResult.Finished?
                           && was.lastResult.outcome == RequeueRequested))
                   && row.status == PROCESSING && row.attemptCount == was.attemptCount + 1 <= 32767
                   && row.leaseToken == Some(token) && row.leaseUntil == Some(now + lease)
                   && row.lastResult == PhaseClaimed && row.providerResponse == None
    {
      if id !in rows || !Claimable(rows[id], now) {
        return ErrNotClaimed, None;
      }
      var row := rows[id];
      if row.attemptCount + 1 > MAX_SMALLINT {
        return ErrDatabase, None;
      }
      row := row.(status := PROCESSING);
      row := row.(attemptCount := row.attemptCount + 1);
      row := row.(leaseToken := Some(token), leaseUntil := Some(now + lease));
      row := row.(lastResult := PhaseClaimed, providerResponse := None);
      rows := rows[id := row];
      return NoError, Some(row);
    }

    method Renew(id: EventId, token: Token, now: Time, extendBy: int) returns (err: RepoError)
      requires Valid()
      modifies this
      ensures Valid()
      ensures var e := ExecuteAt(old(rows), id, token, RenewLease(extendBy), now);
              rows == Written(old(rows), id, e) && err == ErrorOf(e)
    {
      if id !in rows || rows[id].status != PROCESSING || rows[id].leaseToken != Some(token) {
        return ErrNotClaimed;
      }
      rows := rows[id := rows[id].(leaseUntil := Some(now + extendBy))];
      return NoError;
    }

    method MarkRequestStarted(id: EventId, token: Token, now: Time) returns (err: RepoError)
      requires Valid()
      modifies this
      ensures Valid()
      ensures var e := ExecuteAt(old(rows), id, token, MarkRequesting, now);
              rows == Written(old(rows), id, e) && err == ErrorOf(e)
    {
      if id !in rows || rows[id].status != PROCESSING || rows[id].leaseToken != Some(token) {
        return ErrNotClaimed;
      }
      rows := rows[id := rows[id].(lastResult := PhaseRequesting)];
      return NoError;
    }

    /** The shared body of the five attempt-result methods: run one guarded UPDATE by token. */
    method Transition(id: EventId, token: Token, st: Statement, now: Time) returns (err: RepoError)
      requires Valid()
      requires st.MarkSucceeded? || st.MarkWaiting? || st.MarkCircuitOpen? || st.MarkFailed? || st.MarkFailedUncalled?
      modifies this
      ensures Valid()
      ensures var e := ExecuteAt(old(rows), id, token, st, now);
              rows == Written(old(rows), id, e) && err == ErrorOf(e)
      ensures err == NoError <==>
              id in old(rows) && old(rows)[id].status == PROCESSING && old(rows)[id].leaseToken == Some(token)
      ensures err == NoError ==>
                && id in rows
                && var was, row := old(rows)[id], rows[id];
                   && row.leaseToken == None && row.lastResult == st.result
                   && row.status == (if st.MarkSucceeded? then SUCCEEDED
                                     else if st.MarkFailed? || st.MarkFailedUncalled? then FAILED else PROCESSING)
                   && row.leaseUntil == (if st.MarkWaiting? || st.MarkCircuitOpen? then Some(st.deadline) else None)
                   && row.providerResponse == (if st.MarkCircuitOpen? || st.MarkFailedUncalled? then None else st.response)
                   && row.attemptCount == (if !st.MarkCircuitOpen? && !st.MarkFailedUncalled? then was.attemptCount
                                           else if was.attemptCount >= 1 then was.attemptCount - 1 else 0)
    {
      if id !in rows || rows[id].status != PROCESSING || rows[id].leaseToken != Some(token) {
        return ErrNotClaimed;
      }
      var row := rows[id].(leaseToken := None);
      match st {
        case MarkSucceeded(result, response) =>
          row := row.(status := SUCCEEDED, leaseUntil := None, lastResult := result, providerResponse := response);
        case MarkWaiting(deadline, result, response) =>
          row := row.(leaseUntil := Some(deadline), lastResult := result, providerResponse := response);
        case MarkCircuitOpen(deadline, result) =>
          row := row.(attemptCount := if row.attemptCount >= 1 then row.attemptCount - 1 else 0);
          row := row.(leaseUntil := Some(deadline), lastResult := result, providerResponse := None);
        case MarkFailed(result, response) =>
          row := row.(status := FAILED, leaseUntil := None, lastResult := result, providerResponse := response);
        case MarkFailedUncalled(result) =>
          row := row.(attemptCount := if row.attemptCount >= 1 then row.attemptCount - 1 else 0);
          row := row.(status := FAILED, leaseUntil := None, lastResult := result, providerResponse := None);
      }
      rows := rows[id := row];
      return NoError;
    }

    method ReserveExpiredRequeue(id: EventId, now: Time, extendBy: int) returns (err: RepoError)
      requires Valid()
      modifies this
      ensures Valid()
      ensures var e := if id in old(rows) then ExecuteReserve(old(rows)[id], extendBy, now) else NoRow;
              rows == Written(old(rows), id, e) && err == ErrorOf(e)
    {
      if id !in rows {
        return ErrNotClaimed;
      }
      var row := rows[id];
      if row.status != PROCESSING || row.leaseToken != None || !LeaseExpired(row, now)
         || !RequeueIsRequested(row.lastResult)
      {
        return ErrNotClaimed;
      }
      rows := rows[id := row.(leaseUntil := Some(now + extendBy))];
      return NoError;
    }

    method RecoverExpiredToRequeue(id: EventId, token: Token, deadline: Time, result: LastResult, now: Time)
      returns (err: RepoError)
      requires Valid()
      modifies this
      ensures Valid()
      ensures var e := if id in old(rows) then ExecuteRecover(old(rows)[id], token, deadline, result, now) else NoRow;
              rows == Written(old(rows), id, e) && err == ErrorOf(e)
    {
      if id !in rows || rows[id].status != PROCESSING || rows[id].leaseToken != Some(token) || !LeaseExpired(rows[id], now) {
        return ErrNotClaimed;
      }
      var row := rows[id].(leaseToken := None, leaseUntil := Some(deadline));
      rows := rows[id := row.(lastResult := result, providerResponse := None)];
      return NoError;
    }

    /** Reports no error when the row has already left PENDING: zero affected rows is not an error here. */
    method MarkEnqueued(id: EventId, now: Time)
      requires Valid()
      modifies this
      ensures Valid()
      ensures rows == if id in old(rows) then Written(old(rows), id, ExecuteMarkEnqueued(old(rows)[id], now)) else old(rows)
    {
      if id in rows && rows[id].status == PENDING {
        rows := rows[id := rows[id].(enqueuedAt := Some(now))];
      }
    }
  }
}
