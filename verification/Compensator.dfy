/** internal/publish/publish.go and internal/worker/compensator.go, against the real table. */
module Compensator {
  import opened Wrappers
  import opened Domain
  import opened EventStore

  /** What the broker answered to one publish. */
  datatype Receipt = DurableReceipt | VolatileReceipt | PublishFailed

  /** The publisher side of the broker: every Publish call made on it, in order. What becomes of a message is
      modelled by the queue modules. */
  class Outbox {
    var published: seq<EventId>

    constructor ()
      ensures published == []
    {
      published := [];
    }

    method Publish(id: EventId)
      modifies this
      ensures published == old(published) + [id]
    {
      published := published + [id];
    }
  }

  /** PublishAndMark: enqueued_at is written only after a durable receipt, and only while PENDING.
      Returns whether the call reported no error, which says nothing about a mark whose answer was lost. */
  method PublishAndMark(broker: Outbox, repo: EventRepo, id: EventId, receipt: Receipt, mark: Fate, now: Time)
    returns (ok: bool)
    requires repo.Valid()
    modifies broker, repo
    ensures repo.Valid()
    ensures broker.published == old(broker.published) + [id]
    ensures ok <==> (receipt == VolatileReceipt || (receipt == DurableReceipt && mark == Answered))
    ensures repo.rows ==
            if receipt == DurableReceipt && mark != NotRun && id in old(repo.rows)
            then Written(old(repo.rows), id, ExecuteMarkEnqueued(old(repo.rows)[id], now))
            else old(repo.rows)
    ensures repo.rows != old(repo.rows) ==>
              && receipt == DurableReceipt && mark != NotRun && id in old(repo.rows)
              && old(repo.rows)[id].status == PENDING
              && repo.rows == old(repo.rows)[id := old(repo.rows)[id].(enqueuedAt := Some(now))]
    ensures ok && receipt == DurableReceipt && id in old(repo.rows) && old(repo.rows)[id].status == PENDING ==>
              repo.rows[id].enqueuedAt == Some(now)
  {
    broker.Publish(id);
    if receipt == PublishFailed {
      return false;
    }
    if receipt != DurableReceipt {
      return true;
    }
    if mark == NotRun {
      return false;
    }
    repo.MarkEnqueued(id, now);
    return mark == Answered;
  }

  /** phaseOf: anything that is not the REQUESTING marker counts as CLAIMED. */
  predicate SeenRequesting(result: LastResult) {
    result.PhaseRequesting?
  }

  /** The record recoverOne writes, computed from the row as the scan read it. */
  function RecoveryResult(seen: Event, clock: Time): LastResult {
    var sent := SeenRequesting(seen.lastResult);
    Finished(RequeueRequested,
             if sent then "WORKER_LEASE_EXPIRED_DURING_REQUEST" else "WORKER_LEASE_EXPIRED",
             sent, Some(clock), seen.attemptCount)
  }

  function Fallback(lease: int): int {
    if lease <= 0 then 60_000_000_000 else lease
  }

  /** What recoverOne does to the row it scanned, or NoRow when it has nothing to do. */
  function RecoveryEffect(row: Event, seen: Event, lease: int, clock: Time, now: Time): Effect {
    if seen.leaseToken == None then
      if RequeueIsRequested(seen.lastResult) then ExecuteReserve(row, Fallback(lease), now) else NoRow
    else
      ExecuteRecover(row, seen.leaseToken.value, clock + Fallback(lease), RecoveryResult(seen, clock), now)
  }

  /** recoverOne on a possibly stale snapshot: republishes if and only if its guarded update won the row and said
      so; an update whose answer is lost may have changed the row, but publishes nothing. */
  method RecoverOne(broker: Outbox, repo: EventRepo, seen: Event, lease: int, clock: Time, now: Time,
                    update: Fate, receipt: Receipt, mark: Fate)
    requires repo.Valid()
    modifies broker, repo
    ensures repo.Valid()
    ensures var id := seen.identity.id;
            var e := if id in old(repo.rows) then RecoveryEffect(old(repo.rows)[id], seen, lease, clock, now) else NoRow;
            && repo.rows == (if update == NotRun then old(repo.rows) else Written(old(repo.rows), id, e))
            && broker.published == old(broker.published) + (if update == Answered && e.Updated? then [id] else [])
    ensures var id, deadline := seen.identity.id, if lease <= 0 then 60_000_000_000 else lease;
            id in old(repo.rows) && repo.rows != old(repo.rows) ==>
              var was, row := old(repo.rows)[id], repo.rows[id];
              && was.leaseToken == seen.leaseToken && was.leaseUntil.Some? && was.leaseUntil.value < now
              && row.status == PROCESSING == was.status && row.leaseToken == None
              && row.attemptCount == was.attemptCount
              && if seen.leaseToken == None then
                   row.leaseUntil == Some(now + deadline) && row.lastResult == was.lastResult
                 else
                   && row.leaseUntil == Some(clock + deadline) && row.providerResponse == None
                   && row.lastResult.Finished? && row.lastResult.outcome == RequeueRequested
                   && (row.lastResult.requestMayHaveBeenSent <==> seen.lastResult == PhaseRequesting)
                   && row.lastResult.errorClass == (if seen.lastResult == PhaseRequesting
                                                    then "WORKER_LEASE_EXPIRED_DURING_REQUEST"
                                                    else "WORKER_LEASE_EXPIRED")
                   && row.lastResult.nextAttemptAt == Some(clock)
                   && row.lastResult.attemptNumber == seen.attemptCount
  {
    var id := seen.identity.id;
    if seen.leaseToken == None && RequeueIsRequested(seen.lastResult) {
      var leaseDuration := lease;
      if leaseDuration <= 0 {
        leaseDuration := 60_000_000_000;
      }
      if update == NotRun {
        return;
      }
      var err := repo.ReserveExpiredRequeue(id, now, leaseDuration);
      if update == AnswerLost || err != NoError {
        return;
      }
      var _ := PublishAndMark(broker, repo, id, receipt, mark, now);
      return;
    }
    if seen.leaseToken == None {
      return;
    }
    var leaseDuration := lease;
    if leaseDuration <= 0 {
      leaseDuration := 60_000_000_000;
    }
    var requestMayHaveBeenSent := SeenRequesting(seen.lastResult);
    var errorClass := "WORKER_LEASE_EXPIRED";
    if requestMayHaveBeenSent {
      errorClass := "WORKER_LEASE_EXPIRED_DURING_REQUEST";
    }
    var result := Finished(RequeueRequested, errorClass, requestMayHaveBeenSent, Some(clock), seen.attemptCount);
    if update == NotRun {
      return;
    }
    var err := repo.RecoverExpiredToRequeue(id, seen.leaseToken.value, clock + leaseDuration, result, now);
    if update == AnswerLost || err != NoError {
      return;
    }
    var _ := PublishAndMark(broker, repo, id, receipt, mark, now);
  }
}
