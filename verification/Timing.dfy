/**
 What the protocol keeps in addition when the database clock behaves: a row that is never read before it is due
 keeps a wake-up, and under a clock that does not move back a renewed lease lasts.
 */
module Timing {
  import opened Wrappers
  import opened Domain
  import opened EventStore
  import opened Processor
  import opened Compensator
  import opened Wakeups
  import opened Protocol
  import opened Invariant

  // ---- which states are reached ----

  /** A state some run reaches after the row was inserted, whatever the clock does. */
  ghost predicate ReachableState(cfg: Config, s: State) {
    exists start, run :: Init(start) && Legal(cfg, start, run) && After(cfg, start, run) == s
  }

  /** A state some run reaches in which the clock never reads before the row's due time while it is PENDING. */
  ghost predicate ReachableOnTime(cfg: Config, s: State) {
    exists start, run ::
      && Init(start) && Legal(cfg, start, run) && After(cfg, start, run) == s
      && ReadsFrom(cfg, start, run, start.row.nextAttemptAt)
  }

  /** A state some run reaches in which the clock never moves back. */
  ghost predicate ReachableForward(cfg: Config, s: State) {
    exists start, run :: Init(start) && Legal(cfg, start, run) && After(cfg, start, run) == s && Forward(run)
  }

  lemma ReachableHolds(cfg: Config, s: State)
    requires ReachableState(cfg, s)
    ensures Inv(cfg, s)
  {
    var start, run :| Init(start) && Legal(cfg, start, run) && After(cfg, start, run) == s;
    InitHolds(cfg, start);
    RunHolds(cfg, start, run);
  }

  lemma ReachableExtends(cfg: Config, s: State, run: seq<Step>)
    requires ReachableState(cfg, s) && Legal(cfg, s, run)
    ensures ReachableState(cfg, After(cfg, s, run))
  {
    var start, before :| Init(start) && Legal(cfg, start, before) && After(cfg, start, before) == s;
    RunsCompose(cfg, start, before, run);
  }

  lemma DueTimeStays(cfg: Config, s: State, step: Step)
    requires Enabled(cfg, s, step)
    ensures Apply(cfg, s, step).row.nextAttemptAt == s.row.nextAttemptAt
  {
  }

  /** A clock that has passed the due time and does not move back keeps reading after it. */
  lemma {:induction false} ForwardReadsFrom(cfg: Config, s: State, run: seq<Step>, low: Time)
    requires Legal(cfg, s, run) && Forward(run) && low <= s.now
    ensures ReadsFrom(cfg, s, run, low)
    decreases |run|
  {
    if run != [] {
      assert ForwardStep(run[0]);
      ForwardReadsFrom(cfg, Apply(cfg, s, run[0]), run[1..], low);
    }
  }

  lemma ForwardIsOnTime(cfg: Config, s: State)
    requires ReachableForward(cfg, s)
    ensures ReachableOnTime(cfg, s)
  {
    var start, run :| Init(start) && Legal(cfg, start, run) && After(cfg, start, run) == s && Forward(run);
    ForwardReadsFrom(cfg, start, run, start.row.nextAttemptAt);
  }

  // ---- the wake-up of a row that is never read before it is due ----

  predicate Due(s: State) {
    s.row.status == PENDING ==> s.row.nextAttemptAt <= s.now
  }

  ghost predicate WakeUpOk(s: State) {
    s.row.status == PENDING && (s.marks > 0 || s.row.enqueuedAt.Some?) ==> HasDurable(s.copies)
  }

  /** While the row is PENDING no caller is about to acknowledge a wake-up. */
  ghost predicate Quiet(s: State, t: Token)
    requires t in s.callers
  {
    var p := s.callers[t].phase;
    s.row.status == PENDING ==>
      p.Fresh? || p.Crashed? || (p.Returning? && !p.ack) || (p.Ended? && !p.ack)
  }

  ghost predicate OnTime(s: State) {
    Due(s) && WakeUpOk(s) && forall t :: t in s.callers ==> Quiet(s, t)
  }

  /** No step turns a row back to PENDING. */
  lemma PendingIsNeverRestored(cfg: Config, s: State, step: Step)
    requires Inv(cfg, s) && Enabled(cfg, s, step) && Apply(cfg, s, step).row.status == PENDING
    ensures s.row.status == PENDING && (step.Act? ==> !Lands(s, step))
    ensures Apply(cfg, s, step).row.enqueuedAt.Some? ==> s.row.enqueuedAt.Some? || step.Mark?
  {
    assert Ready(cfg, s, step);
    if step.Act? {
      OnlyActorMoves(cfg, s, step);
      if Lands(s, step) {
        OnlyHolderLands(cfg, s, step);
      }
    }
  }

  lemma QuietStep(cfg: Config, s: State, step: Step, t: Token)
    requires Inv(cfg, s) && OnTime(s) && Enabled(cfg, s, step) && t in Apply(cfg, s, step).callers
    requires Apply(cfg, s, step).row.status == PENDING
    ensures Quiet(Apply(cfg, s, step), t)
  {
    PendingIsNeverRestored(cfg, s, step);
    if t in s.callers {
      assert Quiet(s, t);
    }
    if step.Act? && step.token == t && step.action.Run? {
      assert Issues(cfg, s.callers[t].phase, step.action.st);
      assert s.callers[t].phase.Fresh?;
      assert Claimable(s.row, s.now);
    }
  }

  lemma WakeUpStep(cfg: Config, s: State, step: Step)
    requires Inv(cfg, s) && OnTime(s) && Enabled(cfg, s, step)
    ensures WakeUpOk(Apply(cfg, s, step))
  {
    var s' := Apply(cfg, s, step);
    if s'.row.status == PENDING && (s'.marks > 0 || s'.row.enqueuedAt.Some?) {
      PendingIsNeverRestored(cfg, s, step);
      if step.Publish? && step.durable {
        assert s'.copies[step.copy].durable && !s'.copies[step.copy].replaced;
      } else {
        assert s.marks > 0 || s.row.enqueuedAt.Some?;
        CopiesStep(cfg, s, step);
      }
    }
  }

  /** While the row is PENDING no step takes the last durable wake-up away. */
  lemma CopiesStep(cfg: Config, s: State, step: Step)
    requires Inv(cfg, s) && OnTime(s) && Enabled(cfg, s, step) && s.row.status == PENDING && HasDurable(s.copies)
    ensures HasDurable(Apply(cfg, s, step).copies)
  {
    StepMovesWakeups(cfg, s, step);
    var m := MoveOf(cfg, s, step);
    if step.Act? {
      assert Quiet(s, step.token);
    } else if m.Some? {
      OnlyAckTakesDurable(s.copies, m.value);
    }
  }

  lemma OnTimeStep(cfg: Config, s: State, step: Step)
    requires Inv(cfg, s) && OnTime(s) && Enabled(cfg, s, step) && Due(Apply(cfg, s, step))
    ensures OnTime(Apply(cfg, s, step))
  {
    var s' := Apply(cfg, s, step);
    WakeUpStep(cfg, s, step);
    forall t | t in s'.callers ensures Quiet(s', t) {
      if s'.row.status == PENDING {
        QuietStep(cfg, s, step, t);
      }
    }
  }

  lemma {:induction false} OnTimeRun(cfg: Config, s: State, run: seq<Step>)
    requires Inv(cfg, s) && OnTime(s) && Legal(cfg, s, run) && ReadsFrom(cfg, s, run, s.row.nextAttemptAt)
    ensures OnTime(After(cfg, s, run))
    decreases |run|
  {
    if run != [] {
      DueTimeStays(cfg, s, run[0]);
      StepHolds(cfg, s, run[0]);
      OnTimeStep(cfg, s, run[0]);
      OnTimeRun(cfg, Apply(cfg, s, run[0]), run[1..]);
    }
  }

  lemma ReachableIsOnTime(cfg: Config, s: State)
    requires ReachableOnTime(cfg, s)
    ensures Inv(cfg, s) && OnTime(s) && ReachableState(cfg, s)
  {
    var start, run :|
      && Init(start) && Legal(cfg, start, run) && After(cfg, start, run) == s
      && ReadsFrom(cfg, start, run, start.row.nextAttemptAt);
    ReachableHolds(cfg, s);
    InitHolds(cfg, start);
    OnTimeRun(cfg, start, run);
  }

  // ---- leases under a clock that does not move back ----

  /** Whoever renewed its lease to call, or called and has no answer yet, still holds it or has outlasted it. */
  ghost predicate Punctual(cfg: Config, s: State, t: Token)
    requires t in s.callers
  {
    var w := s.callers[t];
    w.renewedAt.Some? ==>
      && w.renewedAt.value <= s.now
      && (w.phase.Renewed? || InFlight(s, t) ==> Live(s, t) || s.now > w.renewedAt.value + cfg.lease)
  }

  /** A snapshot that saw no REQUESTING marker was taken before its holder renewed the lease. */
  ghost predicate Preceding(s: State, seen: Snapshot) {
    && seen.at <= s.now
    && (seen.row.leaseToken.Some? && !SeenRequesting(seen.row.lastResult) ==>
          var t := seen.row.leaseToken.value;
          t in s.callers && s.callers[t].renewedAt.Some? ==> seen.at <= s.callers[t].renewedAt.value)
  }

  ghost predicate Timely(cfg: Config, s: State) {
    && (forall t :: t in s.callers ==> Punctual(cfg, s, t))
    && (forall seen :: seen in s.snapshots ==> Preceding(s, seen))
  }

  lemma ActorOfStatementStaysPunctual(cfg: Config, s: State, step: Step)
    requires Ready(cfg, s, step) && step.Act? && step.action.Run? && Punctual(cfg, s, step.token)
    ensures Punctual(cfg, Apply(cfg, s, step), step.token)
  {
    var t := step.token;
    assert CallHistory(s, t);
    assert !InFlight(s, t);
    if Lands(s, step) {
      StatementLands(cfg, s, step);
    }
  }

  lemma ActorStaysPunctual(cfg: Config, s: State, step: Step)
    requires Ready(cfg, s, step) && step.Act? && Punctual(cfg, s, step.token)
    ensures Punctual(cfg, Apply(cfg, s, step), step.token)
  {
    if step.action.Run? {
      ActorOfStatementStaysPunctual(cfg, s, step);
    } else {
      assert CallHistory(s, step.token);
      OnlyActorMoves(cfg, s, step);
    }
  }

  lemma BystanderStaysPunctual(cfg: Config, s: State, step: Step, u: Token)
    requires Inv(cfg, s) && Enabled(cfg, s, step) && ForwardStep(step)
    requires u in s.callers && Punctual(cfg, s, u) && !((step.Act? || step.Crash?) && step.token == u)
    ensures Punctual(cfg, Apply(cfg, s, step), u)
  {
    assert CallerOk(cfg, s, u) && LeaseHistory(cfg, s, u);
    assert Ready(cfg, s, step);
    BystandersUndisturbed(cfg, s, step, u);
    if step.Act? {
      OnlyActorMoves(cfg, s, step);
      if Lands(s, step) {
        OnlyHolderLands(cfg, s, step);
      }
    }
  }

  lemma PunctualStep(cfg: Config, s: State, step: Step, u: Token)
    requires Inv(cfg, s) && Timely(cfg, s) && Enabled(cfg, s, step) && ForwardStep(step)
    requires u in Apply(cfg, s, step).callers
    ensures Punctual(cfg, Apply(cfg, s, step), u)
  {
    if step.Act? {
      OnlyActorMoves(cfg, s, step);
    }
    if u in s.callers {
      assert Punctual(cfg, s, u);
      if step.Act? && step.token == u {
        assert Ready(cfg, s, step);
        ActorStaysPunctual(cfg, s, step);
      } else if !(step.Crash? && step.token == u) {
        BystanderStaysPunctual(cfg, s, step, u);
      }
    }
  }

  lemma PrecedingStep(cfg: Config, s: State, step: Step, seen: Snapshot)
    requires Inv(cfg, s) && Timely(cfg, s) && Enabled(cfg, s, step) && ForwardStep(step)
    requires seen in Apply(cfg, s, step).snapshots
    ensures Preceding(Apply(cfg, s, step), seen)
  {
    if step.Act? {
      OnlyActorMoves(cfg, s, step);
    }
    if seen in s.snapshots {
      assert SnapshotOk(s, seen) && Preceding(s, seen);
    } else if s.row.leaseToken.Some? {
      assert s.stack[|s.stack| - 1] == s.row.leaseToken.value;
      assert CallerOk(cfg, s, s.row.leaseToken.value) && LeaseHistory(cfg, s, s.row.leaseToken.value);
    }
  }

  lemma TimelyStep(cfg: Config, s: State, step: Step)
    requires Inv(cfg, s) && Timely(cfg, s) && Enabled(cfg, s, step) && ForwardStep(step)
    ensures Timely(cfg, Apply(cfg, s, step))
  {
    var s' := Apply(cfg, s, step);
    forall u | u in s'.callers ensures Punctual(cfg, s', u) {
      PunctualStep(cfg, s, step, u);
    }
    forall seen | seen in s'.snapshots ensures Preceding(s', seen) {
      PrecedingStep(cfg, s, step, seen);
    }
  }

  lemma {:induction false} TimelyRun(cfg: Config, s: State, run: seq<Step>)
    requires Inv(cfg, s) && Timely(cfg, s) && Legal(cfg, s, run) && Forward(run)
    ensures Timely(cfg, After(cfg, s, run))
    decreases |run|
  {
    if run != [] {
      assert ForwardStep(run[0]);
      StepHolds(cfg, s, run[0]);
      TimelyStep(cfg, s, run[0]);
      TimelyRun(cfg, Apply(cfg, s, run[0]), run[1..]);
    }
  }

  lemma ReachableIsTimely(cfg: Config, s: State)
    requires ReachableForward(cfg, s)
    ensures Inv(cfg, s) && Timely(cfg, s) && ReachableState(cfg, s)
  {
    var start, run :| Init(start) && Legal(cfg, start, run) && After(cfg, start, run) == s && Forward(run);
    ReachableHolds(cfg, s);
    InitHolds(cfg, start);
    TimelyRun(cfg, start, run);
  }
}
