/**
 From which states a final status can still be reached, and which runs reach the ends of the counter. The states
 are those of all runs, whatever the clock did; the continuations built from them never move it back.
 */
module Finish {
  import opened Wrappers
  import opened Domain
  import opened EventStore
  import opened Processor
  import opened Compensator
  import opened Protocol
  import opened Invariant
  import opened Timing
  import opened Safety
  import opened Progress
  import Counting

  ghost predicate Leads(cfg: Config, s: State, run: seq<Step>, e: State) {
    Legal(cfg, s, run) && After(cfg, s, run) == e && Forward(run)
  }

  lemma Then(cfg: Config, s: State, run: seq<Step>, e: State, step: Step) returns (e': State, run': seq<Step>)
    requires Leads(cfg, s, run, e) && Enabled(cfg, e, step) && ForwardStep(step)
    ensures run' == run + [step] && e' == Apply(cfg, e, step) && Leads(cfg, s, run', e')
  {
    e', run' := Extend(cfg, s, run, e, step);
  }

  lemma LeadsCompose(cfg: Config, s: State, a: seq<Step>, m: State, b: seq<Step>, e: State)
    requires Leads(cfg, s, a, m) && Leads(cfg, m, b, e)
    ensures Leads(cfg, s, a + b, e)
  {
    RunsCompose(cfg, s, a, b);
  }

  ghost predicate CanFinish(cfg: Config, s: State) {
    exists run, e :: Leads(cfg, s, run, e) && Terminal(e.row)
  }

  /** The row waits to be claimed, and a wake-up exists or one of the scans will find the row. */
  ghost predicate Open(s: State) {
    || Waiting(s.row)
    || (s.row.status == PENDING && (s.row.enqueuedAt == None || s.copies != map[] || s.publishers > 0))
  }

  /** An open row gets a wake-up ready for delivery by the code's own means: the publish scan once the row is due, a
      publisher or a copy that is still there, or the expired-lease scan once the recovery deadline has passed. */
  lemma WakeUp(cfg: Config, s: State) returns (run: seq<Step>, e: State, c: nat)
    requires Inv(cfg, s) && Open(s)
    ensures Leads(cfg, s, run, e) && c in e.copies && e.copies[c].holder == None
    ensures Claimable(e.row, e.now) && e.row.attemptCount == s.row.attemptCount
    ensures e.calls == s.calls && e.callers == s.callers
  {
    if s.row.status == PENDING {
      run, e, c := WakeUpPending(cfg, s);
    } else {
      run, e := [], s;
      e, run := Then(cfg, s, run, e, Tick(Remaining(s)));
      e, run := Then(cfg, s, run, e, Scan);
      e, run := Then(cfg, s, run, e, Recover(Snapshot(e.row, e.now), e.now));
      c := Counting.FreshNumber(e.copies.Keys);
      e, run := Then(cfg, s, run, e, Publish(c, true, true));
    }
  }

  lemma WakeUpPending(cfg: Config, s: State) returns (run: seq<Step>, e: State, c: nat)
    requires s.row.status == PENDING && Open(s)
    ensures Leads(cfg, s, run, e) && c in e.copies && e.copies[c].holder == None
    ensures Claimable(e.row, e.now) && e.row == s.row && e.calls == s.calls && e.callers == s.callers
  {
    run, e := [], s;
    e, run := Then(cfg, s, run, e, Tick(UntilDue(s)));
    if s.copies != map[] {
      c :| c in s.copies;
      e, run := Then(cfg, s, run, e, Disconnect(c));
      return;
    }
    if s.publishers == 0 {
      e, run := Then(cfg, s, run, e, ScanPending);
    }
    c := Counting.FreshNumber(e.copies.Keys);
    e, run := Then(cfg, s, run, e, Publish(c, true, true));
  }

  function UntilDue(s: State): nat {
    if s.row.nextAttemptAt <= s.now then 0 else s.row.nextAttemptAt - s.now
  }

  /** How long until the row's lease or recovery deadline is in the past. */
  function Remaining(s: State): nat {
    if s.row.leaseUntil.None? || s.row.leaseUntil.value < s.now then 0 else s.row.leaseUntil.value - s.now + 1
  }

  /** A wake-up is delivered and claimed. */
  lemma WakeAndClaim(cfg: Config, s: State) returns (run: seq<Step>, e: State, t: Token)
    requires Inv(cfg, s) && Open(s) && s.row.attemptCount < MAX_SMALLINT
    ensures Leads(cfg, s, run, e)
    ensures t in e.callers && e.callers[t].phase == Claimed(s.row.attemptCount + 1)
    ensures HeldBy(e.row, t) && e.row.attemptCount == s.row.attemptCount + 1
    ensures e.row.lastResult == PhaseClaimed && e.row.leaseUntil == Some(e.now + cfg.lease)
    ensures e.calls == s.calls && t !in s.callers && e.callers == s.callers[t := e.callers[t]]
  {
    var c;
    run, e, c := WakeUp(cfg, s);
    t := Counting.FreshNumber(s.callers.Keys);
    e, run := Then(cfg, s, run, e, Deliver(t, c));
    e, run := Then(cfg, s, run, e, Act(t, Run(Claim(cfg.lease), Done(s.row.attemptCount + 1)), true));
  }

  /** The claim is admitted by registry, breaker and limiter. */
  lemma Admit(cfg: Config, s: State, t: Token) returns (run: seq<Step>, e: State)
    requires t in s.callers && s.callers[t].phase == Claimed(s.row.attemptCount)
    requires !Exhausted(cfg, s.row.attemptCount)
    ensures Leads(cfg, s, run, e)
    ensures e == s.(callers := s.callers[t := s.callers[t].(phase := Slotted(s.row.attemptCount))])
  {
    run, e := [], s;
    e, run := Then(cfg, s, run, e, Act(t, Lookup(true), true));
    e, run := Then(cfg, s, run, e, Act(t, Allow(true), true));
    e, run := Then(cfg, s, run, e, Act(t, Acquire(true), true));
  }

  /** The row is marked REQUESTING and its lease renewed. */
  lemma MarkAndRenew(cfg: Config, s: State, t: Token) returns (run: seq<Step>, e: State)
    requires t in s.callers && s.callers[t].phase == Slotted(s.row.attemptCount) && HeldBy(s.row, t)
    ensures Leads(cfg, s, run, e)
    ensures e.row == s.row.(lastResult := PhaseRequesting, leaseUntil := Some(s.now + cfg.lease))
    ensures t in e.callers && e.callers == s.callers[t := e.callers[t]]
    ensures e.callers[t].phase == Renewed(s.row.attemptCount)
    ensures e.calls == s.calls && e.now == s.now && e.snapshots == s.snapshots
  {
    var n := s.row.attemptCount;
    e, run := Then(cfg, s, [], s, Act(t, Run(MarkRequesting, Done(n)), true));
    e, run := Then(cfg, s, run, e, Act(t, Run(RenewLease(cfg.lease), Done(n)), true));
  }

  /** The claim is admitted, the row marked, the lease renewed and the provider called. */
  lemma UpToCall(cfg: Config, s: State, t: Token) returns (run: seq<Step>, e: State)
    requires t in s.callers && s.callers[t].phase == Claimed(s.row.attemptCount)
    requires HeldBy(s.row, t) && !Exhausted(cfg, s.row.attemptCount)
    ensures Leads(cfg, s, run, e)
    ensures e.row == s.row.(lastResult := PhaseRequesting, leaseUntil := Some(s.now + cfg.lease))
    ensures t in e.callers && e.callers == s.callers[t := e.callers[t]]
    ensures e.callers[t].phase == Calling(s.row.attemptCount)
    ensures e.calls == s.calls + [t] && e.now == s.now && e.snapshots == s.snapshots
  {
    var b, m;
    run, m := Admit(cfg, s, t);
    b, e := MarkAndRenew(cfg, m, t);
    LeadsCompose(cfg, s, run, m, b, e);
    e, run := Then(cfg, s, run + b, e, Act(t, Send, true));
  }

  /** A claim beyond the limit is settled FAILED without a call. */
  lemma FailUncalled(cfg: Config, s: State, t: Token) returns (run: seq<Step>, e: State)
    requires t in s.callers && s.callers[t].phase == Claimed(s.row.attemptCount)
    requires HeldBy(s.row, t) && Exhausted(cfg, s.row.attemptCount)
    ensures Leads(cfg, s, run, e) && e.row.status == FAILED && e.calls == s.calls
    ensures e.row.attemptCount == s.row.attemptCount - 1
  {
    var n := s.row.attemptCount;
    var result := Finished(OutcomeFailed, "MAX_PROVIDER_ATTEMPTS_EXHAUSTED", false, None, n - 1);
    e, run := Then(cfg, s, [], s, Act(t, Run(MarkFailedUncalled(result), Done(n - 1)), true));
  }

  /** A held lease is outlived, scanned and recovered; the row waits again with the same count. */
  lemma OutliveAndRecover(cfg: Config, s: State) returns (run: seq<Step>, e: State)
    requires Inv(cfg, s) && s.row.status == PROCESSING && s.row.leaseToken.Some?
    ensures Leads(cfg, s, run, e)
    ensures Waiting(e.row) && e.row.attemptCount == s.row.attemptCount
    ensures e.calls == s.calls && e.callers == s.callers
  {
    run, e := [], s;
    e, run := Then(cfg, s, run, e, Tick(Remaining(s)));
    e, run := Then(cfg, s, run, e, Scan);
    e, run := Then(cfg, s, run, e, Recover(Snapshot(e.row, e.now), e.now));
  }

  lemma StepTowardsFinish(cfg: Config, s: State, step: Step)
    requires Enabled(cfg, s, step) && ForwardStep(step) && CanFinish(cfg, Apply(cfg, s, step))
    ensures CanFinish(cfg, s)
  {
    var m := Apply(cfg, s, step);
    var run, e :| Leads(cfg, m, run, e) && Terminal(e.row);
    var m', first := Then(cfg, s, [], s, step);
    LeadsCompose(cfg, s, first, m, run, e);
  }

  lemma RunTowardsFinish(cfg: Config, s: State, run: seq<Step>, m: State)
    requires Leads(cfg, s, run, m) && CanFinish(cfg, m)
    ensures CanFinish(cfg, s)
  {
    var rest, e :| Leads(cfg, m, rest, e) && Terminal(e.row);
    LeadsCompose(cfg, s, run, m, rest, e);
  }

  lemma TerminalHasFinished(cfg: Config, s: State)
    requires Terminal(s.row)
    ensures CanFinish(cfg, s)
  {
    assert Leads(cfg, s, [], s);
  }

  /** The attempt has an outcome that does not end the event: a failure that is not the last one allowed. */
  predicate FailsOnly(cfg: Config, p: Phase) {
    || (p.Received? && !ToldSuccess(p.sent) && !LastAttempt(cfg, p.n))
    || (p.Settling? && !p.result.success && !LastAttempt(cfg, p.n))
  }

  /** The phases from which a holder can still settle its row. */
  predicate MaySettle(cfg: Config, p: Phase) {
    Numbered(p) && !p.Deferring? && !FailsOnly(cfg, p)
  }

  /** How many actions such a holder is away from settling. */
  function Distance(p: Phase): nat {
    match p
    case Claimed(_) => 9
    case Admitted(_) => 8
    case Permitted(_) => 7
    case Slotted(_) => 6
    case Marked(_) => 5
    case Renewed(_) => 4
    case Calling(_) => 3
    case Received(_, _) => 2
    case Settling(_, _, _) => 1
    case _ => 0
  }

  /** The next action of a holder that meets no obstacle and whose provider reports success. */
  function NextAction(cfg: Config, p: Phase): Action
    requires MaySettle(cfg, p)
  {
    match p
    case Claimed(n) =>
      if Exhausted(cfg, n)
      then Run(MarkFailedUncalled(Finished(OutcomeFailed, "", false, None, Earlier(n))), Done(RolledBack(n)))
      else Lookup(true)
    case Admitted(_) => Allow(true)
    case Permitted(_) => Acquire(true)
    case Slotted(n) => Run(MarkRequesting, Done(n))
    case Marked(n) => Run(RenewLease(cfg.lease), Done(n))
    case Renewed(_) => Send
    case Calling(_) => Receive(Response(true, false, "", None))
    case Received(_, sent) => Observe(ObservationOf(sent))
    case Settling(n, result, _) =>
      if result.success then Run(MarkSucceeded(Finished(OutcomeSucceeded, "", false, None, n), result.body), Done(n))
      else Run(MarkFailed(Finished(OutcomeFailed, "", false, None, n), result.body), Done(n))
  }

  lemma NextActionProgresses(cfg: Config, s: State, t: Token)
    requires t in s.callers && HeldBy(s.row, t) && MaySettle(cfg, s.callers[t].phase)
    requires s.callers[t].phase.n == s.row.attemptCount
    ensures var step := Act(t, NextAction(cfg, s.callers[t].phase), true);
            && Enabled(cfg, s, step)
            && var s' := Apply(cfg, s, step);
               || Terminal(s'.row)
               || (&& HeldBy(s'.row, t) && MaySettle(cfg, s'.callers[t].phase)
                   && s'.callers[t].phase.n == s'.row.attemptCount
                   && Distance(s'.callers[t].phase) < Distance(s.callers[t].phase))
  {
    var p := s.callers[t].phase;
    var a := NextAction(cfg, p);
    if a.Run? {
      assert Landed(s, Act(t, a, true)) == Updated(Settled(s.row, a.st, s.now));
    }
  }

  lemma {:induction false} HolderCanFinish(cfg: Config, s: State, t: Token)
    requires t in s.callers && HeldBy(s.row, t) && MaySettle(cfg, s.callers[t].phase)
    requires s.callers[t].phase.n == s.row.attemptCount
    ensures CanFinish(cfg, s)
    decreases Distance(s.callers[t].phase)
  {
    var step := Act(t, NextAction(cfg, s.callers[t].phase), true);
    NextActionProgresses(cfg, s, t);
    var s' := Apply(cfg, s, step);
    if Terminal(s'.row) {
      TerminalHasFinished(cfg, s');
    } else {
      HolderCanFinish(cfg, s', t);
    }
    StepTowardsFinish(cfg, s, step);
  }

  lemma OpenRowCanFinish(cfg: Config, s: State)
    requires Inv(cfg, s) && Open(s) && s.row.attemptCount < MAX_SMALLINT
    ensures CanFinish(cfg, s)
  {
    var a, e, t := WakeAndClaim(cfg, s);
    HolderCanFinish(cfg, e, t);
    RunTowardsFinish(cfg, s, a, e);
  }

  /** A PENDING row nobody else would find is still claimed by a caller that is about to. */
  lemma FreshCallerCanFinish(cfg: Config, s: State, t: Token)
    requires Inv(cfg, s) && s.row.status == PENDING && t in s.callers && s.callers[t].phase.Fresh?
    ensures CanFinish(cfg, s)
  {
    var run, e := [], s;
    e, run := Then(cfg, s, run, e, Tick(UntilDue(s)));
    e, run := Then(cfg, s, run, e, Act(t, Run(Claim(cfg.lease), Done(1)), true));
    HolderCanFinish(cfg, e, t);
    RunTowardsFinish(cfg, s, run, e);
  }

  /** A caller that asked for a requeue ends, and its broker publishes the wake-up again. */
  lemma {:induction false} RequeuerCanFinish(cfg: Config, s: State, t: Token)
    requires Inv(cfg, s) && s.row.status == PENDING && t in s.callers && s.callers[t].handed.durable
    requires var p := s.callers[t].phase; (p.Aborting? || p.Returning? || p.Ended?) && !p.ack
    ensures CanFinish(cfg, s)
    decreases ActionsToEnd(s.callers[t].phase)
  {
    var p := s.callers[t].phase;
    var step :=
      if p.Aborting? then Act(t, Abort, true)
      else if p.Returning? && p.slot then Act(t, Release, true)
      else if p.Returning? then Act(t, Return(false), true)
      else Republish(t, Counting.Fresh(s.copies.Keys));
    StepHolds(cfg, s, step);
    if p.Ended? {
      assert Counting.Fresh(s.copies.Keys) in Apply(cfg, s, step).copies;
      OpenRowCanFinish(cfg, Apply(cfg, s, step));
    } else {
      RequeuerCanFinish(cfg, Apply(cfg, s, step), t);
    }
    StepTowardsFinish(cfg, s, step);
  }

  function ActionsToEnd(p: Phase): nat {
    if p.Aborting? then 3 else if p.Returning? && p.slot then 2 else if p.Returning? then 1 else 0
  }

  lemma PendingRowCanFinish(cfg: Config, s: State)
    requires Inv(cfg, s) && s.row.status == PENDING && !Lost(s)
    ensures CanFinish(cfg, s)
  {
    if Open(s) {
      OpenRowCanFinish(cfg, s);
    } else {
      var t :| t in s.callers && CanStillHelp(s.callers[t]);
      if s.callers[t].phase.Fresh? {
        FreshCallerCanFinish(cfg, s, t);
      } else {
        RequeuerCanFinish(cfg, s, t);
      }
    }
  }

  lemma RowCanFinish(cfg: Config, s: State)
    requires Inv(cfg, s) && s.row.attemptCount < MAX_SMALLINT && !Lost(s)
    ensures CanFinish(cfg, s)
  {
    if Terminal(s.row) {
      TerminalHasFinished(cfg, s);
    } else if s.row.status == PENDING {
      PendingRowCanFinish(cfg, s);
    } else if s.row.leaseToken.Some? {
      var a, e := OutliveAndRecover(cfg, s);
      RunHolds(cfg, s, a);
      OpenRowCanFinish(cfg, e);
      RunTowardsFinish(cfg, s, a, e);
    } else {
      OpenRowCanFinish(cfg, s);
    }
  }

  /** No row with room left in attempt_count is a dead end, as long as a PENDING row is never read before it is due:
      some continuation settles it. */
  lemma EveryRowCanFinish(cfg: Config, s: State)
    requires ReachableOnTime(cfg, s) && s.row.attemptCount < MAX_SMALLINT
    ensures CanFinish(cfg, s)
  {
    ReachableIsOnTime(cfg, s);
    NoEventIsLost(cfg, s);
    RowCanFinish(cfg, s);
  }

  /** The row is at the top of the counter and nobody is left who could settle it or give an attempt back: it waits,
      or its holder is gone, on its way out, or has a failure to record that is not the last one allowed. */
  predicate DeadEnd(cfg: Config, s: State) {
    && s.row.status == PROCESSING && s.row.attemptCount == MAX_SMALLINT
    && if s.row.leaseToken.Some? then
         s.row.leaseToken.value in s.callers ==>
           var p := s.callers[s.row.leaseToken.value].phase; !Numbered(p) || FailsOnly(cfg, p)
       else RequeueIsRequested(s.row.lastResult)
  }

  lemma DeadEndStatement(cfg: Config, s: State, step: Step)
    requires Ready(cfg, s, step) && DeadEnd(cfg, s) && Lands(s, step)
    ensures step.action.st.MarkWaiting? && s.row.leaseToken.Some? && Waiting(Apply(cfg, s, step).row)
    ensures Apply(cfg, s, step).row.attemptCount == MAX_SMALLINT
  {
    StatementLands(cfg, s, step);
  }

  /** A holder with nothing but a failure to record, or none at all, stays that way while the row stands still. */
  lemma DeadEndMove(cfg: Config, s: State, step: Step)
    requires step.Act? && Enabled(cfg, s, step) && !Lands(s, step) && DeadEnd(cfg, s)
    requires s.row.leaseToken == Some(step.token) ==> !s.callers[step.token].phase.Fresh?
    ensures DeadEnd(cfg, Apply(cfg, s, step)) && Apply(cfg, s, step).row == s.row
  {
    OnlyActorMoves(cfg, s, step);
  }

  /** At 32767 every claim overflows the SMALLINT column, so no step leads out of a dead end. */
  lemma DeadEndStep(cfg: Config, s: State, step: Step)
    requires Ready(cfg, s, step) && DeadEnd(cfg, s)
    requires s.row.leaseToken.Some? ==>
               s.row.leaseToken.value in s.callers && !s.callers[s.row.leaseToken.value].phase.Fresh?
    ensures DeadEnd(cfg, Apply(cfg, s, step))
    ensures Waiting(s.row) ==> Waiting(Apply(cfg, s, step).row)
  {
    if step.Act? {
      if Lands(s, step) {
        DeadEndStatement(cfg, s, step);
      } else {
        DeadEndMove(cfg, s, step);
      }
    }
  }

  lemma {:induction false} DeadEndIsFinal(cfg: Config, s: State, run: seq<Step>)
    requires Inv(cfg, s) && DeadEnd(cfg, s) && Legal(cfg, s, run)
    ensures DeadEnd(cfg, After(cfg, s, run))
    ensures Waiting(s.row) ==> Waiting(After(cfg, s, run).row)
    decreases |run|
  {
    if run != [] {
      if s.row.leaseToken.Some? {
        assert s.stack[|s.stack| - 1] == s.row.leaseToken.value;
      }
      StepHolds(cfg, s, run[0]);
      DeadEndStep(cfg, s, run[0]);
      DeadEndIsFinal(cfg, Apply(cfg, s, run[0]), run[1..]);
    }
  }

  /** A waiting row at the top of the counter waits forever. */
  lemma FullRowNeverFinishes(cfg: Config, s: State, run: seq<Step>)
    requires Inv(cfg, s) && Waiting(s.row) && s.row.attemptCount == MAX_SMALLINT && Legal(cfg, s, run)
    ensures Waiting(After(cfg, s, run).row) && After(cfg, s, run).row.attemptCount == MAX_SMALLINT
  {
    DeadEndIsFinal(cfg, s, run);
  }

  /** A holder at the top of the counter that was refused by the breaker gives its attempt back. */
  lemma DeferralMakesRoom(cfg: Config, s: State, t: Token)
    requires Inv(cfg, s) && HeldBy(s.row, t) && t in s.callers
    requires s.callers[t].phase == Deferring(s.row.attemptCount) && s.row.attemptCount == MAX_SMALLINT
    ensures CanFinish(cfg, s)
  {
    var n := s.row.attemptCount;
    var st := MarkCircuitOpen(cfg.lease, Finished(RequeueRequested, "CIRCUIT_OPEN", false, Some(0), n - 1));
    var step := Act(t, Run(st, Done(n - 1)), true);
    assert Landed(s, step) == Updated(Settled(s.row, st, s.now));
    StepHolds(cfg, s, step);
    OpenRowCanFinish(cfg, Apply(cfg, s, step));
    StepTowardsFinish(cfg, s, step);
  }

  /** In every reachable state, whatever the clock did: a final status can be reached if and only if the row is no
      dead end and the event is not lost. */
  lemma RowFinishesIff(cfg: Config, s: State)
    requires ReachableState(cfg, s)
    ensures CanFinish(cfg, s) <==> !DeadEnd(cfg, s) && !Lost(s)
  {
    ReachableHolds(cfg, s);
    if DeadEnd(cfg, s) || Lost(s) {
      forall run, e | Leads(cfg, s, run, e) ensures !Terminal(e.row) {
        if Lost(s) {
          LostIsFinal(cfg, s, run);
        } else {
          DeadEndIsFinal(cfg, s, run);
        }
      }
    } else if s.row.attemptCount < MAX_SMALLINT {
      RowCanFinish(cfg, s);
    } else if Terminal(s.row) {
      TerminalHasFinished(cfg, s);
    } else {
      var t := s.row.leaseToken.value;
      assert CallerOk(cfg, s, t) && Position(cfg, s, t);
      if s.callers[t].phase.Deferring? {
        DeferralMakesRoom(cfg, s, t);
      } else {
        HolderCanFinish(cfg, s, t);
      }
    }
  }

  /** Exactly the waiting rows below the top of the counter can still be settled. */
  lemma WaitingRowFinishesIff(cfg: Config, s: State)
    requires ReachableState(cfg, s) && Waiting(s.row)
    ensures CanFinish(cfg, s) <==> s.row.attemptCount < MAX_SMALLINT
  {
    ReachableHolds(cfg, s);
    RowFinishesIff(cfg, s);
  }

  /** A worker that dies right after its claim costs one attempt and makes no call. */
  lemma DieAfterClaim(cfg: Config, s: State) returns (run: seq<Step>, e: State)
    requires Inv(cfg, s) && Open(s) && s.row.attemptCount < MAX_SMALLINT
    ensures Leads(cfg, s, run, e)
    ensures Waiting(e.row) && e.row.attemptCount == s.row.attemptCount + 1 && e.calls == s.calls
  {
    var a, m, t := WakeAndClaim(cfg, s);
    RunHolds(cfg, s, a);
    var b, f := OutliveAndRecover(cfg, m);
    LeadsCompose(cfg, s, a, m, b, f);
    run, e := a + b, f;
  }

  lemma {:induction false} DieRepeatedly(cfg: Config, s: State, k: nat) returns (run: seq<Step>, e: State)
    requires Inv(cfg, s) && Open(s) && s.row.attemptCount + k <= MAX_SMALLINT
    ensures Leads(cfg, s, run, e) && Open(e)
    ensures e.row.attemptCount == s.row.attemptCount + k && e.calls == s.calls && (k > 0 ==> Waiting(e.row))
  {
    if k == 0 {
      run, e := [], s;
    } else {
      var a, m := DieRepeatedly(cfg, s, k - 1);
      RunHolds(cfg, s, a);
      var b, f := DieAfterClaim(cfg, m);
      LeadsCompose(cfg, s, a, m, b, f);
      run, e := a + b, f;
    }
  }

  /** The top of the counter is reachable under every configuration: there are events that never finish. */
  lemma StuckRowIsReachable(cfg: Config, s: State) returns (run: seq<Step>, e: State)
    requires Init(s)
    ensures Leads(cfg, s, run, e) && Waiting(e.row) && !CanFinish(cfg, e)
  {
    InitHolds(cfg, s);
    run, e := DieRepeatedly(cfg, s, MAX_SMALLINT);
    assert ReachableState(cfg, e);
    WaitingRowFinishesIff(cfg, e);
  }

  /** With a limit M below 32767 an event can end FAILED with count M although the provider was never called. */
  lemma FailedWithoutAnyCall(cfg: Config, s: State) returns (run: seq<Step>, e: State)
    requires Init(s) && 0 < cfg.maxAttempts < MAX_SMALLINT
    ensures Leads(cfg, s, run, e)
    ensures e.row.status == FAILED && e.row.attemptCount == cfg.maxAttempts && e.calls == []
  {
    InitHolds(cfg, s);
    var a, m := DieRepeatedly(cfg, s, cfg.maxAttempts);
    RunHolds(cfg, s, a);
    var b, f, t := WakeAndClaim(cfg, m);
    LeadsCompose(cfg, s, a, m, b, f);
    var c;
    c, e := FailUncalled(cfg, f, t);
    LeadsCompose(cfg, s, a + b, f, c, e);
    run := a + b + c;
  }

  /** Once a claim has called, its lease can run out and a second claim call as well, if there is room for one. */
  lemma CallAgain(cfg: Config, s: State) returns (run: seq<Step>, e: State, u: Token)
    requires Inv(cfg, s) && s.row.status == PROCESSING && s.row.leaseToken.Some?
    requires s.row.attemptCount < MAX_SMALLINT && !Exhausted(cfg, s.row.attemptCount + 1)
    ensures Leads(cfg, s, run, e)
    ensures u in e.callers && u !in s.callers && e.callers == s.callers[u := e.callers[u]]
    ensures e.callers[u].phase.Calling?
  {
    var a, m := OutliveAndRecover(cfg, s);
    RunHolds(cfg, s, a);
    var b, f;
    b, f, u := WakeAndClaim(cfg, m);
    LeadsCompose(cfg, s, a, m, b, f);
    run := a + b;
    b, e := UpToCall(cfg, f, u);
    LeadsCompose(cfg, s, run, f, b, e);
    run := run + b;
  }

  /** A delivery is claimed and calls the provider. */
  lemma ClaimAndCall(cfg: Config, s: State) returns (run: seq<Step>, e: State, t: Token)
    requires Inv(cfg, s) && Open(s) && s.row.attemptCount < MAX_SMALLINT
    requires !Exhausted(cfg, s.row.attemptCount + 1)
    ensures Leads(cfg, s, run, e) && t in e.callers && e.callers[t].phase.Calling?
    ensures HeldBy(e.row, t) && e.row.attemptCount == s.row.attemptCount + 1
  {
    var a, m, b;
    a, m, t := WakeAndClaim(cfg, s);
    b, e := UpToCall(cfg, m, t);
    LeadsCompose(cfg, s, a, m, b, e);
    run := a + b;
  }

  /** The time bound of exclusion is needed: for every lease, if a second attempt is allowed, some run has two
      provider calls in flight at once, both workers waiting for their answers. */
  lemma OverrunningCallsOverlap(cfg: Config, s: State)
    returns (run: seq<Step>, e: State, t: Token, u: Token)
    requires Init(s) && cfg.maxAttempts != 1
    ensures Leads(cfg, s, run, e) && t != u && InFlight(e, t) && InFlight(e, u)
    ensures t in e.callers && u in e.callers && e.callers[t].phase.Calling? && e.callers[u].phase.Calling?
  {
    InitHolds(cfg, s);
    var m, b;
    run, m, t := ClaimAndCall(cfg, s);
    RunHolds(cfg, s, run);
    b, e, u := CallAgain(cfg, m);
    LeadsCompose(cfg, s, run, m, b, e);
    run := run + b;
    RunHolds(cfg, s, run);
    assert CallerOk(cfg, e, t) && CallHistory(e, t) && CallerOk(cfg, e, u) && CallHistory(e, u);
  }

  /** A claim is scanned after its lease has run out. */
  lemma ScannedClaim(cfg: Config, s: State) returns (run: seq<Step>, e: State, t: Token)
    requires Init(s)
    ensures Leads(cfg, s, run, e) && Snapshot(e.row, e.now) in e.snapshots
    ensures t in e.callers && e.callers[t].phase == Claimed(1) && e.row.attemptCount == 1
    ensures HeldBy(e.row, t) && e.row.lastResult == PhaseClaimed
  {
    InitHolds(cfg, s);
    run, e, t := WakeAndClaim(cfg, s);
    e, run := Then(cfg, s, run, e, Tick(cfg.lease + 1));
    e, run := Then(cfg, s, run, e, Scan);
  }

  /** It calls only then. */
  lemma ScannedBeforeCall(cfg: Config, s: State) returns (run: seq<Step>, e: State, t: Token, seen: Snapshot)
    requires Init(s)
    ensures Leads(cfg, s, run, e) && seen in e.snapshots && seen.at == e.now
    ensures seen.row.leaseToken == Some(t) && !SeenRequesting(seen.row.lastResult)
    ensures HeldBy(e.row, t) && e.row.leaseUntil == Some(e.now + cfg.lease) && t in e.calls
  {
    var m, b;
    run, m, t := ScannedClaim(cfg, s);
    seen := Snapshot(m.row, m.now);
    b, e := UpToCall(cfg, m, t);
    LeadsCompose(cfg, s, run, m, b, e);
    run := run + b;
  }

  /** Beyond the bound the recovery verdict can be wrong: for every lease and every longer delay d there is a run in
      which a recovery acting d after its snapshot records "not sent" for a claim whose call is under way. */
  lemma LateDiagnosisCanBeWrong(cfg: Config, s: State, d: nat)
    returns (run: seq<Step>, e: State, t: Token, last: Step)
    requires Init(s) && d > cfg.lease
    ensures Leads(cfg, s, run, e)
    ensures Enabled(cfg, e, last) && ClearsUnsent(cfg, e, last, t) && e.now == last.seen.at + d
    ensures t in e.calls
  {
    var seen;
    run, e, t, seen := ScannedBeforeCall(cfg, s);
    e, run := Then(cfg, s, run, e, Tick(d));
    last := Recover(seen, e.now);
  }

  /** A "not sent" verdict reached d after its snapshot, in a run whose clock has not moved back, is true and stays
      true in every continuation. */
  ghost predicate TrustworthyAfter(cfg: Config, d: nat) {
    forall s, step, t, run ::
      (&& ReachableForward(cfg, s) && Enabled(cfg, s, step) && ClearsUnsent(cfg, s, step, t)
       && s.now == step.seen.at + d && Legal(cfg, Apply(cfg, s, step), run))
      ==> t !in After(cfg, Apply(cfg, s, step), run).calls
  }

  /** The verdict can be relied on exactly for delays of at most one lease. */
  lemma DiagnosisIsSoundIff(cfg: Config, d: nat)
    ensures TrustworthyAfter(cfg, d) <==> d <= cfg.lease
  {
    if d <= cfg.lease {
      forall s, step, t, run |
        && ReachableForward(cfg, s) && Enabled(cfg, s, step) && ClearsUnsent(cfg, s, step, t)
        && s.now == step.seen.at + d && Legal(cfg, Apply(cfg, s, step), run)
        ensures t !in After(cfg, Apply(cfg, s, step), run).calls
      {
        ReachableIsTimely(cfg, s);
        DiagnosisIsSound(cfg, s, step, t, run);
      }
    } else {
      var row := Inserted(Identity(0, "", "", "", "", ""), 0);
      var start := State(row, 0, map[], map[], 1, 0, {}, [], [], map[], {});
      var run, e, t, last := LateDiagnosisCanBeWrong(cfg, start, d);
      assert ReachableForward(cfg, e);
      assert t in After(cfg, Apply(cfg, e, last), []).calls;
    }
  }
}
