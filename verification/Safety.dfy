/**
 What holds in every state of every run: the delivery guarantees of the protocol. Budget, accounting, fencing, row
 shape and honesty hold whatever the clock does; that no event is lost needs a clock that never reads before the
 row is due; the recovery verdict and exclusion need one that does not move back.
 */
module Safety {
  import opened Wrappers
  import opened Domain
  import opened EventStore
  import opened Processor
  import opened Compensator
  import opened Protocol
  import opened Invariant
  import opened Timing
  import opened Wakeups
  import Counting
  import Mq

  // ---- budget and accounting ----

  /** With a positive limit M the provider is called at most M times for one event, and never more often than
      attempt_count says, once per claim at most, whatever crashes, stalls, expiries, duplicates and deferrals happen. */
  lemma CallBudget(cfg: Config, s: State)
    requires ReachableState(cfg, s)
    ensures |s.calls| <= s.row.attemptCount && Counting.Distinct(s.calls)
    ensures cfg.maxAttempts > 0 ==> |s.calls| <= cfg.maxAttempts
  {
    ReachableHolds(cfg, s);
    forall t | t in s.calls ensures exists i :: 0 <= i < |s.stack| && s.stack[i] == t &&
                                                (cfg.maxAttempts > 0 ==> i < cfg.maxAttempts) {
      var i :| 0 <= i < |s.stack| && s.stack[i] == t;
    }
    Counting.DistinctAmongFirst(s.calls, s.stack, if cfg.maxAttempts > 0 then cfg.maxAttempts else |s.stack|);
  }

  /** The counted claims that met a fault (a crash, an error reply, an unconfigured action, a failed acquire, a
      lost lease) without having called the provider. */
  ghost function SpentOnFaults(s: State): set<Token> {
    set t | t in s.stack && t in s.faulted && t !in s.calls
  }

  /** The holder of the lease is still before its call, and nothing has gone wrong yet. */
  predicate CallToCome(s: State) {
    s.row.leaseToken.Some? && s.row.leaseToken.value !in s.calls && s.row.leaseToken.value !in s.faulted
  }

  lemma ClaimIsAccountedFor(cfg: Config, s: State, t: Token)
    requires Inv(cfg, s) && t in s.stack
    ensures t in s.calls || t in SpentOnFaults(s) || (CallToCome(s) && t == s.row.leaseToken.value)
  {
    assert CallerOk(cfg, s, t);
    assert Accounted(s, t);
  }

  /** The exact account of attempt_count: the provider calls made, the claims faults have used up, and one while
      a sound holder has not called yet. In particular, with no fault and no holder it is the number of calls. */
  lemma CountAccountsForCalls(cfg: Config, s: State)
    requires ReachableState(cfg, s)
    ensures s.row.attemptCount == |s.calls| + |SpentOnFaults(s)| + (if CallToCome(s) then 1 else 0)
    ensures s.faulted == {} && s.row.leaseToken == None ==> s.row.attemptCount == |s.calls|
  {
    ReachableHolds(cfg, s);
    var live := if CallToCome(s) then {s.row.leaseToken.value} else {};
    forall t | t in s.stack ensures t in s.calls || t in SpentOnFaults(s) || t in live {
      ClaimIsAccountedFor(cfg, s, t);
    }
    assert StackOk(s) && CallsOk(cfg, s);
    Counting.PartitionSize(s.stack, s.calls, SpentOnFaults(s), live);
  }

  /** The repository's claim that attempt_count is the number of real provider calls holds exactly when no counted
      claim met a fault before its call and no holder is still on its way to one. */
  lemma CountIsExactIff(cfg: Config, s: State)
    requires ReachableState(cfg, s)
    ensures s.row.attemptCount == |s.calls| <==>
            && (forall t :: t in s.stack && t in s.faulted ==> t in s.calls)
            && (s.row.leaseToken.Some? ==> s.row.leaseToken.value in s.calls)
  {
    ReachableHolds(cfg, s);
    CountAccountsForCalls(cfg, s);
    if SpentOnFaults(s) != {} {
      var t :| t in SpentOnFaults(s);
      assert t in s.stack && t in s.faulted && t !in s.calls;
    }
    assert forall t :: t in s.stack && t in s.faulted && t !in s.calls ==> t in SpentOnFaults(s);
  }

  // ---- fencing ----

  /** Once a claim's lease has been given up, no run gives it back, and no statement carrying its token,
      from the worker or from a compensator's snapshot, changes any column. */
  lemma {:induction false} SpentTokenIsPowerless(cfg: Config, s: State, t: Token, run: seq<Step>)
    requires Inv(cfg, s) && t in s.callers && !s.callers[t].phase.Fresh? && !Live(s, t)
    requires Legal(cfg, s, run)
    ensures var s' := After(cfg, s, run);
            && t in s'.callers && !s'.callers[t].phase.Fresh? && !Live(s', t)
            && (forall step :: Enabled(cfg, s', step) && Carries(step, t) ==> Apply(cfg, s', step).row == s'.row)
    decreases |run|
  {
    if run != [] {
      LostLeaseStaysLost(cfg, s, t, run[0]);
      StepHolds(cfg, s, run[0]);
      SpentTokenIsPowerless(cfg, Apply(cfg, s, run[0]), t, run[1..]);
    } else {
      forall step | Enabled(cfg, s, step) && Carries(step, t) ensures Apply(cfg, s, step).row == s.row {
        if step.Act? {
          OnlyActorMoves(cfg, s, step);
          if Lands(s, step) {
            StatementLands(cfg, s, step);
          }
        }
      }
    }
  }

  predicate Carries(step: Step, t: Token) {
    || (step.Act? && step.token == t)
    || (step.Recover? && step.seen.row.leaseToken == Some(t))
  }

  lemma LostLeaseStaysLost(cfg: Config, s: State, t: Token, step: Step)
    requires Ready(cfg, s, step) && t in s.callers && !s.callers[t].phase.Fresh? && !Live(s, t)
    ensures var s' := Apply(cfg, s, step);
            t in s'.callers && !s'.callers[t].phase.Fresh? && !Live(s', t)
  {
    if step.Act? {
      OnlyActorMoves(cfg, s, step);
      if Lands(s, step) {
        OnlyHolderLands(cfg, s, step);
      }
    }
  }

  /** SUCCEEDED and FAILED rows are never written again; the identifying columns never change at all. */
  lemma {:induction false} TerminalRowsAreFrozen(cfg: Config, s: State, run: seq<Step>)
    requires Legal(cfg, s, run)
    ensures After(cfg, s, run).row.identity == s.row.identity
    ensures Terminal(s.row) ==> After(cfg, s, run).row == s.row
    decreases |run|
  {
    if run != [] {
      TerminalRowsAreFrozen(cfg, Apply(cfg, s, run[0]), run[1..]);
    }
  }

  /** Of the columns no result depends on: enqueued_at is written only by a publisher's mark while the row is PENDING,
      the due time never. */
  lemma ReceiptIsOnlyMarked(cfg: Config, s: State, step: Step)
    requires Enabled(cfg, s, step)
    ensures var row := Apply(cfg, s, step).row;
            && row.nextAttemptAt == s.row.nextAttemptAt
            && (row.enqueuedAt != s.row.enqueuedAt ==>
                  step.Mark? && s.row.status == PENDING && row == s.row.(enqueuedAt := Some(s.now)))
  {
  }

  /** The shape of the row in every reachable state. A row without a token is waiting for a requeue, so the
      early `return` of recoverOne on a row without one is never taken; and a rollback is always exact. */
  lemma RowShapeAlways(cfg: Config, s: State)
    requires ReachableState(cfg, s)
    ensures RowShape(s.row)
    ensures forall seen :: seen in s.snapshots ==> seen.row.leaseToken.Some? || RequeueIsRequested(seen.row.lastResult)
    ensures s.row.leaseToken.Some? ==> RolledBack(s.row.attemptCount) == s.row.attemptCount - 1
  {
    ReachableHolds(cfg, s);
    forall seen | seen in s.snapshots
      ensures seen.row.leaseToken.Some? || RequeueIsRequested(seen.row.lastResult)
    {
      assert SnapshotOk(s, seen);
    }
  }

  /** The row waits until its scheduled redelivery plus one lease, and records the count it was left with. */
  predicate ScheduledWait(cfg: Config, row: Event) {
    && RequeueIsRequested(row.lastResult) && row.lastResult.nextAttemptAt.Some?
    && row.leaseUntil == Some(row.lastResult.nextAttemptAt.value + cfg.lease)
    && row.lastResult.attemptNumber == row.attemptCount
  }

  /** That is how every step leaves a row whose lease it gives up without settling it: after a failed call, an open
      circuit, an unconfigured action or a recovery. */
  lemma RequeueDeadline(cfg: Config, s: State, step: Step)
    requires Inv(cfg, s) && Enabled(cfg, s, step) && cfg.lease > 0 && s.row.leaseToken.Some?
    requires Apply(cfg, s, step).row.status == PROCESSING && Apply(cfg, s, step).row.leaseToken == None
    ensures ScheduledWait(cfg, Apply(cfg, s, step).row)
  {
    if step.Act? {
      assert Ready(cfg, s, step);
      OnlyActorMoves(cfg, s, step);
      WorkerSchedulesWait(cfg, s, step);
    } else {
      RecoverySchedulesWait(cfg, s, step);
    }
  }

  lemma RecoverySchedulesWait(cfg: Config, s: State, step: Step)
    requires Inv(cfg, s) && Enabled(cfg, s, step) && !step.Act? && cfg.lease > 0 && s.row.leaseToken.Some?
    requires Apply(cfg, s, step).row.leaseToken == None
    ensures ScheduledWait(cfg, Apply(cfg, s, step).row)
  {
    if step.Recover? {
      VerdictIsFromSnapshot(cfg, s, step);
    }
  }

  lemma WorkerSchedulesWait(cfg: Config, s: State, step: Step)
    requires Ready(cfg, s, step) && Lands(s, step)
    requires Landed(s, step).row.status == PROCESSING && Landed(s, step).row.leaseToken == None
    ensures ScheduledWait(cfg, Landed(s, step).row)
  {
    StatementLands(cfg, s, step);
    RowLands(cfg, s, step);
  }

  /** SUCCEEDED means the latest counted claim called the provider, which answered and reported success, and the row
      keeps what it answered; a stored answer is always the one of the latest counted claim; FAILED means there is a
      limit and the count has reached it. */
  lemma OutcomeIsHonest(cfg: Config, s: State)
    requires ReachableState(cfg, s)
    ensures s.row.status == SUCCEEDED ==>
              s.stack != [] &&
              var t := s.stack[|s.stack| - 1];
              && t in s.calls && t in s.results && s.results[t].Response? && s.results[t].success
              && s.row.providerResponse == s.results[t].body
    ensures s.row.providerResponse.Some? ==>
              && s.stack != [] && s.stack[|s.stack| - 1] in s.results
              && s.results[s.stack[|s.stack| - 1]].Response?
              && s.row.providerResponse == s.results[s.stack[|s.stack| - 1]].body
    ensures s.row.status == FAILED ==> cfg.maxAttempts > 0 && s.row.attemptCount >= cfg.maxAttempts
    ensures cfg.maxAttempts == 0 ==> s.row.status != FAILED
  {
    ReachableHolds(cfg, s);
  }

  // ---- no lost event ----

  /** Somebody can still find the row: the publish scan, a durable wake-up, or the expired-lease scan. */
  ghost predicate HasWayForward(s: State) {
    || Terminal(s.row)
    || InPublishScan(s.row, s.now)
    || (s.row.status == PENDING && HasDurable(s.copies))
    || (s.row.status == PROCESSING && s.row.leaseUntil.Some?)
  }

  /** A caller that may still claim the row, or whose broker will publish its wake-up again. */
  predicate CanStillHelp(w: Caller) {
    || w.phase.Fresh?
    || (w.handed.durable && (w.phase.Aborting? || w.phase.Returning? || w.phase.Ended?) && !w.phase.ack)
  }

  ghost predicate NobodyHelps(s: State) {
    forall t :: t in s.callers ==> !CanStillHelp(s.callers[t])
  }

  /** The row waits to be claimed, no scan looks for it, and there is no wake-up, published or about to be. */
  ghost predicate Lost(s: State) {
    && s.row.status == PENDING && s.row.enqueuedAt.Some?
    && s.copies == map[] && s.publishers == 0 && NobodyHelps(s)
  }

  /** No event is lost as long as the clock never reads before the row's due time while the row is PENDING; it may
      move back otherwise. */
  lemma NoEventIsLost(cfg: Config, s: State)
    requires ReachableOnTime(cfg, s)
    ensures HasWayForward(s) && !Lost(s)
  {
    ReachableIsOnTime(cfg, s);
  }

  lemma LostStep(cfg: Config, s: State, step: Step)
    requires Inv(cfg, s) && Enabled(cfg, s, step) && Lost(s)
    ensures Lost(Apply(cfg, s, step))
  {
    if step.Act? {
      assert CallerOk(cfg, s, step.token) && Position(cfg, s, step.token);
      assert !Numbered(s.callers[step.token].phase);
      OnlyActorMoves(cfg, s, step);
    }
  }

  /** A lost event stays lost, whatever the clock does then: nobody ever claims the row. */
  lemma {:induction false} LostIsFinal(cfg: Config, s: State, run: seq<Step>)
    requires Inv(cfg, s) && Lost(s) && Legal(cfg, s, run)
    ensures Lost(After(cfg, s, run))
    decreases |run|
  {
    if run != [] {
      LostStep(cfg, s, run[0]);
      StepHolds(cfg, s, run[0]);
      LostIsFinal(cfg, Apply(cfg, s, run[0]), run[1..]);
    }
  }

  // how a clock that reads too early loses an event

  ghost predicate LeadsFrom(cfg: Config, s: State, run: seq<Step>, e: State, low: Time) {
    Legal(cfg, s, run) && After(cfg, s, run) == e && ReadsFrom(cfg, s, run, low)
  }

  lemma ExtendFrom(cfg: Config, s: State, run: seq<Step>, e: State, step: Step, low: Time)
    returns (e': State, run': seq<Step>)
    requires LeadsFrom(cfg, s, run, e, low) && Enabled(cfg, e, step) && low <= Apply(cfg, e, step).now && low <= e.now
    ensures e' == Apply(cfg, e, step) && LeadsFrom(cfg, s, run', e', low)
  {
    OneStep(cfg, e, step);
    assert [step][1..] == [];
    assert ReadsFrom(cfg, e, [step], low);
    ReadsFromComposes(cfg, s, run, [step], low);
    e', run' := Extend(cfg, s, run, e, step);
  }

  lemma ComposeFrom(cfg: Config, s: State, a: seq<Step>, m: State, b: seq<Step>, e: State, low: Time)
    requires LeadsFrom(cfg, s, a, m, low) && LeadsFrom(cfg, m, b, e, low)
    ensures LeadsFrom(cfg, s, a + b, e, low)
  {
    RunsCompose(cfg, s, a, b);
    ReadsFromComposes(cfg, s, a, b, low);
  }

  /** A wake-up is marked as enqueued, the scan having found the row once it was due. */
  lemma Enqueue(cfg: Config, s: State, low: Time) returns (run: seq<Step>, e: State)
    requires s.row.status == PENDING && low <= s.now && low <= s.row.nextAttemptAt
    ensures LeadsFrom(cfg, s, run, e, low) && low <= e.now
    ensures e.row == s.row.(enqueuedAt := e.row.enqueuedAt) && e.row.enqueuedAt.Some?
  {
    run, e := [], s;
    if s.row.enqueuedAt == None {
      e, run := ExtendFrom(cfg, s, run, e, Tick(s.row.nextAttemptAt - s.now), low);
      e, run := ExtendFrom(cfg, s, run, e, ScanPending, low);
      var c := Counting.FreshNumber(e.copies.Keys);
      e, run := ExtendFrom(cfg, s, run, e, Publish(c, true, true), low);
      e, run := ExtendFrom(cfg, s, run, e, Mark(true), low);
    }
  }

  /** The publishers that have not sent yet die. */
  lemma {:induction false} DrainPublishers(cfg: Config, s: State, low: Time) returns (run: seq<Step>, e: State)
    requires low <= s.now
    ensures LeadsFrom(cfg, s, run, e, low) && e == s.(publishers := 0)
    decreases s.publishers
  {
    run, e := [], s;
    if s.publishers > 0 {
      var m, b;
      m, run := ExtendFrom(cfg, s, run, s, PublishNothing, low);
      b, e := DrainPublishers(cfg, m, low);
      ComposeFrom(cfg, s, run, m, b, e, low);
      run := run + b;
    }
  }

  /** The callers that could still help die. */
  lemma {:induction false} CrashCallers(cfg: Config, s: State, helpers: set<Token>, low: Time)
    returns (run: seq<Step>, e: State)
    requires low <= s.now && helpers <= s.callers.Keys
    requires forall t :: t in s.callers && CanStillHelp(s.callers[t]) ==> t in helpers
    ensures LeadsFrom(cfg, s, run, e, low) && NobodyHelps(e)
    ensures e == s.(callers := e.callers, faulted := e.faulted)
    decreases |helpers|
  {
    run, e := [], s;
    if helpers != {} {
      var t :| t in helpers;
      var m, b;
      m, run := ExtendFrom(cfg, s, run, s, Crash(t), low);
      b, e := CrashCallers(cfg, m, helpers - {t}, low);
      ComposeFrom(cfg, s, run, m, b, e, low);
      run := run + b;
    }
  }

  /** The broker takes a wake-up back and hands it to a new caller. */
  lemma Redeliver(cfg: Config, s: State, c: nat, low: Time) returns (run: seq<Step>, e: State, t: Token)
    requires low <= s.now && c in s.copies
    ensures LeadsFrom(cfg, s, run, e, low) && t !in s.callers
    ensures c in e.copies && e.copies == s.copies[c := e.copies[c]]
    ensures e == s.(copies := e.copies, callers := e.callers)
    ensures e.callers == s.callers[t := Caller(Fresh, c, e.copies[c].(holder := None), None)]
    ensures e.copies[c].holder == Some(t)
  {
    t := Counting.FreshNumber(s.callers.Keys);
    run, e := [], s;
    e, run := ExtendFrom(cfg, s, run, e, Disconnect(c), low);
    e, run := ExtendFrom(cfg, s, run, e, Deliver(t, c), low);
  }

  /** A wake-up is delivered, refused because the row is not due, and acknowledged. */
  lemma WasteCopy(cfg: Config, s: State, c: nat, low: Time) returns (run: seq<Step>, e: State)
    requires s.row.status == PENDING && low <= s.now < s.row.nextAttemptAt && c in s.copies && NobodyHelps(s)
    ensures LeadsFrom(cfg, s, run, e, low) && NobodyHelps(e)
    ensures e.row == s.row && e.now == s.now && e.publishers == s.publishers && e.copies == s.copies - {c}
  {
    var t;
    run, e, t := Redeliver(cfg, s, c, low);
    e, run := ExtendFrom(cfg, s, run, e, Act(t, Run(Claim(cfg.lease), NotClaimed), true), low);
    e, run := ExtendFrom(cfg, s, run, e, Act(t, Return(true), true), low);
    assert e.copies == s.copies - {c};
  }

  lemma {:induction false} DrainCopies(cfg: Config, s: State, low: Time) returns (run: seq<Step>, e: State)
    requires s.row.status == PENDING && low <= s.now < s.row.nextAttemptAt && NobodyHelps(s)
    ensures LeadsFrom(cfg, s, run, e, low) && NobodyHelps(e)
    ensures e.row == s.row && e.publishers == s.publishers && e.copies == map[]
    decreases |s.copies|
  {
    run, e := [], s;
    if s.copies != map[] {
      var c :| c in s.copies;
      var m, b;
      run, m := WasteCopy(cfg, s, c, low);
      assert |m.copies| < |s.copies| by {
        assert m.copies.Keys == s.copies.Keys - {c};
        assert |m.copies.Keys| == |m.copies| && |s.copies.Keys| == |s.copies|;
      }
      b, e := DrainCopies(cfg, m, low);
      ComposeFrom(cfg, s, run, m, b, e, low);
      run := run + b;
    }
  }

  /** From every PENDING state of every run, a clock that reads one instant before the due time can lose the event. */
  lemma EarlyClockLosesEvent(cfg: Config, s: State) returns (run: seq<Step>)
    requires Inv(cfg, s) && s.row.status == PENDING
    ensures Legal(cfg, s, run) && Lost(After(cfg, s, run)) && !HasWayForward(After(cfg, s, run))
    ensures ReadsFrom(cfg, s, run, Mq.Min(s.now, s.row.nextAttemptAt - 1))
  {
    var low := Mq.Min(s.now, s.row.nextAttemptAt - 1);
    var e, m, b;
    run, e := Enqueue(cfg, s, low);
    e, run := ExtendFrom(cfg, s, run, e, Tick(s.row.nextAttemptAt - 1 - e.now), low);
    b, m := DrainPublishers(cfg, e, low);
    ComposeFrom(cfg, s, run, e, b, m, low);
    run, e := run + b, m;
    b, m := CrashCallers(cfg, e, e.callers.Keys, low);
    ComposeFrom(cfg, s, run, e, b, m, low);
    run, e := run + b, m;
    b, m := DrainCopies(cfg, e, low);
    ComposeFrom(cfg, s, run, e, b, m, low);
    run := run + b;
  }

  /** Some run in which the clock reads `low` or later while the row is PENDING loses the event. */
  ghost predicate CanBeLost(cfg: Config, s: State, low: Time) {
    exists run :: Legal(cfg, s, run) && ReadsFrom(cfg, s, run, low) && Lost(After(cfg, s, run))
  }

  /** From a PENDING state reached on time, the event can be lost if and only if the clock may read before the row's
      due time. */
  lemma EventCanBeLostIff(cfg: Config, s: State, low: Time)
    requires ReachableOnTime(cfg, s) && s.row.status == PENDING
    ensures CanBeLost(cfg, s, low) <==> low < s.row.nextAttemptAt
  {
    ReachableIsOnTime(cfg, s);
    if low < s.row.nextAttemptAt {
      var run := EarlyClockLosesEvent(cfg, s);
      ReadsFromEarlier(cfg, s, run, Mq.Min(s.now, s.row.nextAttemptAt - 1), low);
    } else {
      forall run | Legal(cfg, s, run) && ReadsFrom(cfg, s, run, low) ensures !Lost(After(cfg, s, run)) {
        ReadsFromEarlier(cfg, s, run, low, s.row.nextAttemptAt);
        OnTimeRun(cfg, s, run);
      }
    }
  }

  // ---- recovery diagnosis ----

  /** A recovery takes the lease from t's claim and records that its request has not been sent. */
  predicate ClearsUnsent(cfg: Config, s: State, step: Step, t: Token)
    requires Enabled(cfg, s, step)
  {
    && step.Recover? && s.row.leaseToken == Some(t)
    && var row := Apply(cfg, s, step).row;
       row.leaseToken == None && row.lastResult.Finished? && !row.lastResult.requestMayHaveBeenSent
  }

  /** What a recovery that takes the lease from t's claim records: the request may have been sent exactly when the
      snapshot saw the REQUESTING marker. */
  lemma VerdictIsFromSnapshot(cfg: Config, s: State, step: Step)
    requires Inv(cfg, s) && Enabled(cfg, s, step) && step.Recover? && s.row.leaseToken.Some?
    requires Apply(cfg, s, step).row.leaseToken == None
    ensures step.seen.row.leaseToken == s.row.leaseToken && LeaseExpired(s.row, s.now)
    ensures var row := Apply(cfg, s, step).row;
            && row.lastResult.Finished? && row.lastResult.outcome == RequeueRequested
            && (row.lastResult.requestMayHaveBeenSent <==> step.seen.row.lastResult == PhaseRequesting)
            && row.lastResult.attemptNumber == row.attemptCount == s.row.attemptCount
  {
    assert SnapshotOk(s, step.seen);
  }

  /** A recovery that finds a waiting row whose deadline has passed moves the deadline on, and nothing else. */
  lemma ReservationMovesDeadlineOn(cfg: Config, s: State, step: Step)
    requires Enabled(cfg, s, step) && step.Recover? && s.row.leaseToken == None && cfg.lease > 0
    requires Apply(cfg, s, step).row != s.row
    ensures var row := Apply(cfg, s, step).row;
            && s.row.leaseUntil.Some? && row.leaseUntil == Some(s.now + cfg.lease)
            && s.row.leaseUntil.value < row.leaseUntil.value && row == s.row.(leaseUntil := row.leaseUntil)
            && Apply(cfg, s, step).publishers == s.publishers + 1
  {
  }

  /** Under a clock that has not moved back: if the recovery runs within one lease of reading its snapshot and records
      request_may_have_been_sent = false, then that claim has not called the provider and never will, whatever the
      clock does from then on, and even when the worker marked the row REQUESTING in between. */
  lemma DiagnosisIsSound(cfg: Config, s: State, step: Step, t: Token, run: seq<Step>)
    requires Inv(cfg, s) && Timely(cfg, s) && Enabled(cfg, s, step) && ClearsUnsent(cfg, s, step, t)
    requires s.now <= step.seen.at + cfg.lease
    requires Legal(cfg, Apply(cfg, s, step), run)
    ensures t !in After(cfg, Apply(cfg, s, step), run).calls
  {
    VerdictIsFromSnapshot(cfg, s, step);
    assert SnapshotOk(s, step.seen) && Preceding(s, step.seen);
    assert CallerOk(cfg, s, t) && LeaseHistory(cfg, s, t);
    assert s.callers[t].renewedAt == None;
    StepHolds(cfg, s, step);
    NeverRenewsNeverCalls(cfg, Apply(cfg, s, step), t, run);
  }

  lemma SpentCallerDoesNotRenew(cfg: Config, s: State, t: Token, step: Step)
    requires Ready(cfg, s, step) && t in s.callers && !s.callers[t].phase.Fresh? && !Live(s, t)
    ensures t in Apply(cfg, s, step).callers
    ensures Apply(cfg, s, step).callers[t].renewedAt == s.callers[t].renewedAt
  {
    if step.Act? {
      OnlyActorMoves(cfg, s, step);
      if Lands(s, step) {
        StatementLands(cfg, s, step);
      }
    }
  }

  lemma {:induction false} NeverRenewsNeverCalls(cfg: Config, s: State, t: Token, run: seq<Step>)
    requires Inv(cfg, s) && t in s.callers && !s.callers[t].phase.Fresh? && !Live(s, t)
    requires s.callers[t].renewedAt == None && Legal(cfg, s, run)
    ensures t !in After(cfg, s, run).calls
    decreases |run|
  {
    assert CallerOk(cfg, s, t) && LeaseHistory(cfg, s, t);
    if run != [] {
      var step := run[0];
      LostLeaseStaysLost(cfg, s, t, step);
      StepHolds(cfg, s, step);
      SpentCallerDoesNotRenew(cfg, s, t, step);
      NeverRenewsNeverCalls(cfg, Apply(cfg, s, step), t, run[1..]);
    }
  }

  // ---- timed exclusion ----

  /** Whenever two provider calls for the event are in flight together, their workers alive or not, one of them has
      outlasted the lease its worker renewed before calling. So calls that return within the lease never overlap. */
  lemma OverlapMeansOverrun(cfg: Config, s: State, t: Token, u: Token)
    requires ReachableForward(cfg, s) && InFlight(s, t) && InFlight(s, u) && t != u
    ensures t in s.callers && s.callers[t].renewedAt.Some? && u in s.callers && s.callers[u].renewedAt.Some?
    ensures || s.now > s.callers[t].renewedAt.value + cfg.lease
            || s.now > s.callers[u].renewedAt.value + cfg.lease
  {
    ReachableIsTimely(cfg, s);
    assert CallerOk(cfg, s, t) && CallerOk(cfg, s, u);
    assert LeaseHistory(cfg, s, t) && LeaseHistory(cfg, s, u);
    assert Punctual(cfg, s, t) && Punctual(cfg, s, u);
  }

  /** No call has been in flight for longer than the lease renewed before it. */
  ghost predicate AllCallsWithinLease(cfg: Config, s: State) {
    forall t :: t in s.callers && InFlight(s, t) && s.callers[t].renewedAt.Some? ==>
                  s.now <= s.callers[t].renewedAt.value + cfg.lease
  }

  lemma TimedExclusion(cfg: Config, s: State)
    requires ReachableForward(cfg, s) && AllCallsWithinLease(cfg, s)
    ensures forall t, u :: InFlight(s, t) && InFlight(s, u) ==> t == u
  {
    forall t, u | InFlight(s, t) && InFlight(s, u) ensures t == u {
      if t != u {
        OverlapMeansOverrun(cfg, s, t, u);
      }
    }
  }
}
