/**
 What fault-free deliveries achieve, one and any number after another.

 A round is one delivery that runs to its end while everything else only publishes, marks, scans, loses
 broker connections or lets the clock move: no second delivery, no recovery, no fault, and no reading of the clock
 before a PENDING row is due. The breaker may admit or refuse it and the provider may answer anything.
 */
module Progress {
  import opened Wrappers
  import opened Domain
  import opened EventStore
  import opened Processor
  import opened Wakeups
  import opened Protocol
  import opened Invariant
  import opened Timing
  import Counting
  import Mq

  predicate SoloStep(step: Step, t: Token) {
    match step
    case Act(u, a, committed) => u == t && committed && !IsFault(a)
    case Deliver(u, _) => u == t
    case Crash(_) => false
    case Recover(_, _) => false
    case _ => true
  }

  ghost predicate Round(cfg: Config, s: State, t: Token, run: seq<Step>) {
    && t !in s.callers && Legal(cfg, s, run)
    && (forall i :: 0 <= i < |run| ==> SoloStep(run[i], t))
    && ReadsFrom(cfg, s, run, s.row.nextAttemptAt)
    && t in After(cfg, s, run).callers && After(cfg, s, run).callers[t].phase.Ended?
  }

  predicate Waiting(row: Event) {
    row.status == PROCESSING && row.leaseToken == None && RequeueIsRequested(row.lastResult)
  }

  /** How a round that found the row claimable with count c leaves it. */
  ghost predicate RoundResult(cfg: Config, c: int, calls: seq<Token>, s: State, t: Token) {
    if Exhausted(cfg, c + 1) then
      s.row.status == FAILED && s.row.attemptCount == c && s.calls == calls
    else if t !in s.results then  // refused by the breaker
      Waiting(s.row) && s.row.attemptCount == c && s.calls == calls
    else
      && s.calls == calls + [t] && s.row.attemptCount == c + 1
      && if ToldSuccess(s.results[t]) then s.row.status == SUCCEEDED
         else if LastAttempt(cfg, c + 1) then s.row.status == FAILED
         else Waiting(s.row)
  }

  /** Where a round stands. */
  ghost predicate Solo(cfg: Config, c: int, calls: seq<Token>, s: State, t: Token) {
    && 0 <= c < MAX_SMALLINT
    && if t !in s.callers then Untouched(c, calls, s, t)
       else
         var p := s.callers[t].phase;
         match p
         case Fresh => Untouched(c, calls, s, t)
         case Claimed(n) => Holding(c, calls, s, t, n) && t !in s.results
         case Admitted(n) => Holding(c, calls, s, t, n) && t !in s.results && !Exhausted(cfg, n)
         case Deferring(n) => Holding(c, calls, s, t, n) && t !in s.results && !Exhausted(cfg, n)
         case Permitted(n) => Holding(c, calls, s, t, n) && !Exhausted(cfg, n)
         case Slotted(n) => Holding(c, calls, s, t, n) && !Exhausted(cfg, n)
         case Marked(n) => Holding(c, calls, s, t, n) && !Exhausted(cfg, n)
         case Renewed(n) => Holding(c, calls, s, t, n) && !Exhausted(cfg, n)
         case Calling(n) => Holding(c, calls + [t], s, t, n) && !Exhausted(cfg, n)
         case Received(n, sent) =>
           Holding(c, calls + [t], s, t, n) && !Exhausted(cfg, n) && t in s.results && s.results[t] == sent
         case Settling(n, result, slot) =>
           Holding(c, calls + [t], s, t, n) && !Exhausted(cfg, n) && t in s.results && ResultOf(s.results[t]) == result
         case Returning(_, _) => RoundResult(cfg, c, calls, s, t)
         case Ended(_) => RoundResult(cfg, c, calls, s, t)
         case _ => false
  }

  ghost predicate Untouched(c: int, calls: seq<Token>, s: State, t: Token) {
    Claimable(s.row, s.now) && s.row.attemptCount == c && s.calls == calls && t !in s.results
  }

  ghost predicate Holding(c: int, calls: seq<Token>, s: State, t: Token, n: int) {
    HeldBy(s.row, t) && n == c + 1 == s.row.attemptCount && s.calls == calls
  }

  lemma SoloStatement(cfg: Config, c: int, calls: seq<Token>, s: State, t: Token, step: Step)
    requires Solo(cfg, c, calls, s, t) && Enabled(cfg, s, step) && SoloStep(step, t)
    requires step.Act? && step.action.Run?
    ensures Solo(cfg, c, calls, Apply(cfg, s, step), t)
  {
    var p, st := s.callers[t].phase, step.action.st;
    assert Issues(cfg, p, st);
    assert Landed(s, step).Updated?;
    assert step.action.reply == Done(Landed(s, step).row.attemptCount);
  }

  lemma SoloLocal(cfg: Config, c: int, calls: seq<Token>, s: State, t: Token, step: Step)
    requires Solo(cfg, c, calls, s, t) && Enabled(cfg, s, step) && SoloStep(step, t)
    requires step.Act? && !step.action.Run?
    ensures Solo(cfg, c, calls, Apply(cfg, s, step), t)
  {
    OnlyActorMoves(cfg, s, step);
  }

  lemma SoloBackground(cfg: Config, c: int, calls: seq<Token>, s: State, t: Token, step: Step)
    requires Solo(cfg, c, calls, s, t) && Enabled(cfg, s, step) && SoloStep(step, t) && !step.Act?
    requires Due(Apply(cfg, s, step))
    ensures Solo(cfg, c, calls, Apply(cfg, s, step), t)
  {
    var s' := Apply(cfg, s, step);
    assert s'.calls == s.calls && s'.results == s.results;
    if t in s.callers {
      assert s'.callers == s.callers;
    }
  }

  lemma SoloRunStep(cfg: Config, c: int, calls: seq<Token>, s: State, t: Token, step: Step)
    requires Solo(cfg, c, calls, s, t) && Enabled(cfg, s, step) && SoloStep(step, t) && Due(Apply(cfg, s, step))
    ensures Solo(cfg, c, calls, Apply(cfg, s, step), t)
  {
    if !step.Act? {
      SoloBackground(cfg, c, calls, s, t, step);
    } else if step.action.Run? {
      SoloStatement(cfg, c, calls, s, t, step);
    } else {
      SoloLocal(cfg, c, calls, s, t, step);
    }
  }

  lemma {:induction false} SoloRun(cfg: Config, c: int, calls: seq<Token>, s: State, t: Token, run: seq<Step>)
    requires Solo(cfg, c, calls, s, t) && Legal(cfg, s, run) && ReadsFrom(cfg, s, run, s.row.nextAttemptAt)
    requires forall i :: 0 <= i < |run| ==> SoloStep(run[i], t)
    ensures Solo(cfg, c, calls, After(cfg, s, run), t)
    decreases |run|
  {
    if run != [] {
      var step := run[0];
      DueTimeStays(cfg, s, step);
      SoloRunStep(cfg, c, calls, s, t, step);
      SoloRun(cfg, c, calls, Apply(cfg, s, step), t, run[1..]);
    }
  }

  /** A round that would have to claim a row at the top of the counter never gets past its claim. */
  ghost predicate Blocked(s: State, t: Token) {
    && Waiting(s.row) && s.row.attemptCount == MAX_SMALLINT
    && (t in s.callers ==> s.callers[t].phase.Fresh?)
  }

  lemma BlockedStep(cfg: Config, s: State, t: Token, step: Step)
    requires Blocked(s, t) && Enabled(cfg, s, step) && SoloStep(step, t)
    ensures Blocked(Apply(cfg, s, step), t)
  {
    if step.Act? {
      assert false;
    }
  }

  lemma {:induction false} BlockedRun(cfg: Config, s: State, t: Token, run: seq<Step>)
    requires Blocked(s, t) && Legal(cfg, s, run) && forall i :: 0 <= i < |run| ==> SoloStep(run[i], t)
    ensures Blocked(After(cfg, s, run), t)
    decreases |run|
  {
    if run != [] {
      BlockedStep(cfg, s, t, run[0]);
      BlockedRun(cfg, Apply(cfg, s, run[0]), t, run[1..]);
    }
  }

  /** A claimable row that some round carries through has room left in attempt_count: at the top the claim
      overflows, and its error is a fault. */
  lemma RoundHasRoom(cfg: Config, s: State, t: Token, run: seq<Step>)
    requires Inv(cfg, s) && Claimable(s.row, s.now) && Round(cfg, s, t, run)
    ensures s.row.attemptCount < MAX_SMALLINT
  {
    if s.row.attemptCount == MAX_SMALLINT {
      BlockedRun(cfg, s, t, run);
      assert false;
    }
  }

  /** One round, exactly: a spent budget ends FAILED with the count rolled back; a refusal leaves count and
      calls as they were; a call adds one to both and settles by its result. */
  lemma RoundOutcome(cfg: Config, s: State, t: Token, run: seq<Step>)
    requires Inv(cfg, s) && Claimable(s.row, s.now) && Round(cfg, s, t, run)
    ensures s.row.attemptCount < MAX_SMALLINT
    ensures RoundResult(cfg, s.row.attemptCount, s.calls, After(cfg, s, run), t)
    ensures !Terminal(After(cfg, s, run).row) ==> Claimable(After(cfg, s, run).row, After(cfg, s, run).now)
  {
    RoundHasRoom(cfg, s, t, run);
    assert t !in s.calls && t !in s.results;
    SoloRun(cfg, s.row.attemptCount, s.calls, s, t, run);
  }

  // ---- many rounds ----

  /** Rounds one after the other, each finding the row claimable. */
  ghost predicate Rounds(cfg: Config, s: State, rounds: seq<(Token, seq<Step>)>)
    decreases |rounds|
  {
    rounds != [] ==>
      && Claimable(s.row, s.now) && Round(cfg, s, rounds[0].0, rounds[0].1)
      && Rounds(cfg, After(cfg, s, rounds[0].1), rounds[1..])
  }

  ghost function AfterRounds(cfg: Config, s: State, rounds: seq<(Token, seq<Step>)>): State
    requires Rounds(cfg, s, rounds)
    decreases |rounds|
  {
    if rounds == [] then s else AfterRounds(cfg, After(cfg, s, rounds[0].1), rounds[1..])
  }

  /** Any number of refused, failed and successful rounds in any order: the count moves exactly with the calls;
      FAILED is reached only with the count at the larger of its start and the limit. */
  lemma {:induction false} RoundsAccountExactly(cfg: Config, s: State, rounds: seq<(Token, seq<Step>)>)
    requires Inv(cfg, s) && Rounds(cfg, s, rounds)
    ensures var e := AfterRounds(cfg, s, rounds);
            && e.row.attemptCount - |e.calls| == s.row.attemptCount - |s.calls|
            && s.row.attemptCount <= e.row.attemptCount <= s.row.attemptCount + |rounds|
            && (rounds != [] && e.row.status == FAILED ==>
                  cfg.maxAttempts > 0 && e.row.attemptCount == Max(s.row.attemptCount, cfg.maxAttempts))
            && (Claimable(s.row, s.now) && !Terminal(e.row) ==> Claimable(e.row, e.now))
    decreases |rounds|
  {
    if rounds != [] {
      var run := rounds[0].1;
      var s1 := After(cfg, s, run);
      RoundOutcome(cfg, s, rounds[0].0, run);
      RunHolds(cfg, s, run);
      RoundsAccountExactly(cfg, s1, rounds[1..]);
    }
  }

  // ---- rounds the breaker refuses ----

  predicate Refused(t: Token, run: seq<Step>) {
    Act(t, Allow(false), true) in run
  }

  /** After the refusal: the provider has not answered this delivery and cannot any more. */
  ghost predicate Declined(s: State, t: Token) {
    && t in s.callers && t !in s.results
    && (s.callers[t].phase.Deferring? || s.callers[t].phase.Returning? || s.callers[t].phase.Ended?)
  }

  lemma {:induction false} DeclinedRun(cfg: Config, s: State, t: Token, run: seq<Step>)
    requires Declined(s, t) && Legal(cfg, s, run) && forall i :: 0 <= i < |run| ==> SoloStep(run[i], t)
    ensures Declined(After(cfg, s, run), t)
    decreases |run|
  {
    if run != [] {
      DeclinedRun(cfg, Apply(cfg, s, run[0]), t, run[1..]);
    }
  }

  lemma {:induction false} RefusedRun(cfg: Config, c: int, calls: seq<Token>, s: State, t: Token, run: seq<Step>)
    requires Solo(cfg, c, calls, s, t) && Legal(cfg, s, run) && Refused(t, run)
    requires ReadsFrom(cfg, s, run, s.row.nextAttemptAt)
    requires forall i :: 0 <= i < |run| ==> SoloStep(run[i], t)
    ensures !Exhausted(cfg, c + 1) && t !in After(cfg, s, run).results
    decreases |run|
  {
    var next := Apply(cfg, s, run[0]);
    if run[0] == Act(t, Allow(false), true) {
      assert s.callers[t].phase.Admitted?;
      DeclinedRun(cfg, next, t, run[1..]);
    } else {
      assert run == [run[0]] + run[1..];
      DueTimeStays(cfg, s, run[0]);
      SoloRunStep(cfg, c, calls, s, t, run[0]);
      RefusedRun(cfg, c, calls, next, t, run[1..]);
    }
  }

  ghost predicate AllRefused(rounds: seq<(Token, seq<Step>)>) {
    forall i :: 0 <= i < |rounds| ==> Refused(rounds[i].0, rounds[i].1)
  }

  /** However many deliveries in a row an open circuit refuses, each after a claim of its own, attempt_count and
      the calls stay as they were and the row is left waiting, ready for the next one. */
  lemma {:induction false} RefusedRoundsCostNothing(cfg: Config, s: State, rounds: seq<(Token, seq<Step>)>)
    requires Inv(cfg, s) && Rounds(cfg, s, rounds) && AllRefused(rounds)
    ensures var e := AfterRounds(cfg, s, rounds);
            && e.row.attemptCount == s.row.attemptCount && e.calls == s.calls
            && (rounds != [] ==> Waiting(e.row))
    decreases |rounds|
  {
    if rounds != [] {
      var t, run := rounds[0].0, rounds[0].1;
      RoundOutcome(cfg, s, t, run);
      RefusedRun(cfg, s.row.attemptCount, s.calls, s, t, run);
      RunHolds(cfg, s, run);
      RefusedRoundsCostNothing(cfg, After(cfg, s, run), rounds[1..]);
    }
  }

  // ---- rounds the provider fails ----

  /** Every round was admitted by the breaker (or stopped by the budget) and failed. */
  ghost predicate AllFail(cfg: Config, s: State, rounds: seq<(Token, seq<Step>)>)
    requires Rounds(cfg, s, rounds)
    decreases |rounds|
  {
    rounds != [] ==>
      var t, e := rounds[0].0, After(cfg, s, rounds[0].1);
      && (!Exhausted(cfg, s.row.attemptCount + 1) ==> t in e.results && !ToldSuccess(e.results[t]))
      && AllFail(cfg, e, rounds[1..])
  }

  /** The number of failing rounds that end in FAILED from count c: one per remaining call, or one to notice
      that none remains. */
  function RoundsToFail(cfg: Config, c: int): int
    requires cfg.maxAttempts > 0
  {
    if c < cfg.maxAttempts then cfg.maxAttempts - c else 1
  }

  /** Termination with exact accounting: from count c the row stays claimable, gaining one per call, until after
      exactly max(0, M - c) calls it is FAILED with count max(c, M), and there is no further round. */
  lemma {:induction false} FailingRoundsExhaust(cfg: Config, s: State, rounds: seq<(Token, seq<Step>)>)
    requires Inv(cfg, s) && Claimable(s.row, s.now) && cfg.maxAttempts > 0
    requires Rounds(cfg, s, rounds) && AllFail(cfg, s, rounds)
    ensures |rounds| <= RoundsToFail(cfg, s.row.attemptCount)
    ensures var c, e := s.row.attemptCount, AfterRounds(cfg, s, rounds);
            if |rounds| < RoundsToFail(cfg, c) then
              Claimable(e.row, e.now) && e.row.attemptCount == c + |rounds| && |e.calls| == |s.calls| + |rounds|
            else
              && e.row.status == FAILED && e.row.attemptCount == Max(c, cfg.maxAttempts)
              && |e.calls| == |s.calls| + Max(0, cfg.maxAttempts - c)
    decreases |rounds|
  {
    if rounds != [] {
      var run := rounds[0].1;
      RoundOutcome(cfg, s, rounds[0].0, run);
      RunHolds(cfg, s, run);
      var s1 := After(cfg, s, run);
      if Terminal(s1.row) {
        assert rounds[1..] == [];
      } else {
        FailingRoundsExhaust(cfg, s1, rounds[1..]);
      }
    }
  }

  /** A success at call k within the remaining budget ends in SUCCEEDED with count c + k. */
  lemma SuccessAfterFailures(cfg: Config, s: State, rounds: seq<(Token, seq<Step>)>, t: Token, run: seq<Step>)
    requires Inv(cfg, s) && Claimable(s.row, s.now)
    requires s.row.attemptCount + |rounds| < cfg.maxAttempts
    requires Rounds(cfg, s, rounds) && AllFail(cfg, s, rounds)
    requires Round(cfg, AfterRounds(cfg, s, rounds), t, run)
    requires var e := After(cfg, AfterRounds(cfg, s, rounds), run);
             t in e.results && e.results[t].Response? && e.results[t].success
    ensures var e := After(cfg, AfterRounds(cfg, s, rounds), run);
            && e.row.status == SUCCEEDED && e.row.attemptCount == s.row.attemptCount + |rounds| + 1
            && |e.calls| == |s.calls| + |rounds| + 1
  {
    FailingRoundsExhaust(cfg, s, rounds);
    RoundsKeepInvariant(cfg, s, rounds);
    RoundOutcome(cfg, AfterRounds(cfg, s, rounds), t, run);
  }

  lemma {:induction false} RoundsKeepInvariant(cfg: Config, s: State, rounds: seq<(Token, seq<Step>)>)
    requires Inv(cfg, s) && Rounds(cfg, s, rounds)
    ensures Inv(cfg, AfterRounds(cfg, s, rounds))
    decreases |rounds|
  {
    if rounds != [] {
      RunHolds(cfg, s, rounds[0].1);
      RoundsKeepInvariant(cfg, After(cfg, s, rounds[0].1), rounds[1..]);
    }
  }

  // ---- there are such rounds ----

  /** The next action of a delivery that meets no obstacle and whose provider call fails. */
  function NextOfFailing(cfg: Config, p: Phase): Action
    requires OnTheWay(p)
  {
    match p
    case Claimed(n) =>
      if Exhausted(cfg, n)
      then Run(MarkFailedUncalled(Finished(OutcomeFailed, "", false, None, Earlier(n))), Done(RolledBack(n)))
      else Lookup(true)
    case Admitted(_) => Allow(true)
    case Permitted(_) => Acquire(true)
    case Slotted(n) => Run(MarkRequesting, Done(n))
    case Marked(n) => Run(RenewLease(cfg.lease), Done(n))
    case Renewed(_) => Send
    case Calling(_) => Receive(AdapterError(""))
    case Received(_, sent) => Observe(ObservationOf(sent))
    case Settling(n, result, _) =>
      if LastAttempt(cfg, n) then Run(MarkFailed(Finished(OutcomeFailed, "", false, None, n), result.body), Done(n))
      else Run(MarkWaiting(cfg.lease, Finished(RequeueRequested, "", false, Some(0), n), result.body), Done(n))
    case Returning(ack, slot) => if slot then Release else Return(ack)
  }

  predicate OnTheWay(p: Phase) {
    (Numbered(p) && !p.Deferring?) || p.Returning?
  }

  function ActionsLeft(p: Phase): nat {
    match p
    case Claimed(_) => 11
    case Admitted(_) => 10
    case Permitted(_) => 9
    case Slotted(_) => 8
    case Marked(_) => 7
    case Renewed(_) => 6
    case Calling(_) => 5
    case Received(_, _) => 4
    case Settling(_, _, _) => 3
    case Returning(_, slot) => if slot then 2 else 1
    case _ => 0
  }

  predicate HasFailed(s: State, t: Token) {
    t in s.results && !ToldSuccess(s.results[t])
  }

  /** Delivery t of copy c, with claim number n, is on its way to a failure, or has got there. */
  ghost predicate Failing(cfg: Config, s: State, t: Token, n: int, c: nat) {
    && t in s.callers && s.row.status != PENDING && (c in s.copies || Terminal(s.row))
    && var p := s.callers[t].phase;
       && (OnTheWay(p) || p.Ended?)
       && (Numbered(p) ==> HeldBy(s.row, t) && p.n == n == s.row.attemptCount)
       && (!Numbered(p) ==> Exhausted(cfg, n) || HasFailed(s, t))
       && (Numbered(p) && !p.Claimed? ==> !Exhausted(cfg, n))
       && (p.Received? ==> HasFailed(s, t) && s.results[t] == p.sent)
       && (p.Settling? ==> HasFailed(s, t) && !p.result.success)
       && (p.Returning? && p.ack ==> Terminal(s.row))
  }

  lemma FailingStatement(cfg: Config, s: State, t: Token, n: int, c: nat)
    requires Failing(cfg, s, t, n, c) && OnTheWay(s.callers[t].phase) && NextOfFailing(cfg, s.callers[t].phase).Run?
    ensures var step := Act(t, NextOfFailing(cfg, s.callers[t].phase), true);
            && Enabled(cfg, s, step) && SoloStep(step, t) && Failing(cfg, Apply(cfg, s, step), t, n, c)
            && ActionsLeft(Apply(cfg, s, step).callers[t].phase) < ActionsLeft(s.callers[t].phase)
  {
    var a := NextOfFailing(cfg, s.callers[t].phase);
    assert Landed(s, Act(t, a, true)) == Updated(Settled(s.row, a.st, s.now));
  }

  lemma FailingProgresses(cfg: Config, s: State, t: Token, n: int, c: nat)
    requires Failing(cfg, s, t, n, c) && OnTheWay(s.callers[t].phase)
    ensures var step := Act(t, NextOfFailing(cfg, s.callers[t].phase), true);
            && Enabled(cfg, s, step) && SoloStep(step, t) && Failing(cfg, Apply(cfg, s, step), t, n, c)
            && ActionsLeft(Apply(cfg, s, step).callers[t].phase) < ActionsLeft(s.callers[t].phase)
  {
    if NextOfFailing(cfg, s.callers[t].phase).Run? {
      FailingStatement(cfg, s, t, n, c);
    }
  }

  /** A run of t alone, ending in e, that never reads the clock before the row is due. */
  ghost predicate SoloRunTo(cfg: Config, s: State, t: Token, run: seq<Step>, e: State) {
    && Legal(cfg, s, run) && After(cfg, s, run) == e && ReadsFrom(cfg, s, run, s.row.nextAttemptAt)
    && forall i :: 0 <= i < |run| ==> SoloStep(run[i], t)
  }

  lemma SoloFirst(cfg: Config, s: State, t: Token, step: Step, run: seq<Step>, e: State)
    requires Enabled(cfg, s, step) && SoloStep(step, t) && Due(s) && SoloRunTo(cfg, Apply(cfg, s, step), t, run, e)
    ensures SoloRunTo(cfg, s, t, [step] + run, e)
  {
    DueTimeStays(cfg, s, step);
    assert ([step] + run)[1..] == run;
  }

  lemma {:induction false} FailingEnds(cfg: Config, s: State, t: Token, n: int, c: nat)
    returns (run: seq<Step>, e: State)
    requires Failing(cfg, s, t, n, c)
    ensures SoloRunTo(cfg, s, t, run, e) && Failing(cfg, e, t, n, c) && e.callers[t].phase.Ended?
    decreases ActionsLeft(s.callers[t].phase)
  {
    if s.callers[t].phase.Ended? {
      run, e := [], s;
    } else {
      var step := Act(t, NextOfFailing(cfg, s.callers[t].phase), true);
      FailingProgresses(cfg, s, t, n, c);
      run, e := FailingEnds(cfg, Apply(cfg, s, step), t, n, c);
      SoloFirst(cfg, s, t, step, run, e);
      run := [step] + run;
    }
  }

  lemma ClaimAndFail(cfg: Config, s: State, t: Token, c: nat) returns (run: seq<Step>, e: State)
    requires Claimable(s.row, s.now) && s.row.attemptCount < MAX_SMALLINT && c in s.copies
    requires t in s.callers && s.callers[t].phase.Fresh?
    ensures SoloRunTo(cfg, s, t, run, e) && t in e.callers && e.callers[t].phase.Ended?
    ensures Failing(cfg, e, t, s.row.attemptCount + 1, c)
  {
    var n := s.row.attemptCount + 1;
    var claim := Act(t, Run(Claim(cfg.lease), Done(n)), true);
    run, e := FailingEnds(cfg, Apply(cfg, s, claim), t, n, c);
    SoloFirst(cfg, s, t, claim, run, e);
    run := [claim] + run;
  }

  /** A claimable row with room in attempt_count and a wake-up in the broker can go through a failing round, and
      keeps its wake-up unless that round ends it. */
  lemma FailingRound(cfg: Config, s: State, c: nat) returns (t: Token, run: seq<Step>, e: State)
    requires Inv(cfg, s) && Claimable(s.row, s.now) && s.row.attemptCount < MAX_SMALLINT && c in s.copies
    ensures Round(cfg, s, t, run) && After(cfg, s, run) == e && (c in e.copies || Terminal(e.row))
    ensures Exhausted(cfg, s.row.attemptCount + 1) || HasFailed(e, t)
  {
    t := Counting.FreshNumber(s.callers.Keys);
    var free := Apply(cfg, s, Disconnect(c));
    var out := Apply(cfg, free, Deliver(t, c));
    run, e := ClaimAndFail(cfg, out, t, c);
    SoloFirst(cfg, free, t, Deliver(t, c), run, e);
    run := [Deliver(t, c)] + run;
    SoloFirst(cfg, s, t, Disconnect(c), run, e);
    run := [Disconnect(c)] + run;
  }

  lemma {:induction false} FailingRounds(cfg: Config, s: State, c: nat, k: nat) returns (rounds: seq<(Token, seq<Step>)>)
    requires Inv(cfg, s) && cfg.maxAttempts > 0 && (k > 0 ==> Claimable(s.row, s.now) && c in s.copies)
    requires Max(s.row.attemptCount + 1, cfg.maxAttempts) <= MAX_SMALLINT
    requires k <= RoundsToFail(cfg, s.row.attemptCount)
    ensures |rounds| == k && Rounds(cfg, s, rounds) && AllFail(cfg, s, rounds)
    decreases k
  {
    if k == 0 {
      rounds := [];
    } else {
      var t, run, e := FailingRound(cfg, s, c);
      RoundOutcome(cfg, s, t, run);
      RunHolds(cfg, s, run);
      var rest := [];
      if k > 1 {
        rest := FailingRounds(cfg, e, c, k - 1);
      }
      rounds := [(t, run)] + rest;
      assert rounds[1..] == rest;
    }
  }

  /** As many failing rounds as it takes to end FAILED. */
  ghost predicate CanExhaust(cfg: Config, s: State)
    requires cfg.maxAttempts > 0
  {
    exists rounds ::
      Rounds(cfg, s, rounds) && AllFail(cfg, s, rounds) && |rounds| == RoundsToFail(cfg, s.row.attemptCount)
  }

  /** From a claimable row with a wake-up in the broker the failing rounds that end it exist if and only if
      attempt_count has room for them. */
  lemma CanExhaustIff(cfg: Config, s: State, c: nat)
    requires Inv(cfg, s) && Claimable(s.row, s.now) && c in s.copies && cfg.maxAttempts > 0
    ensures CanExhaust(cfg, s) <==> Max(s.row.attemptCount + 1, cfg.maxAttempts) <= MAX_SMALLINT
  {
    if Max(s.row.attemptCount + 1, cfg.maxAttempts) <= MAX_SMALLINT {
      var rounds := FailingRounds(cfg, s, c, RoundsToFail(cfg, s.row.attemptCount));
    } else if CanExhaust(cfg, s) {
      var rounds: seq<(Token, seq<Step>)> :|
        Rounds(cfg, s, rounds) && AllFail(cfg, s, rounds) && |rounds| == RoundsToFail(cfg, s.row.attemptCount);
      FailingRoundsExhaust(cfg, s, rounds);
      RoundsKeepInvariant(cfg, s, rounds);
      RoundHasRoom(cfg, s, rounds[0].0, rounds[0].1);
      assert false;
    }
  }

  /** Validation accepts a limit, the delays being in order, exactly when the failures it allows can all be counted. */
  lemma ValidatedLimitCanBeReached(policy: Mq.RequeueConfig, cfg: Config, s: State, c: nat)
    requires cfg.maxAttempts == policy.maxAttempts as int > s.row.attemptCount
    requires 0 < policy.defaultRequeueDelay <= policy.maxRequeueDelay
    requires Inv(cfg, s) && Claimable(s.row, s.now) && c in s.copies
    ensures Mq.ValidConfig(policy) <==> CanExhaust(cfg, s)
  {
    CanExhaustIff(cfg, s, c);
  }
}
