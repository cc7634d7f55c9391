/**
 The inductive invariant of the protocol, and its preservation by every step. Nothing in it depends on a clock;
 what does is in Timing.
 */
module Invariant {
  import opened Wrappers
  import opened Domain
  import opened EventStore
  import opened Processor
  import opened Compensator
  import opened Protocol

  // ---- the row ----

  predicate RowShape(row: Event) {
    && 0 <= row.attemptCount <= MAX_SMALLINT
    && (row.lastResult.Finished? ==> row.lastResult.attemptNumber == row.attemptCount)
    && match row.status
       case PENDING =>
         && row.attemptCount == 0 && row.leaseToken == None && row.leaseUntil == None
         && row.lastResult == NoResult && row.providerResponse == None
       case PROCESSING =>
         && row.leaseUntil.Some?
         && (row.leaseToken.Some? ==>
               row.attemptCount >= 1 && (row.lastResult.PhaseClaimed? || row.lastResult.PhaseRequesting?))
         && (row.leaseToken == None ==> RequeueIsRequested(row.lastResult))
       case SUCCEEDED =>
         && row.leaseToken == None && row.leaseUntil == None
         && row.lastResult.Finished? && row.lastResult.outcome == OutcomeSucceeded
       case FAILED =>
         && row.leaseToken == None && row.leaseUntil == None
         && row.lastResult.Finished? && row.lastResult.outcome == OutcomeFailed
  }

  // ---- the history ----

  /** The claims that still count are the distinct holders so far, the live lease on top. */
  ghost predicate StackOk(s: State) {
    && |s.stack| == s.row.attemptCount
    && (forall i :: 0 <= i < |s.stack| ==> s.stack[i] in s.callers && !s.callers[s.stack[i]].phase.Fresh?)
    && (forall i, j :: 0 <= i < j < |s.stack| ==> s.stack[i] != s.stack[j])
    && (s.row.leaseToken.Some? ==> s.stack != [] && s.stack[|s.stack| - 1] == s.row.leaseToken.value)
  }

  /** Every provider call belongs to a claim that still counts and was within the budget. */
  ghost predicate CallsOk(cfg: Config, s: State) {
    && (forall i, j :: 0 <= i < j < |s.calls| ==> s.calls[i] != s.calls[j])
    && (forall t :: t in s.calls ==> t in s.stack && t in s.callers)
    && (forall i :: 0 <= i < |s.stack| && s.stack[i] in s.calls && cfg.maxAttempts > 0 ==> i < cfg.maxAttempts)
    && (forall t :: t in s.results ==> t in s.calls)
  }

  ghost predicate OutcomeOk(cfg: Config, s: State) {
    && (s.row.status == SUCCEEDED ==>
          && s.stack != [] && s.stack[|s.stack| - 1] in s.results
          && ToldSuccess(s.results[s.stack[|s.stack| - 1]]))
    && (s.row.status == FAILED ==> cfg.maxAttempts > 0 && s.row.attemptCount >= cfg.maxAttempts)
  }

  /** The body in the row is the one the latest counted call returned; a row settled by that call has it. */
  ghost predicate ResponseOk(s: State) {
    && (s.row.providerResponse.Some? || s.row.status == SUCCEEDED ==>
          && s.stack != [] && s.stack[|s.stack| - 1] in s.results
          && var sent := s.results[s.stack[|s.stack| - 1]];
             sent.Response? && s.row.providerResponse == sent.body)
    && (s.row.leaseToken.Some? ==> s.row.providerResponse == None)
  }

  // ---- one caller ----

  predicate Numbered(p: Phase) {
    || p.Claimed? || p.Admitted? || p.Deferring? || p.Permitted? || p.Slotted? || p.Marked?
    || p.Renewed? || p.Calling? || p.Received? || p.Settling?
  }

  predicate BeforeSend(p: Phase) {
    MayStillSend(p) || p.Deferring?
  }

  predicate BeforeRenewal(p: Phase) {
    BeforeSend(p) && !p.Renewed?
  }

  predicate Live(s: State, t: Token) {
    s.row.leaseToken == Some(t)
  }

  /** A numbered caller's claim is entry n of the stack, and past the first check n is within the budget. */
  ghost predicate Position(cfg: Config, s: State, t: Token)
    requires t in s.callers
  {
    var p := s.callers[t].phase;
    && (Numbered(p) ==>
          && 1 <= p.n <= |s.stack| && s.stack[p.n - 1] == t
          && (!p.Claimed? && cfg.maxAttempts > 0 ==> p.n <= cfg.maxAttempts))
    && (p.Fresh? ==> t !in s.stack && !Live(s, t))
  }

  /** The provider was called and has not answered, whatever has become of the worker. */
  predicate InFlight(s: State, t: Token) {
    t in s.calls && t !in s.results
  }

  ghost predicate CallHistory(s: State, t: Token)
    requires t in s.callers
  {
    var p := s.callers[t].phase;
    && (BeforeSend(p) ==> t !in s.calls)
    && (InFlight(s, t) ==> p.Calling? || p.Crashed?)
    && (p.Calling? || p.Received? ==> t in s.calls)
    && (p.Calling? ==> t !in s.results)
    && (p.Received? ==> t in s.results && s.results[t] == p.sent)
    && (p.Settling? && p.slot ==> t in s.results && ResultOf(s.results[t]) == p.result)
    && (p.Settling? && !p.slot ==> !p.result.success && p.result.body == None && t !in s.calls)
  }

  /** Until the lease is lost, a caller that renewed it owns it for one lease duration from then. */
  ghost predicate LeaseHistory(cfg: Config, s: State, t: Token)
    requires t in s.callers
  {
    var w := s.callers[t];
    && (BeforeRenewal(w.phase) ==> w.renewedAt == None)
    && (w.phase.Renewed? || t in s.calls ==> w.renewedAt.Some?)
    && (w.phase.Marked? && Live(s, t) ==> s.row.lastResult.PhaseRequesting?)
    && (w.renewedAt.Some? && Live(s, t) ==>
          && s.row.leaseUntil == Some(w.renewedAt.value + cfg.lease)
          && s.row.lastResult.PhaseRequesting?)
  }

  /** A claim that still counts but made no call is still on its way to one, or met a fault. */
  ghost predicate Accounted(s: State, t: Token)
    requires t in s.callers
  {
    t in s.stack && t !in s.calls && t !in s.faulted ==> Live(s, t) && BeforeSend(s.callers[t].phase)
  }

  ghost predicate CallerOk(cfg: Config, s: State, t: Token)
    requires t in s.callers
  {
    Position(cfg, s, t) && CallHistory(s, t) && LeaseHistory(cfg, s, t) && Accounted(s, t)
  }

  /** A snapshot is of a row that waited or was held by a claim still known. */
  ghost predicate SnapshotOk(s: State, seen: Snapshot) {
    && (seen.row.leaseToken == None ==> RequeueIsRequested(seen.row.lastResult))
    && (seen.row.leaseToken.Some? ==>
          var t := seen.row.leaseToken.value;
          && t in s.callers && !s.callers[t].phase.Fresh?
          && (Live(s, t) ==> seen.row.attemptCount == s.row.attemptCount))
  }

  ghost predicate Core(cfg: Config, s: State) {
    RowShape(s.row) && StackOk(s) && CallsOk(cfg, s) && OutcomeOk(cfg, s)
  }

  ghost predicate Inv(cfg: Config, s: State) {
    && Core(cfg, s) && ResponseOk(s)
    && (forall t :: t in s.callers ==> CallerOk(cfg, s, t))
    && (forall seen :: seen in s.snapshots ==> SnapshotOk(s, seen))
  }

  lemma InitHolds(cfg: Config, s: State)
    requires Init(s)
    ensures Inv(cfg, s)
  {
  }

  // ---- preservation ----

  /** The part of the invariant one step relies on. */
  ghost predicate Ready(cfg: Config, s: State, step: Step) {
    && Core(cfg, s) && Enabled(cfg, s, step)
    && (step.Act? ==> CallerOk(cfg, s, step.token))
    && (step.Recover? ==> SnapshotOk(s, step.seen))
  }

  /** What a worker statement that changed the row did, in terms of the invariant. */
  lemma StatementLands(cfg: Config, s: State, step: Step)
    requires Ready(cfg, s, step)
    requires step.Act? && step.action.Run? && Landed(s, step).Updated?
    ensures var t, p, st := step.token, s.callers[step.token].phase, step.action.st;
            && Issues(cfg, p, st)
            && (st.Claim? ==> p.Fresh? && s.row.leaseToken == None && Claimable(s.row, s.now))
            && (!st.Claim? ==>
                  && HeldBy(s.row, t) && Numbered(p) && p.n == |s.stack| == s.row.attemptCount
                  && s.stack[|s.stack| - 1] == t
                  && Landed(s, step).row == Settled(s.row, st, s.now))
  {
    var t, p, st := step.token, s.callers[step.token].phase, step.action.st;
    assert CallerOk(cfg, s, t);
    assert Position(cfg, s, t);
    if !st.Claim? {
      assert Numbered(p);
      assert s.stack[p.n - 1] == t == s.stack[|s.stack| - 1];
    }
  }

  lemma RowStep(cfg: Config, s: State, step: Step)
    requires Ready(cfg, s, step)
    ensures RowShape(Apply(cfg, s, step).row) && Apply(cfg, s, step).row.nextAttemptAt == s.row.nextAttemptAt
  {
    if step.Act? {
      if step.action.Run? && Landed(s, step).Updated? {
        RowLands(cfg, s, step);
      }
    }
  }

  lemma RowLands(cfg: Config, s: State, step: Step)
    requires Ready(cfg, s, step)
    requires step.Act? && step.action.Run? && Landed(s, step).Updated?
    ensures RowShape(Landed(s, step).row) && Landed(s, step).row.nextAttemptAt == s.row.nextAttemptAt
  {
    StatementLands(cfg, s, step);
  }

  /** Acts that leave the row and the stack alone. */
  predicate Local(s: State, step: Step) {
    step.Act? && (step.action.Run? ==> !Landed(s, step).Updated?)
  }

  predicate Lands(s: State, step: Step) {
    step.Act? && step.action.Run? && Landed(s, step).Updated?
  }

  /** No act returns a caller to Fresh, and only the acting caller moves. */
  lemma OnlyActorMoves(cfg: Config, s: State, step: Step)
    requires step.Act? && Enabled(cfg, s, step)
    ensures var s' := Apply(cfg, s, step);
            && s'.callers.Keys == s.callers.Keys
            && !s'.callers[step.token].phase.Fresh?
            && (forall u :: u in s.callers && u != step.token ==> s'.callers[u] == s.callers[u])
            && s'.now == s.now && s'.snapshots == s.snapshots && s'.marks == s.marks
            && (!step.action.Run? ==> s'.row == s.row && s'.stack == s.stack)
            && (Local(s, step) ==> s'.row == s.row && s'.stack == s.stack)
            && (!step.action.Send? ==> s'.calls == s.calls)
            && (!step.action.Receive? ==> s'.results == s.results)
            && s.faulted <= s'.faulted
  {
  }

  lemma StackStep(cfg: Config, s: State, step: Step)
    requires Ready(cfg, s, step)
    ensures StackOk(Apply(cfg, s, step))
  {
    if step.Act? {
      OnlyActorMoves(cfg, s, step);
      if Lands(s, step) {
        StackLands(cfg, s, step);
      }
    } else {
      RowStep(cfg, s, step);
    }
  }

  /** What a statement does to the stack, the count and the lease together. */
  lemma StackMoves(cfg: Config, s: State, step: Step)
    requires Ready(cfg, s, step) && Lands(s, step)
    ensures var s', st := Apply(cfg, s, step), step.action.st;
            if st.Claim? then
              && s'.stack == s.stack + [step.token] && step.token !in s.stack
              && s'.row.attemptCount == s.row.attemptCount + 1 && s'.row.leaseToken == Some(step.token)
            else if st.MarkCircuitOpen? || st.MarkFailedUncalled? then
              && s.stack != [] && s'.stack == s.stack[..|s.stack| - 1]
              && s'.row.attemptCount == s.row.attemptCount - 1 && s'.row.leaseToken == None
            else
              && s'.stack == s.stack && s'.row.attemptCount == s.row.attemptCount
              && (s'.row.leaseToken == None || s'.row.leaseToken == s.row.leaseToken)
  {
    StatementLands(cfg, s, step);
    assert Position(cfg, s, step.token);
  }

  lemma StackLands(cfg: Config, s: State, step: Step)
    requires Ready(cfg, s, step) && Lands(s, step)
    ensures StackOk(Apply(cfg, s, step))
  {
    OnlyActorMoves(cfg, s, step);
    StackMoves(cfg, s, step);
  }

  /** The stack only ever loses an entry whose caller has not called and never will. */
  lemma CallersStayOnStack(cfg: Config, s: State, step: Step)
    requires Ready(cfg, s, step) && Lands(s, step)
    ensures var s' := Apply(cfg, s, step);
            && (forall i :: 0 <= i < |s.stack| && i < |s'.stack| ==> s'.stack[i] == s.stack[i])
            && (|s'.stack| < |s.stack| ==>
                  |s'.stack| == |s.stack| - 1 && s.stack[|s.stack| - 1] == step.token && step.token !in s.calls)
            && (|s'.stack| > |s.stack| ==>
                  s'.stack == s.stack + [step.token] && step.token !in s.calls && step.token !in s.stack)
  {
    StatementLands(cfg, s, step);
    assert Position(cfg, s, step.token) && CallHistory(s, step.token);
  }

  lemma CallerStaysOnStack(cfg: Config, s: State, step: Step, u: Token)
    requires Ready(cfg, s, step) && Lands(s, step) && u in s.calls
    ensures u in Apply(cfg, s, step).stack
  {
    CallersStayOnStack(cfg, s, step);
    var i :| 0 <= i < |s.stack| && s.stack[i] == u;
    assert i < |Apply(cfg, s, step).stack|;
    assert Apply(cfg, s, step).stack[i] == u;
  }

  lemma CallsLand(cfg: Config, s: State, step: Step)
    requires Ready(cfg, s, step) && Lands(s, step)
    ensures CallsOk(cfg, Apply(cfg, s, step))
  {
    var s' := Apply(cfg, s, step);
    OnlyActorMoves(cfg, s, step);
    CallersStayOnStack(cfg, s, step);
    forall u | u in s'.calls ensures u in s'.stack {
      CallerStaysOnStack(cfg, s, step, u);
    }
  }

  lemma CallsStep(cfg: Config, s: State, step: Step)
    requires Ready(cfg, s, step)
    ensures CallsOk(cfg, Apply(cfg, s, step))
  {
    if step.Act? {
      if Lands(s, step) {
        CallsLand(cfg, s, step);
      } else {
        OnlyActorMoves(cfg, s, step);
        assert Position(cfg, s, step.token) && CallHistory(s, step.token);
      }
    }
  }

  lemma OutcomeStep(cfg: Config, s: State, step: Step)
    requires Ready(cfg, s, step)
    ensures OutcomeOk(cfg, Apply(cfg, s, step))
  {
    if step.Act? {
      OnlyActorMoves(cfg, s, step);
      if Lands(s, step) {
        OutcomeLands(cfg, s, step);
      } else if step.action.Receive? {
        // a call that already returned does not return again
        assert CallHistory(s, step.token);
      }
    }
  }

  lemma OutcomeLands(cfg: Config, s: State, step: Step)
    requires Ready(cfg, s, step) && Lands(s, step)
    ensures OutcomeOk(cfg, Apply(cfg, s, step))
  {
    StatementLands(cfg, s, step);
    OnlyActorMoves(cfg, s, step);
    assert CallHistory(s, step.token);
    if step.action.st.MarkSucceeded? {
      assert s.callers[step.token].phase.Settling?;
    }
  }

  lemma ResponseStep(cfg: Config, s: State, step: Step)
    requires Ready(cfg, s, step) && ResponseOk(s)
    ensures ResponseOk(Apply(cfg, s, step))
  {
    if step.Act? {
      OnlyActorMoves(cfg, s, step);
      if Lands(s, step) {
        ResponseLands(cfg, s, step);
      } else if step.action.Receive? {
        assert CallHistory(s, step.token);
      }
    }
  }

  lemma ResponseLands(cfg: Config, s: State, step: Step)
    requires Ready(cfg, s, step) && ResponseOk(s) && Lands(s, step)
    ensures ResponseOk(Apply(cfg, s, step))
  {
    StatementLands(cfg, s, step);
    OnlyActorMoves(cfg, s, step);
    assert CallHistory(s, step.token);
  }

  // one caller at a time: the actor of an act, and everybody else

  /** A step of somebody else leaves u alone, or takes its lease. */
  ghost predicate Undisturbed(s: State, s': State, u: Token) {
    && u in s.callers && u in s'.callers && s'.callers[u] == s.callers[u]
    && (u in s'.stack ==> u in s.stack)
    && (forall i :: 0 <= i < |s.stack| && s.stack[i] == u ==> i < |s'.stack| && s'.stack[i] == u)
    && (u in s'.calls <==> u in s.calls)
    && (u in s.results ==> u in s'.results && s'.results[u] == s.results[u])
    && (u in s'.results ==> u in s.results)
    && s.faulted <= s'.faulted
    && (Live(s', u) ==>
          && Live(s, u) && s'.row.leaseUntil == s.row.leaseUntil && s'.row.lastResult == s.row.lastResult)
    && (Live(s, u) && !Live(s', u) ==> u in s'.faulted)
  }

  lemma UndisturbedStaysOk(cfg: Config, s: State, s': State, u: Token)
    requires Undisturbed(s, s', u) && CallerOk(cfg, s, u)
    ensures CallerOk(cfg, s', u)
  {
  }

  lemma BystandersUndisturbed(cfg: Config, s: State, step: Step, u: Token)
    requires Ready(cfg, s, step) && u in s.callers && CallerOk(cfg, s, u)
    requires !(step.Act? && step.token == u) && !(step.Crash? && step.token == u)
    ensures Undisturbed(s, Apply(cfg, s, step), u)
  {
    if step.Act? {
      if Lands(s, step) {
        LandsUndisturbed(cfg, s, step, u);
      } else {
        MissUndisturbed(cfg, s, step, u);
      }
    }
  }

  lemma MissUndisturbed(cfg: Config, s: State, step: Step, u: Token)
    requires step.Act? && Enabled(cfg, s, step) && !Lands(s, step) && u in s.callers && step.token != u
    ensures Undisturbed(s, Apply(cfg, s, step), u)
  {
    OnlyActorMoves(cfg, s, step);
  }

  /** Only the holder, or a fresh claim of a row nobody holds, changes the row; nobody else holds it before or after. */
  lemma OnlyHolderLands(cfg: Config, s: State, step: Step)
    requires Ready(cfg, s, step) && Lands(s, step)
    ensures s.row.leaseToken == Some(step.token) || (s.row.leaseToken == None && s.callers[step.token].phase.Fresh?)
    ensures var row := Apply(cfg, s, step).row;
            row.status != PENDING && (row.leaseToken == None || row.leaseToken == Some(step.token))
  {
    StatementLands(cfg, s, step);
  }

  lemma OthersStayOnStack(cfg: Config, s: State, step: Step, u: Token)
    requires Ready(cfg, s, step) && Lands(s, step) && step.token != u
    ensures var s' := Apply(cfg, s, step);
            && (u in s'.stack ==> u in s.stack)
            && (forall i :: 0 <= i < |s.stack| && s.stack[i] == u ==> i < |s'.stack| && s'.stack[i] == u)
  {
    CallersStayOnStack(cfg, s, step);
  }

  lemma LandsUndisturbed(cfg: Config, s: State, step: Step, u: Token)
    requires Ready(cfg, s, step) && u in s.callers
    requires Lands(s, step) && step.token != u
    ensures Undisturbed(s, Apply(cfg, s, step), u)
  {
    OnlyActorMoves(cfg, s, step);
    OnlyHolderLands(cfg, s, step);
    OthersStayOnStack(cfg, s, step, u);
  }

  /** The actor of a statement that changed the row. */
  lemma ActorLands(cfg: Config, s: State, step: Step)
    requires Ready(cfg, s, step) && Lands(s, step)
    ensures CallerOk(cfg, Apply(cfg, s, step), step.token)
  {
    var st := step.action.st;
    if st.Claim? {
      ActorClaims(cfg, s, step);
    } else if st.MarkRequesting? || st.RenewLease? {
      ActorKeepsLease(cfg, s, step);
    } else {
      ActorSettles(cfg, s, step);
    }
  }

  lemma ActorClaims(cfg: Config, s: State, step: Step)
    requires Ready(cfg, s, step) && Lands(s, step) && step.action.st.Claim?
    ensures CallerOk(cfg, Apply(cfg, s, step), step.token)
  {
    StatementLands(cfg, s, step);
    var s' := Apply(cfg, s, step);
    assert s'.stack == s.stack + [step.token];
    assert s'.stack[|s.stack|] == step.token;
  }

  lemma ActorKeepsLease(cfg: Config, s: State, step: Step)
    requires Ready(cfg, s, step) && Lands(s, step) && (step.action.st.MarkRequesting? || step.action.st.RenewLease?)
    ensures CallerOk(cfg, Apply(cfg, s, step), step.token)
  {
    StatementLands(cfg, s, step);
    assert Apply(cfg, s, step).stack == s.stack;
  }

  lemma ActorSettles(cfg: Config, s: State, step: Step)
    requires Ready(cfg, s, step) && Lands(s, step)
    requires !step.action.st.Claim? && !step.action.st.MarkRequesting? && !step.action.st.RenewLease?
    ensures CallerOk(cfg, Apply(cfg, s, step), step.token)
  {
    StatementLands(cfg, s, step);
    CallersStayOnStack(cfg, s, step);
    var st := step.action.st;
    var s' := Apply(cfg, s, step);
    assert s'.callers[step.token].phase.Returning?;
    if st.MarkCircuitOpen? || st.MarkFailedUncalled? {
      assert step.token !in s'.stack;
    }
  }

  /** The actor of a statement that changed nothing: only its phase and the fault history move. */
  lemma ActorMisses(cfg: Config, s: State, step: Step)
    requires Ready(cfg, s, step) && step.Act? && step.action.Run? && !Lands(s, step)
    ensures CallerOk(cfg, Apply(cfg, s, step), step.token)
  {
    OnlyActorMoves(cfg, s, step);
    var t := step.token;
    var p' := Apply(cfg, s, step).callers[t].phase;
    assert step.action.reply.NotClaimed? || t in Apply(cfg, s, step).faulted;
    assert p'.Returning? || p'.Aborting?;
    if step.action.reply.NotClaimed? && Numbered(s.callers[t].phase) {
      assert !Live(s, t);
    }
  }

  /** The actor of a step outside the database. */
  lemma ActorElsewhere(cfg: Config, s: State, step: Step)
    requires Ready(cfg, s, step) && step.Act? && !step.action.Run?
    ensures CallerOk(cfg, Apply(cfg, s, step), step.token)
  {
    if step.action.Send? || step.action.Receive? || step.action.Observe? {
      ActorCalls(cfg, s, step);
    } else {
      ActorLocal(cfg, s, step);
    }
  }

  lemma ActorCalls(cfg: Config, s: State, step: Step)
    requires Ready(cfg, s, step) && step.Act?
    requires step.action.Send? || step.action.Receive? || step.action.Observe?
    ensures CallerOk(cfg, Apply(cfg, s, step), step.token)
  {
    var s' := Apply(cfg, s, step);
    if step.action.Send? {
      assert s'.calls[|s.calls|] == step.token;
    }
  }

  lemma ActorLocal(cfg: Config, s: State, step: Step)
    requires Ready(cfg, s, step) && step.Act? && !step.action.Run?
    requires !step.action.Send? && !step.action.Receive? && !step.action.Observe?
    ensures CallerOk(cfg, Apply(cfg, s, step), step.token)
  {
    if step.action.Abort? || step.action.Release? || step.action.Return? {
      ActorLeaves(cfg, s, step);
    } else {
      ActorDecides(cfg, s, step);
    }
  }

  lemma ActorLeaves(cfg: Config, s: State, step: Step)
    requires Ready(cfg, s, step) && step.Act?
    requires step.action.Abort? || step.action.Release? || step.action.Return?
    ensures CallerOk(cfg, Apply(cfg, s, step), step.token)
  {
    OnlyActorMoves(cfg, s, step);
    var p := s.callers[step.token].phase;
    assert p.Aborting? || p.Returning?;
  }

  lemma ActorDecides(cfg: Config, s: State, step: Step)
    requires Ready(cfg, s, step) && step.Act?
    requires step.action.Lookup? || step.action.Allow? || step.action.Acquire?
    ensures CallerOk(cfg, Apply(cfg, s, step), step.token)
  {
    OnlyActorMoves(cfg, s, step);
    var p := s.callers[step.token].phase;
    assert p.Claimed? || p.Admitted? || p.Permitted?;
  }

  lemma NewOrCrashedCaller(cfg: Config, s: State, step: Step)
    requires Ready(cfg, s, step) && (step.Deliver? || step.Crash?)
    requires step.Crash? ==> CallerOk(cfg, s, step.token)
    ensures CallerOk(cfg, Apply(cfg, s, step), step.token)
  {
    var u := step.token;
    if step.Deliver? {
      assert u !in s.stack && !Live(s, u) && u !in s.calls;
    }
  }

  lemma CallerStep(cfg: Config, s: State, step: Step, u: Token)
    requires Ready(cfg, s, step) && u in Apply(cfg, s, step).callers
    requires u in s.callers ==> CallerOk(cfg, s, u)
    ensures CallerOk(cfg, Apply(cfg, s, step), u)
  {
    if (step.Deliver? || step.Crash?) && step.token == u {
      NewOrCrashedCaller(cfg, s, step);
    } else if step.Act? && step.token == u {
      if Lands(s, step) {
        ActorLands(cfg, s, step);
      } else if step.action.Run? {
        ActorMisses(cfg, s, step);
      } else {
        ActorElsewhere(cfg, s, step);
      }
    } else {
      if step.Act? {
        OnlyActorMoves(cfg, s, step);
      }
      BystandersUndisturbed(cfg, s, step, u);
      UndisturbedStaysOk(cfg, s, Apply(cfg, s, step), u);
    }
  }

  lemma ActKeepsSnapshot(cfg: Config, s: State, step: Step, seen: Snapshot)
    requires Ready(cfg, s, step) && step.Act? && SnapshotOk(s, seen)
    ensures SnapshotOk(Apply(cfg, s, step), seen)
  {
    OnlyActorMoves(cfg, s, step);
    if Lands(s, step) {
      StatementLands(cfg, s, step);
    }
    if step.action.Run? && seen.row.leaseToken == Some(step.token) {
      assert !s.callers[step.token].phase.Fresh?;
    }
  }

  lemma NewSnapshot(cfg: Config, s: State)
    requires Core(cfg, s) && InExpiredScan(s.row, s.now)
    ensures SnapshotOk(s, Snapshot(s.row, s.now))
  {
    if s.row.leaseToken.Some? {
      assert s.stack[|s.stack| - 1] == s.row.leaseToken.value;
    }
  }

  lemma OtherStepKeepsSnapshot(cfg: Config, s: State, step: Step, seen: Snapshot)
    requires Ready(cfg, s, step) && !step.Act? && SnapshotOk(s, seen)
    ensures SnapshotOk(Apply(cfg, s, step), seen)
  {
  }

  lemma SnapshotStep(cfg: Config, s: State, step: Step, seen: Snapshot)
    requires Inv(cfg, s) && Enabled(cfg, s, step) && seen in Apply(cfg, s, step).snapshots
    ensures SnapshotOk(Apply(cfg, s, step), seen)
  {
    if step.Act? {
      OnlyActorMoves(cfg, s, step);
      ActKeepsSnapshot(cfg, s, step, seen);
    } else {
      if seen !in s.snapshots {
        assert step.Scan? && seen == Snapshot(s.row, s.now);
        if s.row.leaseToken.Some? {
          assert s.stack[|s.stack| - 1] == s.row.leaseToken.value;
        }
        NewSnapshot(cfg, s);
      }
      OtherStepKeepsSnapshot(cfg, s, step, seen);
    }
  }

  lemma StepHolds(cfg: Config, s: State, step: Step)
    requires Inv(cfg, s) && Enabled(cfg, s, step)
    ensures Inv(cfg, Apply(cfg, s, step))
  {
    var s' := Apply(cfg, s, step);
    assert Ready(cfg, s, step);
    RowStep(cfg, s, step);
    StackStep(cfg, s, step);
    CallsStep(cfg, s, step);
    OutcomeStep(cfg, s, step);
    ResponseStep(cfg, s, step);
    forall u | u in s'.callers ensures CallerOk(cfg, s', u) {
      CallerStep(cfg, s, step, u);
    }
    forall seen | seen in s'.snapshots ensures SnapshotOk(s', seen) {
      SnapshotStep(cfg, s, step, seen);
    }
  }

  /** The invariant holds in every state of every run that starts with an insert. */
  lemma {:induction false} RunHolds(cfg: Config, s: State, run: seq<Step>)
    requires Inv(cfg, s) && Legal(cfg, s, run)
    ensures Inv(cfg, After(cfg, s, run))
    decreases |run|
  {
    if run != [] {
      StepHolds(cfg, s, run[0]);
      RunHolds(cfg, Apply(cfg, s, run[0]), run[1..]);
    }
  }
}
