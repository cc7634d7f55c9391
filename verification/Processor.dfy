/**
 internal/worker/processor.go.

 `Advance` is the automaton of one HandleDelivery call: which action may come next and where it
 leads. `Processor.HandleDelivery` is the code itself, run against arbitrary answers from the
 database, the breaker, the limiter and the provider; it records the actions it performs, and is
 proved to be a complete path of the automaton. The protocol modules run the same automaton with
 other workers, crashes and the compensator in between.
 */
module Processor {
  import opened Wrappers
  import opened Domain
  import opened EventStore
  import opened Mq

  /** MaxAttempts (0 means unbounded) and LeaseDuration. */
  datatype Config = Config(maxAttempts: nat, lease: nat)

  /** What a worker learns from a repository call: success (Claim also returns the new attempt_count),
      ErrNotClaimed, or any other error, after which the statement may or may not have committed. */
  datatype Reply = Done(attemptCount: int) | NotClaimed | Failed

  /** What SendActionRequest returns. */
  datatype SendOutcome =
    | AdapterError(message: string)
    | NilResult
    | Response(success: bool, availabilityFailure: bool, errorClass: string, body: Option<string>)

  datatype Observation = Ignore | Reachable | Unavailable

  /** The provider.Result the code settles with. */
  datatype AttemptResult = AttemptResult(success: bool, errorClass: string, body: Option<string>)

  function ObservationOf(sent: SendOutcome): Observation {
    match sent
    case AdapterError(_) => Ignore
    case NilResult => Ignore
    case Response(_, unavailable, _, _) => if unavailable then Unavailable else Reachable
  }

  function ResultOf(sent: SendOutcome): AttemptResult {
    match sent
    case AdapterError(_) => AttemptResult(false, "ADAPTER_ERROR", None)
    case NilResult => AttemptResult(false, "ADAPTER_CONTRACT_VIOLATION", None)
    case Response(success, _, errorClass, body) => AttemptResult(success, errorClass, body)
  }

  /** The provider answered, and reported success. */
  predicate ToldSuccess(sent: SendOutcome) {
    sent.Response? && sent.success
  }

  const UNSUPPORTED := AttemptResult(false, "UNSUPPORTED_PROVIDER_ACTION", None)

  datatype Action =
    | Run(st: Statement, reply: Reply)
    | Lookup(found: bool)
    | Allow(allowed: bool)
    | Acquire(acquired: bool)
    | Abort
    | Send
    | Receive(sent: SendOutcome)
    | Observe(observation: Observation)
    | Release
    | Return(ack: bool)

  /** Where one HandleDelivery call stands. `n` is the attempt_count its claim returned. */
  datatype Phase =
    | Fresh
    | Claimed(n: int)
    | Admitted(n: int)
    | Deferring(n: int)
    | Permitted(n: int)
    | Slotted(n: int)
    | Marked(n: int)
    | Renewed(n: int)
    | Calling(n: int)
    | Received(n: int, sent: SendOutcome)
    | Settling(n: int, result: AttemptResult, slot: bool)
    | Aborting(ack: bool, slot: bool)
    | Returning(ack: bool, slot: bool)
    | Ended(ack: bool)
    | Crashed

  /** The claim found the budget already spent. */
  predicate Exhausted(cfg: Config, n: int) {
    cfg.maxAttempts > 0 && n > 0 && n > cfg.maxAttempts
  }

  /** A failure of attempt n is terminal. */
  predicate LastAttempt(cfg: Config, n: int) {
    cfg.maxAttempts > 0 && n > 0 && n >= cfg.maxAttempts
  }

  function Max(a: int, b: int): int {
    if a < b then b else a
  }

  function Earlier(n: int): int {
    if n - 1 < 0 then 0 else n - 1
  }

  predicate Records(result: LastResult, outcome: Outcome, attemptNumber: int) {
    result.Finished? && result.outcome == outcome && result.attemptNumber == attemptNumber
  }

  /** A requeue record whose recovery deadline is its scheduled redelivery plus one lease. */
  predicate Schedules(cfg: Config, result: LastResult, deadline: Time, attemptNumber: int) {
    && Records(result, RequeueRequested, attemptNumber)
    && result.nextAttemptAt.Some?
    && deadline == result.nextAttemptAt.value + cfg.lease
  }

  /** The statement a worker in phase p may issue. */
  predicate Issues(cfg: Config, p: Phase, st: Statement) {
    match p
    case Fresh => st == Claim(cfg.lease)
    case Claimed(n) => Exhausted(cfg, n) && st.MarkFailedUncalled? && Records(st.result, OutcomeFailed, Earlier(n))
    case Deferring(n) => st.MarkCircuitOpen? && Schedules(cfg, st.result, st.deadline, Earlier(n))
    case Slotted(_) => st.MarkRequesting?
    case Marked(_) => st == RenewLease(cfg.lease)
    case Settling(n, result, _) =>
      if result.success then
        st.MarkSucceeded? && Records(st.result, OutcomeSucceeded, n) && st.response == result.body
      else if LastAttempt(cfg, n) then
        st.MarkFailed? && Records(st.result, OutcomeFailed, n) && st.response == result.body
      else
        st.MarkWaiting? && Schedules(cfg, st.result, st.deadline, n) && st.response == result.body
    case _ => false
  }

  /** Where the answer to the statement of phase p leads. */
  function AfterReply(cfg: Config, p: Phase, reply: Reply): Phase {
    match p
    case Fresh =>
      (match reply
       case Done(n) => Claimed(n)
       case NotClaimed => Returning(true, false)
       case Failed => Returning(false, false))
    case Slotted(n) => if reply.Done? then Marked(n) else Aborting(reply.NotClaimed?, true)
    case Marked(n) => if reply.Done? then Renewed(n) else Aborting(reply.NotClaimed?, true)
    case Claimed(_) => Returning(!reply.Failed?, false)
    case Deferring(_) => Returning(reply.NotClaimed?, false)
    case Settling(n, result, slot) =>
      if result.success || LastAttempt(cfg, n) then Returning(!reply.Failed?, slot)
      else Returning(reply.NotClaimed?, slot)
    case _ => p
  }

  function Advance(cfg: Config, p: Phase, a: Action): Option<Phase> {
    match a
    case Run(st, reply) =>
      if Issues(cfg, p, st) then Some(AfterReply(cfg, p, reply)) else None
    case Lookup(found) =>
      if p.Claimed? && !Exhausted(cfg, p.n)
      then Some(if found then Admitted(p.n) else Settling(p.n, UNSUPPORTED, false)) else None
    case Allow(allowed) =>
      if p.Admitted? then Some(if allowed then Permitted(p.n) else Deferring(p.n)) else None
    case Acquire(acquired) =>
      if p.Permitted? then Some(if acquired then Slotted(p.n) else Aborting(false, false)) else None
    case Abort =>
      if p.Aborting? then Some(Returning(p.ack, p.slot)) else None
    case Send =>
      if p.Renewed? then Some(Calling(p.n)) else None
    case Receive(sent) =>
      if p.Calling? then Some(Received(p.n, sent)) else None
    case Observe(observation) =>
      if p.Received? && observation == ObservationOf(p.sent)
      then Some(Settling(p.n, ResultOf(p.sent), true)) else None
    case Release =>
      if p.Returning? && p.slot then Some(Returning(p.ack, false)) else None
    case Return(ack) =>
      if p.Returning? && !p.slot && ack == p.ack then Some(Ended(ack)) else None
  }

  /** The phase a sequence of actions leads to, if the automaton accepts it. */
  function Follow(cfg: Config, p: Phase, trace: seq<Action>): Option<Phase> {
    if trace == [] then Some(p)
    else
      var before := Follow(cfg, p, trace[..|trace| - 1]);
      if before.Some? then Advance(cfg, before.value, trace[|trace| - 1]) else None
  }

  lemma FollowOne(cfg: Config, p: Phase, trace: seq<Action>, q: Phase, a: Action)
    requires Follow(cfg, p, trace) == Some(q)
    ensures Follow(cfg, p, trace + [a]) == Advance(cfg, q, a)
  {
    assert (trace + [a])[..|trace|] == trace;
  }

  // ---- what every path of the automaton does ----

  /** How often a trace took and gave back the breaker permit and the concurrency slot, and called out. */
  datatype Ledger = Ledger(permits: nat, resolutions: nat, slots: nat, releases: nat, sends: nat)

  function LedgerOf(trace: seq<Action>): Ledger {
    if trace == [] then Ledger(0, 0, 0, 0, 0)
    else
      var l := LedgerOf(trace[..|trace| - 1]);
      match trace[|trace| - 1]
      case Allow(true) => l.(permits := l.permits + 1)
      case Abort => l.(resolutions := l.resolutions + 1)
      case Observe(_) => l.(resolutions := l.resolutions + 1)
      case Acquire(true) => l.(slots := l.slots + 1)
      case Release => l.(releases := l.releases + 1)
      case Send => l.(sends := l.sends + 1)
      case _ => l
  }

  predicate HoldsPermit(p: Phase) {
    p.Permitted? || p.Slotted? || p.Marked? || p.Renewed? || p.Calling? || p.Received? || p.Aborting?
  }

  predicate HoldsSlot(p: Phase) {
    || p.Slotted? || p.Marked? || p.Renewed? || p.Calling? || p.Received?
    || ((p.Settling? || p.Aborting? || p.Returning?) && p.slot)
  }

  predicate BeforeAllow(p: Phase) {
    p.Fresh? || p.Claimed? || p.Admitted?
  }

  /** The phases from which the provider may still be called. */
  predicate MayStillSend(p: Phase) {
    BeforeAllow(p) || p.Permitted? || p.Slotted? || p.Marked? || p.Renewed?
  }

  /** On every path, complete or cut short: the permit is resolved at most once and exactly when it has been
      given up, likewise the slot; the provider is called at most once, and only while both are held. */
  lemma {:induction false} ResourcesBalance(cfg: Config, trace: seq<Action>, p: Phase)
    requires Follow(cfg, Fresh, trace) == Some(p)
    ensures var l := LedgerOf(trace);
            && l.permits == l.resolutions + (if HoldsPermit(p) then 1 else 0)
            && l.slots == l.releases + (if HoldsSlot(p) then 1 else 0)
            && l.sends <= l.slots <= l.permits <= 1
            && (BeforeAllow(p) ==> l.permits == 0)
            && (p.Permitted? ==> l.slots == 0)
            && (MayStillSend(p) ==> l.sends == 0)
  {
    if trace != [] {
      var front := trace[..|trace| - 1];
      ResourcesBalance(cfg, front, Follow(cfg, Fresh, front).value);
    }
  }

  /** A call that returns has resolved every permit it took and released every slot, once. */
  lemma EveryReturnSettlesUp(cfg: Config, trace: seq<Action>, ack: bool)
    requires Follow(cfg, Fresh, trace) == Some(Ended(ack))
    ensures LedgerOf(trace).permits == LedgerOf(trace).resolutions <= 1
    ensures LedgerOf(trace).slots == LedgerOf(trace).releases <= 1
    ensures LedgerOf(trace).sends <= 1
  {
    ResourcesBalance(cfg, trace, Ended(ack));
  }

  // ---- what a call did, told from its trace ----

  /** Whether the provider was called, what the breaker heard, and the statements that settled or released the row. */
  datatype Deeds = Deeds(sent: bool, heard: seq<Observation>, settled: seq<Action>)

  function DeedsOf(trace: seq<Action>): Deeds {
    if trace == [] then Deeds(false, [], [])
    else
      var d := DeedsOf(trace[..|trace| - 1]);
      var a := trace[|trace| - 1];
      match a
      case Send => d.(sent := true)
      case Observe(observation) => d.(heard := d.heard + [observation])
      case Run(st, _) =>
        if st.Claim? || st.MarkRequesting? || st.RenewLease? then d else d.(settled := d.settled + [a])
      case _ => d
  }

  // ---- the code ----

  /** The answers one call meets. */
  datatype Surroundings = Surroundings(
    claimed: Reply, configured: bool, allowed: bool, retryAfter: int, acquired: bool,
    marked: Reply, renewed: Reply, sent: SendOutcome, settled: Reply, clock: Time)

  /** nil, a plain error, or the typed requeue directive. */
  datatype HandlerResult = Nil | PlainError | Requeue(delay: int, backoff: bool)

  class Worker {
    const cfg: Config
    const delivery: Delivery
    /** Everything the call has done so far, in order. */
    var trace: seq<Action>

    constructor (cfg: Config, delivery: Delivery)
      requires cfg.maxAttempts == delivery.maxAttempts as int
      ensures this.cfg == cfg && this.delivery == delivery && trace == []
    {
      this.cfg, this.delivery, trace := cfg, delivery, [];
    }

    ghost predicate At(p: Phase)
      reads this
    {
      Follow(cfg, Fresh, trace) == Some(p)
    }

    /** The delivery carries a validated retry policy. */
    predicate HasPolicy() {
      && 0 < delivery.defaultRequeueDelay <= delivery.maxRequeueDelay
      && IsInt64(delivery.maxRequeueDelay)
    }

    /** The delay asked for comes from the persisted attempt n, never from the broker's own count: the default times
        n, capped; after a refusal by the breaker the same for the attempts really made, or the time the breaker asks
        for if that is longer. A delivery without a policy carries its delay with it. */
    predicate DelayIsDue(n: int, retryAfter: int, result: HandlerResult) {
      result.Requeue? ==>
        && (HasPolicy() && result.backoff ==>
              result.delay == Min(delivery.defaultRequeueDelay * n, delivery.maxRequeueDelay))
        && (HasPolicy() && !result.backoff ==>
              result.delay == Max(retryAfter, Min(delivery.defaultRequeueDelay * Max(1, n - 1), delivery.maxRequeueDelay)))
        && (delivery.defaultRequeueDelay <= 0 ==>
              result.delay == Max(0, if result.backoff then delivery.requeueDelay
                                     else Max(retryAfter, delivery.requeueDelay)))
    }

    lemma DelayFromAttempt(n: int)
      requires 0 < n < TWO_TO_THE_32
      ensures HasPolicy() ==>
                && RequeueDelayFor(delivery, n as uint32) == Min(delivery.defaultRequeueDelay * n, delivery.maxRequeueDelay)
                && RequeueDelayFor(delivery, n as uint32) > 0
      ensures delivery.defaultRequeueDelay <= 0 ==> RequeueDelayFor(delivery, n as uint32) == delivery.requeueDelay
    {
      if HasPolicy() {
        DelayIsCappedProduct(n as uint32, delivery.defaultRequeueDelay, delivery.maxRequeueDelay);
        assert delivery.defaultRequeueDelay * n > 0;
      }
    }

    /** The delay of an ordinary failure of attempt n, and of a deferral after n real attempts. */
    function PolicyDelay(n: int): int {
      if 0 <= n < TWO_TO_THE_32 then Max(0, RequeueDelayFor(delivery, n as uint32)) else 0
    }

    function DeferralDelay(n: int, retryAfter: int): int {
      Max(PolicyDelay(Max(1, n)), retryAfter)
    }

    /** The action uses the answer the surroundings give, and what it writes is what the code would write. */
    predicate Answered(env: Surroundings, a: Action) {
      match a
      case Run(Claim(_), reply) => reply == env.claimed
      case Run(MarkRequesting, reply) => reply == env.marked
      case Run(RenewLease(_), reply) => reply == env.renewed
      case Run(MarkWaiting(_, result, _), reply) =>
        && reply == env.settled && result.Finished?
        && result.errorClass == (if env.configured then ResultOf(env.sent) else UNSUPPORTED).errorClass
        && result.nextAttemptAt == Some(env.clock + PolicyDelay(result.attemptNumber))
      case Run(MarkCircuitOpen(_, result), reply) =>
        && reply == env.settled && result.Finished? && result.errorClass == "CIRCUIT_OPEN"
        && result.nextAttemptAt == Some(env.clock + DeferralDelay(result.attemptNumber, env.retryAfter))
      case Run(_, reply) => reply == env.settled
      case Lookup(found) => found == env.configured
      case Allow(allowed) => allowed == env.allowed
      case Acquire(acquired) => acquired == env.acquired
      case Receive(sent) => sent == env.sent
      case _ => true
    }

    ghost predicate Honest(env: Surroundings)
      reads this
    {
      forall i :: 0 <= i < |trace| ==> Answered(env, trace[i])
    }

    /** A settled statement that hands the row back to the queue. */
    predicate IsRelease(a: Action) {
      a.Run? && a.reply.Done? && (a.st.MarkWaiting? || a.st.MarkCircuitOpen?)
    }

    ghost predicate NothingReleased()
      reads this
    {
      forall i :: 0 <= i < |trace| ==> !IsRelease(trace[i])
    }

    predicate Releases(a: Action, clock: Time, result: HandlerResult)
      requires result.Requeue?
    {
      && IsRelease(a) && a.st.result.Finished?
      && a.st.result.nextAttemptAt == Some(clock + result.delay)
      && a.st.deadline == clock + result.delay + cfg.lease
      && (result.backoff <==> a.st.MarkWaiting?)
    }

    /** How a finished call looks: a complete path over the given answers; nil exactly when it acknowledges; a requeue
        directive exactly when the row was released, for the scheduled time, with backoff unless a circuit was open. */
    ghost predicate Returned(env: Surroundings, result: HandlerResult)
      reads this
    {
      && At(Ended(result == Nil)) && Honest(env)
      && if result.Requeue?
         then result.delay >= 0 && exists i :: 0 <= i < |trace| && Releases(trace[i], env.clock, result)
         else NothingReleased()
    }

    // ---- what the answers decide ----

    /** The claim found room in the budget. */
    predicate Within(env: Surroundings) {
      env.claimed.Done? && (cfg.maxAttempts == 0 || env.claimed.attemptCount <= cfg.maxAttempts)
    }

    /** Nothing stands between the claim and the provider. */
    predicate Calls(env: Surroundings) {
      Within(env) && env.configured && env.allowed && env.acquired && env.marked.Done? && env.renewed.Done?
    }

    /** The provider is called exactly when nothing stands in the way, and the breaker then hears that the endpoint is
        unavailable exactly when the response says so, and nothing about it when there was no response. */
    predicate CalledAndHeard(env: Surroundings, d: Deeds) {
      && d.sent == Calls(env)
      && d.heard == if !Calls(env) then []
                    else if !env.sent.Response? then [Ignore]
                    else if env.sent.availabilityFailure then [Unavailable] else [Reachable]
    }

    /** The one statement that settles or releases the row: succeeded exactly when the provider reported success, failed
        uncalled beyond the limit, deferred on an open circuit, and otherwise failed at the limit and released below
        it. The provider's body is kept, and the error named. */
    predicate SettledAsAnswered(env: Surroundings, st: Statement)
      requires env.claimed.Done?
    {
      var n := env.claimed.attemptCount;
      if !Within(env) then
        st.MarkFailedUncalled? && st.result.Finished? && st.result.attemptNumber == n - 1
      else if env.configured && !env.allowed then
        && st.MarkCircuitOpen? && st.result.Finished? && st.result.attemptNumber == n - 1
        && st.result.errorClass == "CIRCUIT_OPEN"
      else if env.configured && env.sent.Response? && env.sent.success then
        st.MarkSucceeded? && st.response == env.sent.body && st.result.Finished? && st.result.attemptNumber == n
      else
        var response := if env.configured && env.sent.Response? then env.sent.body else None;
        if n == cfg.maxAttempts then
          st.MarkFailed? && st.response == response && st.result.Finished? && st.result.attemptNumber == n
        else
          && st.MarkWaiting? && st.response == response && st.result.Finished? && st.result.attemptNumber == n
          && st.result.errorClass == (if !env.configured then "UNSUPPORTED_PROVIDER_ACTION"
                                      else match env.sent
                                           case AdapterError(_) => "ADAPTER_ERROR"
                                           case NilResult => "ADAPTER_CONTRACT_VIOLATION"
                                           case Response(_, _, errorClass, _) => errorClass)
    }

    /** How a call ends: what it did to the row, and whether it acknowledges its wake-up. A database error is never
        acknowledged; a lost lease always is; after a settled statement only a released row is not. */
    predicate EndsAsAnswered(env: Surroundings, d: Deeds, ack: bool) {
      if !env.claimed.Done? then
        d.settled == [] && ack == env.claimed.NotClaimed?
      else if Within(env) && env.configured && env.allowed && !Calls(env) then
        && d.settled == []
        && ack == (env.acquired && if env.marked.Done? then env.renewed.NotClaimed? else env.marked.NotClaimed?)
      else
        && |d.settled| == 1 && d.settled[0].Run? && d.settled[0].reply == env.settled
        && SettledAsAnswered(env, d.settled[0].st)
        && ack == (env.settled.NotClaimed?
                   || (env.settled.Done? && !d.settled[0].st.MarkWaiting? && !d.settled[0].st.MarkCircuitOpen?))
    }

    /** What is known about a call that has got as far as p. */
    ghost predicate KnownAt(env: Surroundings, p: Phase, d: Deeds) {
      var n := if env.claimed.Done? then env.claimed.attemptCount else 0;
      match p
      case Fresh => d == Deeds(false, [], [])
      case Claimed(k) => d == Deeds(false, [], []) && env.claimed.Done? && k == n
      case Admitted(k) => d == Deeds(false, [], []) && Within(env) && env.configured && k == n
      case Deferring(k) => d == Deeds(false, [], []) && Within(env) && env.configured && !env.allowed && k == n
      case Permitted(k) => d == Deeds(false, [], []) && Within(env) && env.configured && env.allowed && k == n
      case Slotted(k) =>
        d == Deeds(false, [], []) && Within(env) && env.configured && env.allowed && env.acquired && k == n
      case Marked(k) =>
        && d == Deeds(false, [], []) && Within(env) && env.configured && env.allowed && env.acquired && k == n
        && env.marked.Done?
      case Renewed(k) => d == Deeds(false, [], []) && Calls(env) && k == n
      case Calling(k) => d == Deeds(true, [], []) && Calls(env) && k == n
      case Received(k, sent) => d == Deeds(true, [], []) && Calls(env) && k == n && sent == env.sent
      case Settling(k, result, slot) =>
        && Within(env) && k == n && CalledAndHeard(env, d) && d.settled == []
        && (if slot then Calls(env) else !env.configured)
        && (result.success <==> slot && env.sent.Response? && env.sent.success)
        && result.body == (if slot && env.sent.Response? then env.sent.body else None)
      case Aborting(ack, slot) =>
        && d == Deeds(false, [], []) && Within(env) && env.configured && env.allowed && !Calls(env)
        && (slot <==> env.acquired)
        && ack == (slot && if env.marked.Done? then env.renewed.NotClaimed? else env.marked.NotClaimed?)
      case Returning(ack, _) => CalledAndHeard(env, d) && EndsAsAnswered(env, d, ack)
      case Ended(ack) => CalledAndHeard(env, d) && EndsAsAnswered(env, d, ack)
      case Crashed => false
    }

    lemma StatementIsKnown(env: Surroundings, p: Phase, st: Statement, reply: Reply, d: Deeds)
      requires env.claimed.Done? ==> env.claimed.attemptCount > 0
      requires KnownAt(env, p, d) && Advance(cfg, p, Run(st, reply)).Some? && Answered(env, Run(st, reply))
      ensures var settles := !(st.Claim? || st.MarkRequesting? || st.RenewLease?);
              KnownAt(env, Advance(cfg, p, Run(st, reply)).value,
                      if settles then d.(settled := d.settled + [Run(st, reply)]) else d)
    {
      assert d.settled == [];
      assert Issues(cfg, p, st);
    }

    lemma ActionIsKnown(env: Surroundings, p: Phase, a: Action, d: Deeds)
      requires KnownAt(env, p, d) && Advance(cfg, p, a).Some? && Answered(env, a) && !a.Run?
      ensures KnownAt(env, Advance(cfg, p, a).value,
                      match a
                      case Send => d.(sent := true)
                      case Observe(observation) => d.(heard := d.heard + [observation])
                      case _ => d)
    {
    }

    /** On every path over the given answers, complete or cut short. */
    lemma {:induction false} PathIsKnown(env: Surroundings, trace: seq<Action>, p: Phase)
      requires env.claimed.Done? ==> env.claimed.attemptCount > 0
      requires Follow(cfg, Fresh, trace) == Some(p) && forall i :: 0 <= i < |trace| ==> Answered(env, trace[i])
      ensures KnownAt(env, p, DeedsOf(trace))
    {
      if trace != [] {
        var front, a := trace[..|trace| - 1], trace[|trace| - 1];
        var q := Follow(cfg, Fresh, front).value;
        PathIsKnown(env, front, q);
        if a.Run? {
          StatementIsKnown(env, q, a.st, a.reply, DeedsOf(front));
        } else {
          ActionIsKnown(env, q, a, DeedsOf(front));
        }
      }
    }

    method Do(ghost env: Surroundings, a: Action, ghost p: Phase) returns (ghost q: Phase)
      requires At(p) && Advance(cfg, p, a).Some? && Honest(env) && Answered(env, a)
      modifies this
      ensures trace == old(trace) + [a]
      ensures Some(q) == Advance(cfg, p, a) && At(q) && Honest(env)
      ensures old(NothingReleased()) && !IsRelease(a) ==> NothingReleased()
    {
      FollowOne(cfg, Fresh, trace, p, a);
      q := Advance(cfg, p, a).value;
      trace := trace + [a];
    }

    method HandleDelivery(env: Surroundings) returns (result: HandlerResult)
      requires trace == []
      requires env.claimed.Done? ==> 0 < env.claimed.attemptCount <= MAX_SMALLINT
      modifies this
      ensures Returned(env, result)
      ensures CalledAndHeard(env, DeedsOf(trace)) && EndsAsAnswered(env, DeedsOf(trace), result == Nil)
      ensures result.Requeue? ==> env.claimed.Done? && DelayIsDue(env.claimed.attemptCount, env.retryAfter, result)
      ensures result.Requeue? && !result.backoff ==> result.delay >= env.retryAfter
    {
      ghost var p := Do(env, Run(Claim(cfg.lease), env.claimed), Fresh);
      if !env.claimed.Done? {
        result := if env.claimed.NotClaimed? then Nil else PlainError;
        p := Do(env, Return(result == Nil), p);
      } else {
        result := Process(env, env.claimed.attemptCount);
      }
      PathIsKnown(env, trace, Ended(result == Nil));
    }

    method Process(env: Surroundings, n: int) returns (result: HandlerResult)
      requires Honest(env) && NothingReleased() && At(Claimed(n)) && 0 < n <= MAX_SMALLINT
      modifies this
      ensures Returned(env, result) && DelayIsDue(n, env.retryAfter, result)
      ensures result.Requeue? && !result.backoff ==> result.delay >= env.retryAfter
    {
      ghost var p := Claimed(n);
      if cfg.maxAttempts > 0 && n > 0 && n > cfg.maxAttempts {
        result := FinishExhaustedBeforeProvider(env, n);
        return;
      }
      p := Do(env, Lookup(env.configured), p);
      if !env.configured {
        result := RetryOrFail(env, n, UNSUPPORTED, false);
        return;
      }
      p := Do(env, Allow(env.allowed), p);
      if !env.allowed {
        result := DeferForOpenCircuit(env, n);
        return;
      }
      p := Do(env, Acquire(env.acquired), p);
      if !env.acquired {
        p := Do(env, Abort, p);
        p := Do(env, Return(false), p);
        return PlainError;
      }
      result := SendAndSettle(env, n);
    }

    /** The part of process that runs with the concurrency slot held. */
    method SendAndSettle(env: Surroundings, n: int) returns (result: HandlerResult)
      requires Honest(env) && NothingReleased() && At(Slotted(n)) && env.configured && 0 < n <= MAX_SMALLINT
      modifies this
      ensures Returned(env, result) && DelayIsDue(n, env.retryAfter, result)
      ensures result.Requeue? ==> result.backoff
    {
      ghost var p := Do(env, Run(MarkRequesting, env.marked), Slotted(n));
      if !env.marked.Done? {
        result := AbortHoldingSlot(env, env.marked, p);
        return;
      }
      p := Do(env, Run(RenewLease(cfg.lease), env.renewed), p);
      if !env.renewed.Done? {
        result := AbortHoldingSlot(env, env.renewed, p);
        return;
      }
      p := Do(env, Send, p);
      result := SettleResponse(env, n);
    }

    /** What process does once the provider has answered. */
    method SettleResponse(env: Surroundings, n: int) returns (result: HandlerResult)
      requires Honest(env) && NothingReleased() && At(Calling(n)) && env.configured && 0 < n <= MAX_SMALLINT
      modifies this
      ensures Returned(env, result) && DelayIsDue(n, env.retryAfter, result)
      ensures result.Requeue? ==> result.backoff
    {
      ghost var p := Do(env, Receive(env.sent), Calling(n));
      var observation := Ignore;
      var outcome: AttemptResult;
      match env.sent {
        case AdapterError(_) => outcome := AttemptResult(false, "ADAPTER_ERROR", None);
        case NilResult => outcome := AttemptResult(false, "ADAPTER_CONTRACT_VIOLATION", None);
        case Response(success, unavailable, errorClass, body) =>
          outcome := AttemptResult(success, errorClass, body);
          observation := if unavailable then Unavailable else Reachable;
      }
      p := Do(env, Observe(observation), p);
      if outcome.success {
        p := Do(env, Run(MarkSucceeded(Finished(OutcomeSucceeded, "", false, None, n), outcome.body), env.settled), p);
        result := if env.settled.Failed? then PlainError else Nil;
        p := Do(env, Release, p);
        p := Do(env, Return(result == Nil), p);
        return;
      }
      result := RetryOrFail(env, n, outcome, true);
    }

    /** The `Breakers.Abort; return` tail after MarkRequesting or RenewLease did not succeed. */
    method AbortHoldingSlot(ghost env: Surroundings, reply: Reply, ghost p: Phase) returns (result: HandlerResult)
      requires Honest(env) && NothingReleased() && !reply.Done? && p == Aborting(reply.NotClaimed?, true) && At(p)
      modifies this
      ensures Returned(env, result) && !result.Requeue?
    {
      ghost var q := Do(env, Abort, p);
      q := Do(env, Release, q);
      result := if reply.NotClaimed? then Nil else PlainError;
      q := Do(env, Return(result == Nil), q);
    }

    method FinishExhaustedBeforeProvider(env: Surroundings, n: int) returns (result: HandlerResult)
      requires Honest(env) && NothingReleased() && At(Claimed(n)) && Exhausted(cfg, n)
      modifies this
      ensures Returned(env, result) && !result.Requeue?
    {
      var realAttempts := n - 1;
      if realAttempts < 0 {
        realAttempts := 0;
      }
      var lastResult := Finished(OutcomeFailed, "MAX_PROVIDER_ATTEMPTS_EXHAUSTED", false, None, realAttempts);
      ghost var p := Do(env, Run(MarkFailedUncalled(lastResult), env.settled), Claimed(n));
      result := if env.settled.Failed? then PlainError else Nil;
      p := Do(env, Return(result == Nil), p);
    }

    method DeferForOpenCircuit(env: Surroundings, n: int) returns (result: HandlerResult)
      requires Honest(env) && NothingReleased() && At(Deferring(n)) && 0 < n <= MAX_SMALLINT
      modifies this
      ensures Returned(env, result) && DelayIsDue(n, env.retryAfter, result)
      ensures result.Requeue? ==> !result.backoff && result.delay >= env.retryAfter
    {
      var realAttempts := n - 1;
      if realAttempts < 0 {
        realAttempts := 0;
      }
      var baseAttempt := realAttempts as uint32;
      if baseAttempt == 0 {
        baseAttempt := 1;
      }
      DelayFromAttempt(baseAttempt as int);
      var delay := RequeueDelayFor(delivery, baseAttempt);
      if env.retryAfter > delay {
        delay := env.retryAfter;
      }
      if delay < 0 {
        delay := 0;
      }
      var nextAttemptAt := env.clock + delay;
      var lastResult := Finished(RequeueRequested, "CIRCUIT_OPEN", false, Some(nextAttemptAt), realAttempts);
      var st := MarkCircuitOpen(nextAttemptAt + cfg.lease, lastResult);
      result := ReleaseForRequeue(env, st, delay, false, false, Deferring(n));
    }

    method RetryOrFail(env: Surroundings, n: int, outcome: AttemptResult, slot: bool) returns (result: HandlerResult)
      requires Honest(env) && NothingReleased() && At(Settling(n, outcome, slot))
      requires 0 < n <= MAX_SMALLINT && !outcome.success
      requires outcome == if env.configured then ResultOf(env.sent) else UNSUPPORTED
      modifies this
      ensures Returned(env, result) && DelayIsDue(n, env.retryAfter, result)
      ensures result.Requeue? ==> result.backoff
    {
      if cfg.maxAttempts > 0 && n > 0 && n >= cfg.maxAttempts {
        var failed := Finished(OutcomeFailed, "MAX_PROVIDER_ATTEMPTS_EXHAUSTED", false, None, n);
        ghost var p := Do(env, Run(MarkFailed(failed, outcome.body), env.settled), Settling(n, outcome, slot));
        result := if env.settled.Failed? then PlainError else Nil;
        if slot {
          p := Do(env, Release, p);
        }
        p := Do(env, Return(result == Nil), p);
        return;
      }
      // releaseForRequeue
      DelayFromAttempt(n);
      var requeueDelay := RequeueDelayFor(delivery, n as uint32);
      if requeueDelay < 0 {
        requeueDelay := 0;
      }
      var nextAttemptAt := env.clock + requeueDelay;
      var lastResult := Finished(RequeueRequested, outcome.errorClass, false, Some(nextAttemptAt), n);
      var st := MarkWaiting(nextAttemptAt + cfg.lease, lastResult, outcome.body);
      result := ReleaseForRequeue(env, st, requeueDelay, true, slot, Settling(n, outcome, slot));
    }

    /** The shared tail of the two requeue paths: settle, give back the slot, return the directive. */
    method ReleaseForRequeue(env: Surroundings, st: Statement, delay: int, backoff: bool, slot: bool, ghost p: Phase)
      returns (result: HandlerResult)
      requires Honest(env) && NothingReleased() && At(p) && Issues(cfg, p, st) && delay >= 0
      requires (p.Deferring? && !slot) || (p.Settling? && !p.result.success && p.slot == slot)
      requires (st.MarkWaiting? || st.MarkCircuitOpen?) && (backoff <==> st.MarkWaiting?)
      requires Answered(env, Run(st, env.settled))
      requires st.deadline == env.clock + delay + cfg.lease && st.result.nextAttemptAt == Some(env.clock + delay)
      modifies this
      ensures Returned(env, result) && (result.Requeue? ==> result == Requeue(delay, backoff))
    {
      ghost var q := Do(env, Run(st, env.settled), p);
      ghost var k := |trace| - 1;
      if env.settled.Done? {
        result := Requeue(delay, backoff);
      } else {
        result := if env.settled.NotClaimed? then Nil else PlainError;
      }
      if slot {
        q := Do(env, Release, q);
      }
      q := Do(env, Return(result == Nil), q);
      assert env.settled.Done? ==> Releases(trace[k], env.clock, result);
    }
  }
}
