/**
 internal/worker/breaker.go: the per-action circuit breaker.

 `ActionBreaker` is the mutable object; its methods are proved against the value functions `Allowed`,
 `Observed` and `Aborted`. `System` adds what surrounds it: a clock that does not run backwards, the permits
 handed out and not yet resolved, and the history of accepted observations and of openings.
 */
module Breaker {
  import opened Wrappers
  import opened Domain
  import opened Processor
  import opened Mq

  datatype CircuitState = CLOSED | OPEN | HALF_OPEN

  /** The breaker's own policy; normalizeCircuitBreaker rejects a zero threshold or duration. */
  datatype Policy = Policy(threshold: int, openDuration: int)

  predicate ValidPolicy(cfg: Policy) {
    1 <= cfg.threshold < TWO_TO_THE_32 && cfg.openDuration > 0
  }

  /** openUntil == None is the zero time. */
  datatype Circuit = Circuit(state: CircuitState, failures: int, generation: nat, openUntil: Option<Time>, probing: bool)

  datatype Permit = Permit(generation: nat, halfOpen: bool)

  datatype Decision = Granted(permit: Permit) | Rejected(retryAfter: int)

  function Allowed(b: Circuit, now: Time): (Circuit, Decision) {
    match b.state
    case OPEN =>
      if b.openUntil.Some? && now < b.openUntil.value then (b, Rejected(b.openUntil.value - now))
      else (b.(state := HALF_OPEN, probing := true), Granted(Permit(b.generation, true)))
    case HALF_OPEN =>
      if b.probing then (b, Rejected(0))
      else (b.(probing := true), Granted(Permit(b.generation, true)))
    case CLOSED => (b, Granted(Permit(b.generation, false)))
  }

  function Opened(cfg: Policy, b: Circuit, now: Time): Circuit {
    b.(state := OPEN, generation := b.generation + 1, openUntil := Some(now + cfg.openDuration), probing := false)
  }

  function Observed(cfg: Policy, b: Circuit, p: Permit, seen: Observation, now: Time): Circuit {
    if p.generation != b.generation then b
    else
      var b1 := if p.halfOpen then b.(probing := false) else b;
      match seen
      case Ignore => b1
      case Reachable =>
        if b.state == HALF_OPEN
        then b1.(failures := 0, generation := b.generation + 1, openUntil := None, state := CLOSED)
        else b1.(failures := 0)
      case Unavailable =>
        if b.state == HALF_OPEN then Opened(cfg, b1, now)
        else if b.state == OPEN then b1
        else
          var b2 := b1.(failures := (b1.failures + 1) % TWO_TO_THE_32);
          if b2.failures >= cfg.threshold then Opened(cfg, b2, now) else b2
  }

  function Aborted(b: Circuit, p: Permit): Circuit {
    if p.generation == b.generation && p.halfOpen then b.(probing := false) else b
  }

  class ActionBreaker {
    const cfg: Policy
    var state: CircuitState
    var consecutiveFailure: int
    var generation: nat
    var openUntil: Option<Time>
    var halfOpenInFlight: bool

    ghost function View(): Circuit
      reads this
    {
      Circuit(state, consecutiveFailure, generation, openUntil, halfOpenInFlight)
    }

    constructor (cfg: Policy)
      ensures this.cfg == cfg && View() == Circuit(CLOSED, 0, 0, None, false)
    {
      this.cfg := cfg;
      state, consecutiveFailure, generation, openUntil, halfOpenInFlight := CLOSED, 0, 0, None, false;
    }

    method Allow(now: Time) returns (d: Decision)
      modifies this
      ensures (View(), d) == Allowed(old(View()), now)
      ensures d.Granted? <==>
              match old(state)
              case CLOSED => true
              case OPEN => old(openUntil) == None || old(openUntil).value <= now
              case HALF_OPEN => !old(halfOpenInFlight)
      ensures d.Granted? ==> d.permit == Permit(old(generation), old(state) != CLOSED)
      ensures d.Granted? && old(state) != CLOSED ==> state == HALF_OPEN && halfOpenInFlight
      ensures d.Rejected? ==>
                && View() == old(View())
                && d.retryAfter == if old(state) == OPEN then old(openUntil).value - now else 0
    {
      if state == OPEN {
        if openUntil.Some? && now < openUntil.value {
          return Rejected(openUntil.value - now);
        }
        state := HALF_OPEN;
        halfOpenInFlight := true;
        return Granted(Permit(generation, true));
      }
      if state == HALF_OPEN {
        if halfOpenInFlight {
          return Rejected(0);
        }
        halfOpenInFlight := true;
        return Granted(Permit(generation, true));
      }
      return Granted(Permit(generation, false));
    }

    method Observe(p: Permit, seen: Observation, now: Time)
      modifies this
      ensures View() == Observed(cfg, old(View()), p, seen, now)
      ensures p.generation != old(generation) ==> View() == old(View())
      ensures p.generation == old(generation) && old(state) == HALF_OPEN && seen == Reachable ==>
                state == CLOSED && consecutiveFailure == 0 && generation == old(generation) + 1
      ensures p.generation == old(generation) && old(state) == HALF_OPEN && seen == Unavailable ==>
                && state == OPEN && openUntil == Some(now + cfg.openDuration)
                && !halfOpenInFlight && generation == old(generation) + 1
      ensures seen == Ignore ==> state == old(state) && consecutiveFailure == old(consecutiveFailure)
    {
      if p.generation != generation {
        return;
      }
      if p.halfOpen {
        halfOpenInFlight := false;
      }
      match seen {
        case Ignore =>
        case Reachable =>
          consecutiveFailure := 0;
          if state == HALF_OPEN {
            generation := generation + 1;
            openUntil := None;
            state := CLOSED;
          }
        case Unavailable =>
          if state == HALF_OPEN {
            OpenLocked(now);
            return;
          }
          if state != CLOSED {
            return;
          }
          consecutiveFailure := (consecutiveFailure + 1) % TWO_TO_THE_32;
          if consecutiveFailure >= cfg.threshold {
            OpenLocked(now);
          }
      }
    }

    method Abort(p: Permit)
      modifies this
      ensures View() == Aborted(old(View()), p)
    {
      if p.generation == generation && p.halfOpen {
        halfOpenInFlight := false;
      }
    }

    method OpenLocked(now: Time)
      modifies this
      ensures View() == Opened(cfg, old(View()), now)
    {
      generation := generation + 1;
      openUntil := Some(now + cfg.openDuration);
      halfOpenInFlight := false;
      state := OPEN;
    }
  }

  // ---- the breaker among its users ----

  /** An observation that was accepted, with the generation it was accepted in. */
  datatype Seen = Seen(generation: nat, observation: Observation)

  datatype System = System(
    circuit: Circuit,
    now: Time,
    outstanding: map<nat, Permit>,  // permits granted and not yet resolved
    issued: nat,                    // history: permits granted so far
    log: seq<Seen>,                 // history: accepted observations
    openings: seq<Time>)            // history: when the circuit opened

  datatype Step = Ask | Report(id: nat, observation: Observation) | GiveUp(id: nat) | Tick(elapsed: nat)

  predicate Enabled(s: System, step: Step) {
    match step
    case Ask => true
    case Report(id, _) => id in s.outstanding
    case GiveUp(id) => id in s.outstanding
    case Tick(_) => true
  }

  function Apply(cfg: Policy, s: System, step: Step): System
    requires Enabled(s, step)
  {
    match step
    case Ask =>
      var (b, d) := Allowed(s.circuit, s.now);
      if d.Granted? then s.(circuit := b, outstanding := s.outstanding[s.issued := d.permit], issued := s.issued + 1)
      else s.(circuit := b)
    case Report(id, seen) =>
      var p := s.outstanding[id];
      var b := Observed(cfg, s.circuit, p, seen, s.now);
      s.(circuit := b, outstanding := s.outstanding - {id},
         log := if p.generation == s.circuit.generation then s.log + [Seen(p.generation, seen)] else s.log,
         openings := if b.state == OPEN && s.circuit.state != OPEN then s.openings + [s.now] else s.openings)
    case GiveUp(id) =>
      s.(circuit := Aborted(s.circuit, s.outstanding[id]), outstanding := s.outstanding - {id})
    case Tick(elapsed) => s.(now := s.now + elapsed)
  }

  predicate Init(s: System) {
    && s.circuit == Circuit(CLOSED, 0, 0, None, false)
    && s.outstanding == map[] && s.issued == 0 && s.log == [] && s.openings == []
  }

  predicate Legal(cfg: Policy, s: System, run: seq<Step>)
    decreases |run|
  {
    run == [] || (Enabled(s, run[0]) && Legal(cfg, Apply(cfg, s, run[0]), run[1..]))
  }

  function After(cfg: Policy, s: System, run: seq<Step>): System
    requires Legal(cfg, s, run)
    decreases |run|
  {
    if run == [] then s else After(cfg, Apply(cfg, s, run[0]), run[1..])
  }

  /** The length of the run of Unavailable observations at the end of generation g, skipping Ignore. */
  function TrailingFailures(log: seq<Seen>, g: nat): nat {
    if log == [] || log[|log| - 1].generation != g then 0
    else match log[|log| - 1].observation
      case Ignore => TrailingFailures(log[..|log| - 1], g)
      case Reachable => 0
      case Unavailable => TrailingFailures(log[..|log| - 1], g) + 1
  }

  /** The unresolved permits of the current generation. */
  ghost predicate Current(s: System, id: nat) {
    id in s.outstanding && s.outstanding[id].generation == s.circuit.generation
  }

  ghost predicate Inv(cfg: Policy, s: System) {
    var b := s.circuit;
    && (forall id :: id in s.outstanding ==> id < s.issued && s.outstanding[id].generation <= b.generation)
    && (forall i :: 0 <= i < |s.log| ==> s.log[i].generation <= b.generation)
    && (forall i :: 0 <= i < |s.openings| ==>
          s.openings[i] + cfg.openDuration <= s.now
          || (b.state == OPEN && b.openUntil == Some(s.openings[i] + cfg.openDuration)))
    && match b.state
       case CLOSED =>
         && !b.probing && b.failures == TrailingFailures(s.log, b.generation) < cfg.threshold
         && (forall id :: Current(s, id) ==> !s.outstanding[id].halfOpen)
       case OPEN =>
         && !b.probing && b.failures == cfg.threshold && b.openUntil.Some?
         && (exists i :: 0 <= i < |s.openings| && s.openings[i] == b.openUntil.value - cfg.openDuration)
         && (forall id :: !Current(s, id))
       case HALF_OPEN =>
         && b.failures == cfg.threshold
         && (forall id :: Current(s, id) ==> s.outstanding[id].halfOpen)
         && (forall id, other :: Current(s, id) && Current(s, other) ==> id == other)
         && (b.probing <==> exists id :: Current(s, id))
  }

  lemma AskHolds(cfg: Policy, s: System)
    requires ValidPolicy(cfg) && Inv(cfg, s)
    ensures Inv(cfg, Apply(cfg, s, Ask))
  {
    var s' := Apply(cfg, s, Ask);
    assert forall id :: id != s.issued ==> (Current(s', id) <==> Current(s, id));
    if s'.issued > s.issued && s'.circuit.state == HALF_OPEN {
      assert Current(s', s.issued);
    }
  }

  /** A report on an earlier generation only removes the permit. */
  lemma StaleReportHolds(cfg: Policy, s: System, id: nat, seen: Observation)
    requires ValidPolicy(cfg) && Inv(cfg, s) && id in s.outstanding && !Current(s, id)
    ensures Inv(cfg, Apply(cfg, s, Report(id, seen)))
  {
    var s' := Apply(cfg, s, Report(id, seen));
    assert s'.circuit == s.circuit && s'.log == s.log && s'.openings == s.openings;
    assert forall other :: Current(s', other) <==> Current(s, other);
  }

  /** What an accepted report does to the trailing run. */
  lemma LogGrows(log: seq<Seen>, g: nat, seen: Observation)
    ensures TrailingFailures(log + [Seen(g, seen)], g) ==
            match seen
            case Ignore => TrailingFailures(log, g)
            case Reachable => 0
            case Unavailable => TrailingFailures(log, g) + 1
  {
    assert (log + [Seen(g, seen)])[..|log|] == log;
  }

  /** A report that ends the generation: the circuit opened, or closed again after its probe. */
  lemma TurningReportHolds(cfg: Policy, s: System, id: nat, seen: Observation)
    requires ValidPolicy(cfg) && Inv(cfg, s) && Current(s, id)
    requires Apply(cfg, s, Report(id, seen)).circuit.generation != s.circuit.generation
    ensures Inv(cfg, Apply(cfg, s, Report(id, seen)))
  {
    var s' := Apply(cfg, s, Report(id, seen));
    assert s'.circuit.generation == s.circuit.generation + 1;
    assert forall other :: !Current(s', other);
    assert s'.log[|s'.log| - 1].generation == s.circuit.generation;
    if s'.circuit.state == OPEN {
      assert s'.openings[|s.openings|] == s'.circuit.openUntil.value - cfg.openDuration;
    }
  }

  /** A report within the generation. */
  lemma PlainReportHolds(cfg: Policy, s: System, id: nat, seen: Observation)
    requires ValidPolicy(cfg) && Inv(cfg, s) && Current(s, id)
    requires Apply(cfg, s, Report(id, seen)).circuit.generation == s.circuit.generation
    ensures Inv(cfg, Apply(cfg, s, Report(id, seen)))
  {
    var s' := Apply(cfg, s, Report(id, seen));
    LogGrows(s.log, s.circuit.generation, seen);
    assert s'.circuit.state == s.circuit.state && s'.openings == s.openings;
    assert forall other :: Current(s', other) <==> Current(s, other) && other != id;
  }

  lemma ReportHolds(cfg: Policy, s: System, id: nat, seen: Observation)
    requires ValidPolicy(cfg) && Inv(cfg, s) && id in s.outstanding
    ensures Inv(cfg, Apply(cfg, s, Report(id, seen)))
  {
    if !Current(s, id) {
      StaleReportHolds(cfg, s, id, seen);
    } else if Apply(cfg, s, Report(id, seen)).circuit.generation == s.circuit.generation {
      PlainReportHolds(cfg, s, id, seen);
    } else {
      TurningReportHolds(cfg, s, id, seen);
    }
  }

  lemma GiveUpHolds(cfg: Policy, s: System, id: nat)
    requires ValidPolicy(cfg) && Inv(cfg, s) && id in s.outstanding
    ensures Inv(cfg, Apply(cfg, s, GiveUp(id)))
  {
    var s' := Apply(cfg, s, GiveUp(id));
    assert forall other :: Current(s', other) <==> Current(s, other) && other != id;
    if Current(s, id) {
      assert s'.circuit == s.circuit.(probing := if s.outstanding[id].halfOpen then false else s.circuit.probing);
    }
  }

  lemma TickHolds(cfg: Policy, s: System, elapsed: nat)
    requires ValidPolicy(cfg) && Inv(cfg, s)
    ensures Inv(cfg, Apply(cfg, s, Tick(elapsed)))
  {
    var s' := Apply(cfg, s, Tick(elapsed));
    assert forall other :: Current(s', other) <==> Current(s, other);
  }

  lemma {:induction false} RunHolds(cfg: Policy, s: System, run: seq<Step>)
    requires ValidPolicy(cfg) && Inv(cfg, s) && Legal(cfg, s, run)
    ensures Inv(cfg, After(cfg, s, run))
    decreases |run|
  {
    if run != [] {
      match run[0] {
        case Ask => AskHolds(cfg, s);
        case Report(id, seen) => ReportHolds(cfg, s, id, seen);
        case GiveUp(id) => GiveUpHolds(cfg, s, id);
        case Tick(elapsed) => TickHolds(cfg, s, elapsed);
      }
      RunHolds(cfg, Apply(cfg, s, run[0]), run[1..]);
    }
  }

  ghost predicate ReachableSystem(cfg: Policy, s: System) {
    exists start, run :: Init(start) && Legal(cfg, start, run) && After(cfg, start, run) == s
  }

  lemma ReachableHolds(cfg: Policy, s: System)
    requires ValidPolicy(cfg) && ReachableSystem(cfg, s)
    ensures Inv(cfg, s)
  {
    var start, run :| Init(start) && Legal(cfg, start, run) && After(cfg, start, run) == s;
    RunHolds(cfg, start, run);
  }

  /** halfOpenInFlight holds exactly when one unresolved half-open permit of the current generation exists, and
      then it is the only unresolved permit of that generation; while OPEN there is none. */
  lemma SingleProbe(cfg: Policy, s: System)
    requires ValidPolicy(cfg) && ReachableSystem(cfg, s)
    ensures s.circuit.probing <==> exists id :: Current(s, id) && s.outstanding[id].halfOpen
    ensures s.circuit.probing ==> forall id, other :: Current(s, id) && Current(s, other) ==> id == other
    ensures s.circuit.state == OPEN ==> forall id :: !Current(s, id)
  {
    ReachableHolds(cfg, s);
  }

  /** Exactly when a call is admitted, told from the history: the circuit is CLOSED, or no probe is unresolved and
      every opening is at least one open duration old. A call admitted otherwise than while CLOSED is the probe. */
  lemma AdmitsIff(cfg: Policy, s: System)
    requires ValidPolicy(cfg) && ReachableSystem(cfg, s)
    ensures var d := Allowed(s.circuit, s.now).1;
            && (d.Granted? <==>
                  || s.circuit.state == CLOSED
                  || (&& (forall id :: Current(s, id) ==> !s.outstanding[id].halfOpen)
                      && (forall i :: 0 <= i < |s.openings| ==> s.openings[i] + cfg.openDuration <= s.now)))
            && (d.Granted? ==> d.permit == Permit(s.circuit.generation, s.circuit.state != CLOSED))
            && (d.Rejected? && s.circuit.state == HALF_OPEN ==> d.retryAfter == 0)
  {
    ReachableHolds(cfg, s);
    if s.circuit.state == OPEN {
      var i :| 0 <= i < |s.openings| && s.openings[i] == s.circuit.openUntil.value - cfg.openDuration;
      assert s.openings[i] + cfg.openDuration == s.circuit.openUntil.value;
    }
  }

  /** The probe decides: an endpoint that answered closes the circuit with a clean counter, one that did not opens it
      again from now on, and an answer that says nothing leaves room for another probe. */
  lemma ProbeDecides(cfg: Policy, s: System, id: nat, seen: Observation)
    requires ValidPolicy(cfg) && ReachableSystem(cfg, s) && Current(s, id) && s.circuit.state == HALF_OPEN
    ensures var s' := Apply(cfg, s, Report(id, seen));
            match seen
            case Reachable => s'.circuit.state == CLOSED && s'.circuit.failures == 0
            case Unavailable =>
              && s'.circuit.state == OPEN && s'.circuit.openUntil == Some(s.now + cfg.openDuration)
              && s'.openings == s.openings + [s.now]
            case Ignore =>
              s'.circuit.state == HALF_OPEN && Allowed(s'.circuit, s'.now).1 == Granted(Permit(s.circuit.generation, true))
  {
    ReachableHolds(cfg, s);
  }

  /** Granted in an earlier generation, resolved or not. */
  predicate Stale(s: System, id: nat) {
    id < s.issued && (id in s.outstanding ==> s.outstanding[id].generation < s.circuit.generation)
  }

  lemma {:induction false} StaysStale(cfg: Policy, s: System, run: seq<Step>, id: nat)
    requires Stale(s, id) && Legal(cfg, s, run)
    ensures Stale(After(cfg, s, run), id)
    decreases |run|
  {
    if run != [] {
      StaysStale(cfg, Apply(cfg, s, run[0]), run[1..], id);
    }
  }

  /** Once a generation is over its unresolved permits never become current again, and in every continuation
      resolving one, however it is resolved, changes neither the circuit nor what it has counted. */
  lemma StalePermitsAreIgnored(cfg: Policy, s: System, run: seq<Step>, id: nat, seen: Observation)
    requires ValidPolicy(cfg) && ReachableSystem(cfg, s) && id in s.outstanding && !Current(s, id)
    requires Legal(cfg, s, run)
    ensures var e := After(cfg, s, run);
            && !Current(e, id)
            && (id in e.outstanding ==>
                  && Apply(cfg, e, Report(id, seen)).circuit == e.circuit
                  && Apply(cfg, e, Report(id, seen)).log == e.log
                  && Apply(cfg, e, GiveUp(id)).circuit == e.circuit)
  {
    ReachableHolds(cfg, s);
    StaysStale(cfg, s, run, id);
  }

  /** The counter is the trailing run of failures while CLOSED, below the threshold, and stays at the threshold
      otherwise, so it never wraps. */
  lemma CounterRefinesTrace(cfg: Policy, s: System)
    requires ValidPolicy(cfg) && ReachableSystem(cfg, s)
    ensures s.circuit.state == CLOSED ==>
              s.circuit.failures == TrailingFailures(s.log, s.circuit.generation) < cfg.threshold
    ensures s.circuit.state != CLOSED ==> s.circuit.failures == cfg.threshold
  {
    ReachableHolds(cfg, s);
  }

  /** A CLOSED circuit opens on an observation if and only if that observation completes a trailing run of
      `threshold` failures of the current generation. */
  lemma OpensExactlyAtThreshold(cfg: Policy, s: System, id: nat, seen: Observation)
    requires ValidPolicy(cfg) && ReachableSystem(cfg, s) && s.circuit.state == CLOSED && id in s.outstanding
    ensures var s' := Apply(cfg, s, Report(id, seen));
            s'.circuit.state == OPEN <==>
            Current(s, id) && TrailingFailures(s'.log, s.circuit.generation) >= cfg.threshold
  {
    ReachableHolds(cfg, s);
    LogGrows(s.log, s.circuit.generation, seen);
  }

  /** No permit is issued from an opening until its duration has passed, and a rejection while OPEN names
      exactly the time that is left. */
  lemma OpenWindow(cfg: Policy, s: System)
    requires ValidPolicy(cfg) && ReachableSystem(cfg, s)
    ensures var (_, d) := Allowed(s.circuit, s.now);
            && (d.Granted? ==> forall i :: 0 <= i < |s.openings| ==> s.openings[i] + cfg.openDuration <= s.now)
            && (d.Rejected? && s.circuit.state == OPEN ==>
                  s.circuit.openUntil.Some? && s.now + d.retryAfter == s.circuit.openUntil.value > s.now)
  {
    ReachableHolds(cfg, s);
  }

  /** A delivery refused by an OPEN circuit is rescheduled no earlier than the end of the window that refused it:
      whatever else it meets, if it asks for a requeue without backoff, clock plus delay is past openUntil. */
  method DeferPastOpenWindow(cfg: Policy, s: System, worker: Worker, env: Surroundings) returns (result: HandlerResult)
    requires ValidPolicy(cfg) && worker.trace == []
    requires env.claimed.Done? ==> 0 < env.claimed.attemptCount <= MAX_SMALLINT
    requires var (_, d) := Allowed(s.circuit, s.now); s.circuit.state == OPEN && d == Rejected(env.retryAfter)
    requires env.clock >= s.now
    modifies worker
    ensures result.Requeue? && !result.backoff ==>
              s.circuit.openUntil.Some? && env.clock + result.delay >= s.circuit.openUntil.value
  {
    result := worker.HandleDelivery(env);
  }
}
