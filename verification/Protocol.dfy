/**
 The delivery protocol around one row: any number of HandleDelivery calls, publishers and
 compensators, interleaved one atomic statement at a time, with crashes, lost database answers,
 broker redelivery and the passage of time.

 A wake-up enters the broker only through a PublishAndMark call, and such a call starts only right after the
 insert, when the publish scan finds the row, or when a compensator has won its update; or as the replacement of
 one whose handler asked for a requeue. The database clock may move either way between any two steps: `now()` is
 the start of a transaction, and transactions do not commit in the order they start. What needs a better clock
 asks for it (`Forward`, `ReadsFrom`).

 A run is a sequence of labelled steps; `Enabled` says when a step may happen and `Apply` what it
 does. Each HandleDelivery call is identified by its lease token. Besides the row, the broker copies and
 the callers' phases, the state carries history that no step reads: the stack of claims not rolled
 back, the provider calls in order with their results, and the tokens of calls that met a fault.
 */
module Protocol {
  import opened Wrappers
  import opened Domain
  import opened EventStore
  import opened Processor
  import opened Compensator
  import opened Wakeups

  /** One HandleDelivery call: its phase, the broker copy it handles as it was handed out, and when it renewed its
      lease. */
  datatype Caller = Caller(phase: Phase, copy: nat, handed: Copy, renewedAt: Option<Time>)

  /** A row returned by SelectExpiredLeases. */
  datatype Snapshot = Snapshot(row: Event, at: Time)

  datatype State = State(
    row: Event,
    now: Time,
    callers: map<Token, Caller>,
    copies: Copies,
    publishers: nat,                  // PublishAndMark calls that have not sent yet
    marks: nat,                       // publishers holding a durable receipt, before MarkEnqueued
    snapshots: set<Snapshot>,
    stack: seq<Token>,                // history: claims not rolled back, oldest first
    calls: seq<Token>,                // history: provider calls, oldest first
    results: map<Token, SendOutcome>, // history: what each finished call returned
    faulted: set<Token>)              // history: calls that crashed, saw an error or lost their lease

  datatype Step =
    | ScanPending
    | Publish(copy: nat, durable: bool, confirmed: bool)
    | PublishNothing
    | Mark(committed: bool)
    | Deliver(token: Token, copy: nat)
    | Act(token: Token, action: Action, committed: bool)
    | Crash(token: Token)
    | Disconnect(copy: nat)
    | DropVolatile(copy: nat)
    | Republish(token: Token, twin: nat)
    | AckOriginal(token: Token)
    | Scan
    | Recover(seen: Snapshot, clock: Time)
    | Tick(elapsed: int)

  // ---- one step ----

  /** What a statement that reaches the database does; one that does not reach it changes nothing. */
  function Landed(s: State, step: Step): Effect
    requires step.Act? && step.action.Run?
  {
    if step.committed then Execute(s.row, step.token, step.action.st, s.now) else NoRow
  }

  /** The reply is the database's answer, or an error that says nothing about it. */
  predicate Answers(e: Effect, committed: bool, reply: Reply) {
    match reply
    case Done(n) => committed && e.Updated? && n == e.row.attemptCount
    case NotClaimed => committed && e.NoRow?
    case Failed => true
  }

  predicate Enabled(cfg: Config, s: State, step: Step) {
    match step
    case ScanPending => InPublishScan(s.row, s.now)
    case Publish(c, durable, _) => s.publishers > 0 && Allowed(s.copies, Store(c, durable))
    case PublishNothing => s.publishers > 0
    case Mark(_) => s.marks > 0
    case Deliver(t, c) => t !in s.callers && Allowed(s.copies, HandOut(c, t))
    case Act(t, a, committed) =>
      && t in s.callers && Advance(cfg, s.callers[t].phase, a).Some?
      && (a.Run? ==> Answers(Landed(s, step), committed, a.reply))
    case Crash(t) => t in s.callers
    case Disconnect(c) => Allowed(s.copies, TakeBack(c))
    case DropVolatile(c) => Allowed(s.copies, Drop(c))
    case Republish(t, twin) =>
      // the handler asked for a requeue, and the broker is one that requeues by publishing a replacement
      && t in s.callers && s.callers[t].phase == Ended(false) && s.callers[t].handed.durable
      && Allowed(s.copies, Replace(s.callers[t].handed.chain, twin))
    case AckOriginal(t) =>
      t in s.callers && s.callers[t].phase == Ended(false) && Allowed(s.copies, AckReplaced(s.callers[t].copy, t))
    case Scan => InExpiredScan(s.row, s.now)
    case Recover(seen, clock) => seen in s.snapshots
    case Tick(_) => true
  }

  /** A fault: anything after which a claim may be spent without a provider call. */
  predicate IsFault(a: Action) {
    (a.Run? && a.reply.Failed?) || a == Lookup(false) || a == Acquire(false)
  }

  function Pushed(s: State, step: Step): seq<Token>
    requires step.Act? && step.action.Run?
  {
    var st := step.action.st;
    if !Landed(s, step).Updated? then s.stack
    else if st.Claim? then s.stack + [step.token]
    else if (st.MarkCircuitOpen? || st.MarkFailedUncalled?) && s.stack != [] then s.stack[..|s.stack| - 1]
    else s.stack
  }

  function WithRow(row: Event, e: Effect): Event {
    if e.Updated? then e.row else row
  }

  function AfterAct(cfg: Config, s: State, step: Step): State
    requires step.Act? && Enabled(cfg, s, step)
  {
    var t, a := step.token, step.action;
    var w := s.callers[t];
    var p := Advance(cfg, w.phase, a).value;
    var moved := s.callers[t := w.(phase := p)];
    var faulted := if IsFault(a) then s.faulted + {t} else s.faulted;
    match a
    case Run(st, reply) =>
      var renewed := if st.RenewLease? && reply.Done? then Some(s.now) else w.renewedAt;
      s.(row := WithRow(s.row, Landed(s, step)), stack := Pushed(s, step), faulted := faulted,
         callers := s.callers[t := w.(phase := p, renewedAt := renewed)])
    case Send => s.(callers := moved, calls := s.calls + [t])
    case Receive(sent) => s.(callers := moved, results := s.results[t := sent])
    case Return(ack) =>
      // the ACK removes the copy unless the broker has taken it back in the meantime
      if ack && Allowed(s.copies, AckBy(w.copy, t))
      then s.(callers := moved, copies := Moved(s.copies, AckBy(w.copy, t)))
      else s.(callers := moved)
    case _ => s.(callers := moved, faulted := faulted)
  }

  function Apply(cfg: Config, s: State, step: Step): State
    requires Enabled(cfg, s, step)
  {
    match step
    case ScanPending => s.(publishers := s.publishers + 1)
    case PublishNothing => s.(publishers := s.publishers - 1)
    case Publish(c, durable, confirmed) =>
      s.(copies := Moved(s.copies, Store(c, durable)),
         publishers := s.publishers - 1,
         marks := if durable && confirmed then s.marks + 1 else s.marks)
    case Mark(committed) =>
      s.(marks := s.marks - 1,
         row := if committed then WithRow(s.row, ExecuteMarkEnqueued(s.row, s.now)) else s.row)
    case Deliver(t, c) =>
      s.(callers := s.callers[t := Caller(Fresh, c, s.copies[c], None)], copies := Moved(s.copies, HandOut(c, t)))
    case Act(_, _, _) => AfterAct(cfg, s, step)
    case Crash(t) =>
      s.(callers := s.callers[t := s.callers[t].(phase := Crashed)], faulted := s.faulted + {t})
    case Disconnect(c) => s.(copies := Moved(s.copies, TakeBack(c)))
    case DropVolatile(c) => s.(copies := Moved(s.copies, Drop(c)))
    case Republish(t, twin) => s.(copies := Moved(s.copies, Replace(s.callers[t].handed.chain, twin)))
    case AckOriginal(t) => s.(copies := Moved(s.copies, AckReplaced(s.callers[t].copy, t)))
    case Scan => s.(snapshots := s.snapshots + {Snapshot(s.row, s.now)})
    case Recover(seen, clock) =>
      var e := RecoveryEffect(s.row, seen.row, cfg.lease, clock, s.now);
      s.(row := WithRow(s.row, e),
         publishers := if e.Updated? then s.publishers + 1 else s.publishers,
         faulted := if e.Updated? && s.row.leaseToken.Some? then s.faulted + {s.row.leaseToken.value} else s.faulted)
    case Tick(elapsed) => s.(now := s.now + elapsed)
  }

  /** What a step does to the wake-ups the broker holds. */
  ghost function MoveOf(cfg: Config, s: State, step: Step): Option<Move>
    requires Enabled(cfg, s, step)
  {
    match step
    case Publish(c, durable, _) => Some(Store(c, durable))
    case Deliver(t, c) => Some(HandOut(c, t))
    case Act(t, Return(true), _) =>
      if Allowed(s.copies, AckBy(s.callers[t].copy, t)) then Some(AckBy(s.callers[t].copy, t)) else None
    case Disconnect(c) => Some(TakeBack(c))
    case DropVolatile(c) => Some(Drop(c))
    case Republish(t, twin) => Some(Replace(s.callers[t].handed.chain, twin))
    case AckOriginal(t) => Some(AckReplaced(s.callers[t].copy, t))
    case _ => None
  }

  /** Every step makes at most one move on the wake-ups; one is acknowledged for good only by a call that returns nil. */
  lemma StepMovesWakeups(cfg: Config, s: State, step: Step)
    requires Enabled(cfg, s, step)
    ensures match MoveOf(cfg, s, step)
            case None => Apply(cfg, s, step).copies == s.copies
            case Some(m) => Allowed(s.copies, m) && Apply(cfg, s, step).copies == Moved(s.copies, m)
    ensures var m := MoveOf(cfg, s, step);
            m.Some? && m.value.AckBy? ==> step.Act? && Apply(cfg, s, step).callers[step.token].phase == Ended(true)
  {
  }

  // ---- runs ----

  /** The state right after Insert committed, with the direct publish still to come. */
  predicate Init(s: State) {
    && s.row == Inserted(s.row.identity, s.now)
    && s.callers == map[] && s.copies == map[] && s.publishers == 1 && s.marks == 0 && s.snapshots == {}
    && s.stack == [] && s.calls == [] && s.results == map[] && s.faulted == {}
  }

  predicate Legal(cfg: Config, s: State, run: seq<Step>)
    decreases |run|
  {
    run == [] || (Enabled(cfg, s, run[0]) && Legal(cfg, Apply(cfg, s, run[0]), run[1..]))
  }

  function After(cfg: Config, s: State, run: seq<Step>): State
    requires Legal(cfg, s, run)
    decreases |run|
  {
    if run == [] then s else After(cfg, Apply(cfg, s, run[0]), run[1..])
  }

  /** The clock does not move back. */
  predicate ForwardStep(step: Step) {
    step.Tick? ==> step.elapsed >= 0
  }

  predicate Forward(run: seq<Step>) {
    forall i :: 0 <= i < |run| ==> ForwardStep(run[i])
  }

  /** While the row is PENDING the clock reads `low` or later, in every state of the run. */
  predicate ReadsFrom(cfg: Config, s: State, run: seq<Step>, low: Time)
    requires Legal(cfg, s, run)
    decreases |run|
  {
    && (s.row.status == PENDING ==> low <= s.now)
    && (run != [] ==> ReadsFrom(cfg, Apply(cfg, s, run[0]), run[1..], low))
  }

  lemma {:induction false} RunsCompose(cfg: Config, s: State, a: seq<Step>, b: seq<Step>)
    requires Legal(cfg, s, a) && Legal(cfg, After(cfg, s, a), b)
    ensures Legal(cfg, s, a + b) && After(cfg, s, a + b) == After(cfg, After(cfg, s, a), b)
    decreases |a|
  {
    if a == [] {
      assert a + b == b;
    } else {
      assert (a + b)[0] == a[0] && (a + b)[1..] == a[1..] + b;
      RunsCompose(cfg, Apply(cfg, s, a[0]), a[1..], b);
    }
  }

  lemma OneStep(cfg: Config, s: State, step: Step)
    requires Enabled(cfg, s, step)
    ensures Legal(cfg, s, [step]) && After(cfg, s, [step]) == Apply(cfg, s, step)
  {
    var rest := [step][1..];
    assert rest == [];
    assert Legal(cfg, Apply(cfg, s, step), rest);
  }

  /** Appends one enabled step to a run. */
  lemma Extend(cfg: Config, s: State, run: seq<Step>, e: State, step: Step) returns (e': State, run': seq<Step>)
    requires Legal(cfg, s, run) && After(cfg, s, run) == e && Enabled(cfg, e, step)
    ensures run' == run + [step] && e' == Apply(cfg, e, step)
    ensures Legal(cfg, s, run') && After(cfg, s, run') == e'
  {
    OneStep(cfg, e, step);
    RunsCompose(cfg, s, run, [step]);
    run' := run + [step];
    e' := Apply(cfg, e, step);
  }

  lemma {:induction false} ReadsFromComposes(cfg: Config, s: State, a: seq<Step>, b: seq<Step>, low: Time)
    requires Legal(cfg, s, a) && Legal(cfg, After(cfg, s, a), b)
    requires ReadsFrom(cfg, s, a, low) && ReadsFrom(cfg, After(cfg, s, a), b, low)
    ensures Legal(cfg, s, a + b) && ReadsFrom(cfg, s, a + b, low)
    decreases |a|
  {
    RunsCompose(cfg, s, a, b);
    if a == [] {
      assert a + b == b;
    } else {
      assert (a + b)[0] == a[0] && (a + b)[1..] == a[1..] + b;
      ReadsFromComposes(cfg, Apply(cfg, s, a[0]), a[1..], b, low);
    }
  }

  lemma {:induction false} ReadsFromEarlier(cfg: Config, s: State, run: seq<Step>, low: Time, lower: Time)
    requires Legal(cfg, s, run) && ReadsFrom(cfg, s, run, low) && lower <= low
    ensures ReadsFrom(cfg, s, run, lower)
    decreases |run|
  {
    if run != [] {
      ReadsFromEarlier(cfg, Apply(cfg, s, run[0]), run[1..], low, lower);
    }
  }
}
