/**
 internal/mq/rabbitmq.go: delayed requeue by publishing a replacement, waiting for its confirm, and only then
 acknowledging the original.

 `Advance` is the automaton of one delivery and `Consumer` its code, every execution of which is a complete path of
 the automaton. The system is the queue and any number of such deliveries, interleaved with lost connections,
 failed acknowledgements and unconfirmed publishes; its deliveries move by the same automaton. The queue itself is
 assumed to keep what it stored and to return unacknowledged messages when a connection is lost.
 */
module RabbitMq {
  import opened Wrappers
  import opened Mq
  import Wakeups

  const MAX_UINT32 := TWO_TO_THE_32 - 1

  type Byte = x: int | 0 <= x < 0x100
  type Word = x: int | 0 <= x < 0x1_0000
  type Bits7 = x: int | -0x80 <= x < 0x80
  type Bits15 = x: int | -0x8000 <= x < 0x8000
  type Bits31 = x: int | -0x8000_0000 <= x < 0x8000_0000
  type Bits63 = x: int | -TWO_TO_THE_63 <= x < TWO_TO_THE_63

  /** The dynamic type and value an AMQP table can hold under the attempts key. */
  datatype HeaderValue =
    | Int8(a: Bits7) | Int16(b: Bits15) | Int32(c: Bits31) | Int64(i: Bits63)
    | Uint8(u: Byte) | Uint16(v: Word) | Uint32(w: uint32)
    | OtherType

  /** rabbitDeliveryAttempts; None is a missing table or a missing key. */
  function DeliveryAttempts(header: Option<HeaderValue>): (attempts: int)
    ensures 0 <= attempts <= MAX_UINT32
  {
    match header
    case Some(Int8(v)) => if v > 0 then v else 1
    case Some(Int16(v)) => if v > 0 then v else 1
    case Some(Int32(v)) => if v > 0 then v else 1
    case Some(Int64(v)) => if 0 < v <= MAX_UINT32 then v else 1
    case Some(Uint8(v)) => v
    case Some(Uint16(v)) => v
    case Some(Uint32(v)) => if v > 0 then v as int else 1
    case _ => 1
  }

  /** What the consumer writes it reads back; and a delivery is told 0 attempts exactly for an unsigned 8- or
      16-bit zero, which the delay policy then counts as 1. */
  lemma AttemptsHeaderRoundTrip(attempts: int, header: Option<HeaderValue>)
    requires 1 <= attempts <= MAX_UINT32
    ensures DeliveryAttempts(Some(Int64(attempts))) == attempts
    ensures DeliveryAttempts(header) == 0 <==> header == Some(Uint8(0)) || header == Some(Uint16(0))
  {
  }

  /** The number an integer header holds, whatever its type. */
  function Number(header: HeaderValue): Option<int> {
    match header
    case Int8(v) => Some(v)
    case Int16(v) => Some(v)
    case Int32(v) => Some(v)
    case Int64(v) => Some(v)
    case Uint8(v) => Some(v)
    case Uint16(v) => Some(v)
    case Uint32(v) => Some(v as int)
    case OtherType => None
  }

  /** A count from 1 to the largest uint32 is read as it is whatever integer type carries it; without one the attempts
      are 1, or 0 for an unsigned 8- or 16-bit zero. */
  lemma AnyIntegerHeaderCounts(header: Option<HeaderValue>)
    ensures var n := if header.Some? then Number(header.value) else None;
            if n.Some? && 1 <= n.value <= MAX_UINT32 then DeliveryAttempts(header) == n.value
            else DeliveryAttempts(header) ==
                 if header == Some(Uint8(0)) || header == Some(Uint16(0)) then 0 else 1
  {
    match header {
      case Some(Int64(_)) =>
      case Some(Uint32(_)) =>
      case _ =>
    }
  }

  // ---- one delivery ----

  /** A stored message. `origin` is the number of the first message of its chain of replacements, `depth` how
      many replacements lie between. */
  datatype Message = Message(origin: nat, depth: nat, header: Option<HeaderValue>, wellFormed: bool)

  /** The message published in place of m. */
  function Replacement(m: Message): Message {
    m.(depth := m.depth + 1, header := Some(Int64(NextAttempts(DeliveryAttempts(m.header)))))
  }

  /** Where one delivery stands; `m` is the number of the message delivered. */
  datatype Phase =
    | Arrived(m: nat)         // not decoded yet, or in the handler
    | Acknowledging(m: nat)   // nil, or a malformed body
    | OnTimer(m: nat)
    | Replaced(m: nat)        // the replacement is confirmed, the original not yet acknowledged
    | HandingBack(m: nat)
    | Gone

  /** What publishing the replacement came to. */
  datatype Confirmation = Confirmed | Unconfirmed | NotSent

  /** What a delivery does. A call on the original may fail to reach the broker. */
  datatype Action =
    | Reject                  // the body does not decode; the handler is not called
    | HandlerReturns(ok: bool)
    | Retry(confirmation: Confirmation)
    | AckOriginal(arrives: bool)
    | NackOriginal(arrives: bool)
    | Abandon

  /** The original is acknowledged only after a malformed body, a nil result or a confirmed replacement. */
  function Advance(p: Phase, wellFormed: bool, a: Action): Option<Phase> {
    match a
    case Reject => if p.Arrived? && !wellFormed then Some(Acknowledging(p.m)) else None
    case HandlerReturns(ok) =>
      if p.Arrived? && wellFormed then Some(if ok then Acknowledging(p.m) else OnTimer(p.m)) else None
    case Retry(confirmation) =>
      if p.OnTimer? then Some(if confirmation == Confirmed then Replaced(p.m) else HandingBack(p.m)) else None
    case AckOriginal(_) => if p.Acknowledging? || p.Replaced? then Some(Gone) else None
    case NackOriginal(_) => if p.HandingBack? then Some(Gone) else None
    case Abandon => Some(Gone)
  }

  /** The phase a sequence of actions leads to. */
  function Follow(p: Phase, wellFormed: bool, trace: seq<Action>): Option<Phase> {
    if trace == [] then Some(p)
    else
      var before := Follow(p, wellFormed, trace[..|trace| - 1]);
      if before.Some? then Advance(before.value, wellFormed, trace[|trace| - 1]) else None
  }

  lemma FollowOne(p: Phase, wellFormed: bool, trace: seq<Action>, q: Phase, a: Action)
    requires Follow(p, wellFormed, trace) == Some(q)
    ensures Follow(p, wellFormed, trace + [a]) == Advance(q, wellFormed, a)
  {
    assert (trace + [a])[..|trace|] == trace;
  }

  // ---- the code of one delivery ----

  datatype BrokerCall =
    | Ack
    | NackRequeue
    | PublishReplacement(header: Option<HeaderValue>)

  /** The answers one delivery meets. */
  datatype Surroundings = Surroundings(handlerOk: bool, contextDone: bool, confirmation: Confirmation, arrives: bool)

  /** The broker calls an action stands for. */
  function CallsFor(message: Message, a: Action): seq<BrokerCall> {
    match a
    case Retry(confirmation) =>
      if confirmation == NotSent then [] else [PublishReplacement(Replacement(message).header)]
    case AckOriginal(_) => [Ack]
    case NackOriginal(_) => [NackRequeue]
    case _ => []
  }

  function CallsOf(message: Message, trace: seq<Action>): seq<BrokerCall> {
    if trace == [] then []
    else CallsOf(message, trace[..|trace| - 1]) + CallsFor(message, trace[|trace| - 1])
  }

  /** What the calls made by phase p rest on. */
  ghost predicate JustifiedBy(wellFormed: bool, trace: seq<Action>, calls: seq<BrokerCall>, p: Phase) {
    && (Ack in calls || p.Acknowledging? || p.Replaced? ==>
          !wellFormed || HandlerReturns(true) in trace || Retry(Confirmed) in trace)
    && (NackRequeue in calls || p.HandingBack? ==> Retry(Unconfirmed) in trace || Retry(NotSent) in trace)
    && !(Ack in calls && NackRequeue in calls)
    && (!p.Gone? ==> Ack !in calls && NackRequeue !in calls)
  }

  lemma NextCallIsJustified(message: Message, trace: seq<Action>, p: Phase, a: Action)
    requires JustifiedBy(message.wellFormed, trace, CallsOf(message, trace), p)
    requires Advance(p, message.wellFormed, a).Some?
    ensures JustifiedBy(message.wellFormed, trace + [a], CallsOf(message, trace) + CallsFor(message, a),
                        Advance(p, message.wellFormed, a).value)
  {
    var calls, more := CallsOf(message, trace), CallsFor(message, a);
    assert forall c :: c in calls + more <==> c in calls || c in more;
    assert forall b :: b in trace + [a] <==> b in trace || b == a;
  }

  /** Told from the broker calls alone, on every path, complete or cut short: the original is acknowledged only after
      a malformed body, a nil result or a confirmed replacement, and handed back only after a replacement that was
      not confirmed; never both. */
  lemma {:induction false} CallsAreJustified(message: Message, m: nat, trace: seq<Action>, p: Phase)
    requires Follow(Arrived(m), message.wellFormed, trace) == Some(p)
    ensures JustifiedBy(message.wellFormed, trace, CallsOf(message, trace), p)
    ensures var calls := CallsOf(message, trace);
            && (Ack in calls ==> !message.wellFormed || HandlerReturns(true) in trace || Retry(Confirmed) in trace)
            && (NackRequeue in calls ==> Retry(Unconfirmed) in trace || Retry(NotSent) in trace)
            && !(Ack in calls && NackRequeue in calls)
  {
    if trace != [] {
      var front, a := trace[..|trace| - 1], trace[|trace| - 1];
      var q := Follow(Arrived(m), message.wellFormed, front).value;
      CallsAreJustified(message, m, front, q);
      NextCallIsJustified(message, front, q, a);
      assert trace == front + [a];
    }
  }

  /** The goroutines of one delivery of message number m. */
  class Consumer {
    const m: nat
    const message: Message
    const retryChannelOpen: bool
    /** The calls made on the broker, in order. */
    var calls: seq<BrokerCall>
    /** Everything the delivery has done so far, in order. */
    ghost var trace: seq<Action>

    constructor (m: nat, message: Message, retryChannelOpen: bool)
      ensures this.m == m && this.message == message && this.retryChannelOpen == retryChannelOpen
      ensures calls == [] && trace == []
    {
      this.m, this.message, this.retryChannelOpen := m, message, retryChannelOpen;
      calls, trace := [], [];
    }

    /** The actions so far lead to p, and the broker has seen exactly the calls they stand for. */
    ghost predicate At(p: Phase)
      reads this
    {
      Follow(Arrived(m), message.wellFormed, trace) == Some(p) && calls == CallsOf(message, trace)
    }

    /** What publishRetry comes to: without a channel nothing is sent. */
    function Outcome(env: Surroundings): Confirmation {
      if retryChannelOpen then env.confirmation else NotSent
    }

    method Do(ghost a: Action, made: seq<BrokerCall>, ghost p: Phase) returns (ghost q: Phase)
      requires At(p) && Advance(p, message.wellFormed, a).Some? && made == CallsFor(message, a)
      modifies this
      ensures Some(q) == Advance(p, message.wellFormed, a) && At(q) && trace == old(trace) + [a]
      ensures calls == old(calls) + made
    {
      FollowOne(Arrived(m), message.wellFormed, trace, p, a);
      q := Advance(p, message.wellFormed, a).value;
      assert (trace + [a])[..|trace|] == trace;
      calls := calls + made;
      trace := trace + [a];
    }

    /** What the requeue goroutine does. */
    function RequeueCourse(env: Surroundings): seq<Action> {
      if env.contextDone then [Abandon]
      else [Retry(Outcome(env)),
            if Outcome(env) == Confirmed then AckOriginal(env.arrives) else NackOriginal(env.arrives)]
    }

    /** What the requeue goroutine asks of the broker: nothing once the context ended; otherwise the replacement, if
        there is a channel and it can be sent, with the attempts raised by one and saturating at the largest uint32,
        and then the acknowledgement of the original after a confirm and its return to the queue without one. */
    function RequeueCalls(env: Surroundings): seq<BrokerCall> {
      var attempts := DeliveryAttempts(message.header);
      var replacement := PublishReplacement(Some(Int64(if attempts < MAX_UINT32 then attempts + 1 else attempts)));
      if env.contextDone then []
      else if !retryChannelOpen || env.confirmation == NotSent then [NackRequeue]
      else if env.confirmation == Confirmed then [replacement, Ack]
      else [replacement, NackRequeue]
    }

    /** One delivery from its arrival to its end, the requeue goroutine included: always a complete path of the
        automaton, and which one is decided by the body, the handler, the context and the confirm alone. */
    method HandleDelivery(env: Surroundings)
      requires trace == [] && calls == []
      modifies this
      ensures At(Gone)
      ensures trace == if !message.wellFormed then [Reject] + [AckOriginal(env.arrives)]
                       else [HandlerReturns(env.handlerOk)] +
                            (if env.handlerOk then [AckOriginal(env.arrives)] else RequeueCourse(env))
      ensures var attempts := DeliveryAttempts(message.header);
              var replacement := PublishReplacement(Some(Int64(Min(attempts + 1, MAX_UINT32))));
              calls == if !message.wellFormed || env.handlerOk then [Ack]
                       else if env.contextDone then []
                       else if !retryChannelOpen || env.confirmation == NotSent then [NackRequeue]
                       else if env.confirmation == Confirmed then [replacement, Ack]
                       else [replacement, NackRequeue]
    {
      ghost var p := Arrived(m);
      if !message.wellFormed {
        p := Do(Reject, [], p);
        assert trace == [Reject];
        p := Do(AckOriginal(env.arrives), [Ack], p);
        return;
      }
      p := Do(HandlerReturns(env.handlerOk), [], p);
      assert trace == [HandlerReturns(env.handlerOk)];
      if !env.handlerOk {
        RequeueAfter(env);
        return;
      }
      p := Do(AckOriginal(env.arrives), [Ack], p);
    }

    /** Touches the original only after the outcome of the replacement is known: acknowledged after a confirm,
        handed back otherwise, left alone when the context ended first. */
    method RequeueAfter(env: Surroundings)
      requires At(OnTimer(m))
      modifies this
      ensures At(Gone)
      ensures trace == old(trace) + RequeueCourse(env)
      ensures calls == old(calls) + RequeueCalls(env)
    {
      ghost var p := OnTimer(m);
      if env.contextDone {
        p := Do(Abandon, [], p);
        return;
      }
      var attempts := DeliveryAttempts(message.header);
      var nextAttempts := (attempts + 1) % TWO_TO_THE_32;
      if nextAttempts == 0 {
        nextAttempts := attempts;
      }
      var ok := PublishRetry(nextAttempts, env);
      if !ok {
        p := Do(NackOriginal(env.arrives), [NackRequeue], HandingBack(m));
        return;
      }
      p := Do(AckOriginal(env.arrives), [Ack], Replaced(m));
    }

    /** One Retry action: what is sent is the replacement of the message delivered, and success means confirmed. */
    method PublishRetry(attempts: Bits63, env: Surroundings) returns (ok: bool)
      requires At(OnTimer(m)) && attempts == NextAttempts(DeliveryAttempts(message.header))
      modifies this
      ensures trace == old(trace) + [Retry(Outcome(env))]
      ensures At(if ok then Replaced(m) else HandingBack(m))
      ensures ok <==> retryChannelOpen && env.confirmation == Confirmed
      ensures calls == old(calls) + (if retryChannelOpen && env.confirmation != NotSent
                                     then [PublishReplacement(Some(Int64(attempts)))] else [])
    {
      ghost var p := OnTimer(m);
      if !retryChannelOpen {
        p := Do(Retry(NotSent), [], p);
        return false;
      }
      if env.confirmation == NotSent {
        p := Do(Retry(NotSent), [], p);
        return false;
      }
      p := Do(Retry(env.confirmation), [PublishReplacement(Some(Int64(attempts)))], p);
      return env.confirmation == Confirmed;
    }
  }

  // ---- the queue and all deliveries ----

  datatype System = System(
    messages: seq<Message>,         // every message ever stored, by number
    queue: set<nat>,                // those the broker still holds, ready or unacknowledged
    holder: map<nat, nat>,          // the delivery an unacknowledged message belongs to
    deliveries: map<nat, Phase>,
    finished: set<nat>)             // history: origins whose handler returned nil

  datatype Step =
    | Publish(wellFormed: bool)
    | Deliver(d: nat, m: nat)
    | Act(d: nat, action: Action)
    | LoseConnection(lost: set<nat>)

  /** Whether the body of the message delivered decodes. */
  predicate WellFormed(s: System, p: Phase) {
    !p.Gone? && p.m < |s.messages| && s.messages[p.m].wellFormed
  }

  predicate Enabled(s: System, step: Step) {
    match step
    case Publish(_) => true
    case Deliver(d, m) => d !in s.deliveries && m in s.queue && m !in s.holder && m < |s.messages|
    case Act(d, a) =>
      && d in s.deliveries
      && var p := s.deliveries[d];
         (p.Gone? || p.m < |s.messages|) && Advance(p, WellFormed(s, p), a).Some?
    case LoseConnection(_) => true
  }

  function Stored(s: System, m: Message): System {
    s.(messages := s.messages + [m], queue := s.queue + {|s.messages|})
  }

  function Moved(s: System, d: nat, p: Phase): System {
    s.(deliveries := s.deliveries[d := p])
  }

  /** A call on the original reaches the broker while the message is still out on this delivery. */
  predicate Reaches(s: System, d: nat, p: Phase, arrives: bool) {
    arrives && !p.Gone? && p.m in s.holder && s.holder[p.m] == d
  }

  function AfterAct(s: System, d: nat, a: Action): System
    requires Enabled(s, Act(d, a))
  {
    var p := s.deliveries[d];
    var after := Moved(s, d, Advance(p, WellFormed(s, p), a).value);
    match a
    case Reject => after
    case HandlerReturns(ok) => if ok then after.(finished := s.finished + {s.messages[p.m].origin}) else after
    case Retry(confirmation) =>
      // an unconfirmed publish may or may not have been stored; the case in which it was not is NotSent
      if confirmation == NotSent then after else Stored(after, Replacement(s.messages[p.m]))
    case AckOriginal(arrives) =>
      if Reaches(s, d, p, arrives) then after.(queue := s.queue - {p.m}, holder := s.holder - {p.m}) else after
    case NackOriginal(arrives) =>
      if Reaches(s, d, p, arrives) then after.(holder := s.holder - {p.m}) else after
    case Abandon => after
  }

  function Apply(s: System, step: Step): System
    requires Enabled(s, step)
  {
    match step
    case Publish(wellFormed) => Stored(s, Message(|s.messages|, 0, Some(Int64(1)), wellFormed))
    case Deliver(d, m) => Moved(s, d, Arrived(m)).(holder := s.holder[m := d])
    case Act(d, a) => AfterAct(s, d, a)
    case LoseConnection(lost) => s.(holder := s.holder - lost)
  }

  predicate Init(s: System) {
    s == System([], {}, map[], map[], {})
  }

  predicate Legal(s: System, run: seq<Step>)
    decreases |run|
  {
    run == [] || (Enabled(s, run[0]) && Legal(Apply(s, run[0]), run[1..]))
  }

  function After(s: System, run: seq<Step>): System
    requires Legal(s, run)
    decreases |run|
  {
    if run == [] then s else After(Apply(s, run[0]), run[1..])
  }

  /** No later replacement of the same chain was ever stored. */
  ghost predicate Newest(s: System, m: nat)
    requires m < |s.messages|
  {
    forall k :: m < k < |s.messages| ==> s.messages[k].origin != s.messages[m].origin
  }

  predicate CountsReplacements(x: Message) {
    x.header.Some? && x.header.value.Int64? && x.header.value.i == Min(1 + x.depth, MAX_UINT32)
  }

  ghost predicate MessageOk(s: System, m: nat)
    requires m < |s.messages|
  {
    var x := s.messages[m];
    && x.origin <= m
    && s.messages[x.origin].origin == x.origin && s.messages[x.origin].wellFormed == x.wellFormed
    && CountsReplacements(x)
    && (Newest(s, m) && x.wellFormed && x.origin !in s.finished ==> m in s.queue)
  }

  ghost predicate DeliveryOk(s: System, d: nat)
    requires d in s.deliveries
  {
    var p := s.deliveries[d];
    p != Gone ==>
      && p.m < |s.messages|
      && (p.Acknowledging? ==> !s.messages[p.m].wellFormed || s.messages[p.m].origin in s.finished)
      && (p.Replaced? ==> !Newest(s, p.m))
  }

  ghost predicate Inv(s: System) {
    && (forall m :: m in s.queue ==> m < |s.messages|)
    && (forall m :: m in s.holder ==> m < |s.messages|)
    && (forall m :: 0 <= m < |s.messages| ==> MessageOk(s, m))
    && (forall d :: d in s.deliveries ==> DeliveryOk(s, d))
  }

  lemma StoringKeepsOrder(s: System, s': System, x: Message)
    requires s'.messages == s.messages + [x]
    ensures forall m :: 0 <= m < |s.messages| && Newest(s', m) ==> Newest(s, m) && s.messages[m].origin != x.origin
  {
    forall m | 0 <= m < |s.messages| && Newest(s', m) ensures Newest(s, m) && s.messages[m].origin != x.origin {
      assert s'.messages[|s.messages|].origin != s'.messages[m].origin;
      forall k | m < k < |s.messages| ensures s.messages[k].origin != s.messages[m].origin {
        assert s'.messages[k] == s.messages[k];
      }
    }
  }

  lemma StoreHolds(s: System, s': System, x: Message)
    requires Inv(s) && s' == Stored(s, x)
    requires x.origin <= |s.messages|
    requires x.origin < |s.messages| ==>
               s.messages[x.origin].origin == x.origin && s.messages[x.origin].wellFormed == x.wellFormed
    requires CountsReplacements(x)
    ensures Inv(s')
  {
    StoringKeepsOrder(s, s', x);
    forall m | 0 <= m < |s'.messages| ensures MessageOk(s', m) {
      if m < |s.messages| {
        assert MessageOk(s, m);
      }
    }
    forall d | d in s'.deliveries ensures DeliveryOk(s', d) {
      assert DeliveryOk(s, d);
      var p := s.deliveries[d];
      if p.Replaced? {
        var k :| p.m < k < |s.messages| && s.messages[k].origin == s.messages[p.m].origin;
        assert s'.messages[k] == s.messages[k];
      }
    }
  }

  /** Moves, acknowledgements and hand-backs: the stored messages stay as they are. */
  lemma MoveHolds(s: System, step: Step)
    requires Inv(s) && Enabled(s, step) && !step.Publish? && !(step.Act? && step.action.Retry?)
    ensures Inv(Apply(s, step))
  {
    var s' := Apply(s, step);
    assert s'.messages == s.messages;
    assert forall m :: 0 <= m < |s.messages| ==> (Newest(s', m) <==> Newest(s, m));
    forall m | 0 <= m < |s'.messages| ensures MessageOk(s', m) {
      assert MessageOk(s, m);
      if step.Act? {
        assert DeliveryOk(s, step.d);
      }
    }
    forall d | d in s'.deliveries ensures DeliveryOk(s', d) {
      if d in s.deliveries {
        assert DeliveryOk(s, d);
      }
    }
  }

  /** A delivery whose replacement failed will hand its message back. */
  lemma HandingBackHolds(s: System, d: nat)
    requires Inv(s) && Enabled(s, Act(d, Retry(NotSent)))
    ensures Inv(Moved(s, d, HandingBack(s.deliveries[d].m)))
  {
    var mid := Moved(s, d, HandingBack(s.deliveries[d].m));
    forall k | 0 <= k < |mid.messages| ensures MessageOk(mid, k) {
      assert MessageOk(s, k);
      assert Newest(mid, k) <==> Newest(s, k);
    }
    forall e | e in mid.deliveries ensures DeliveryOk(mid, e) {
      assert e in s.deliveries && DeliveryOk(s, e);
      assert mid.deliveries[e].Replaced? ==> !Newest(s, mid.deliveries[e].m);
    }
  }

  /** Once its replacement is stored, a delivery may count as replaced. */
  lemma ReplacedHolds(s: System, d: nat, m: nat, k: nat)
    requires Inv(s) && d in s.deliveries && m < k < |s.messages| && s.messages[k].origin == s.messages[m].origin
    ensures Inv(Moved(s, d, Replaced(m)))
  {
    var s' := Moved(s, d, Replaced(m));
    forall j | 0 <= j < |s'.messages| ensures MessageOk(s', j) {
      assert MessageOk(s, j);
      assert Newest(s', j) <==> Newest(s, j);
    }
    forall e | e in s'.deliveries ensures DeliveryOk(s', e) {
      if e == d {
        assert s'.messages[k].origin == s'.messages[m].origin;
      } else {
        assert DeliveryOk(s, e);
        assert s'.deliveries[e].Replaced? ==> !Newest(s, s'.deliveries[e].m);
      }
    }
  }

  lemma RetryHolds(s: System, d: nat, confirmation: Confirmation)
    requires Inv(s) && Enabled(s, Act(d, Retry(confirmation)))
    ensures Inv(Apply(s, Act(d, Retry(confirmation))))
  {
    var m := s.deliveries[d].m;
    HandingBackHolds(s, d);
    if confirmation != NotSent {
      var mid := Moved(s, d, HandingBack(m));
      var x := Replacement(s.messages[m]);
      assert MessageOk(s, m) && MessageOk(s, s.messages[m].origin);
      StoreHolds(mid, Stored(mid, x), x);
      if confirmation == Confirmed {
        ReplacedHolds(Stored(mid, x), d, m, |s.messages|);
        assert Apply(s, Act(d, Retry(confirmation))) == Moved(Stored(mid, x), d, Replaced(m));
      }
    }
  }

  lemma {:induction false} RunHolds(s: System, run: seq<Step>)
    requires Inv(s) && Legal(s, run)
    ensures Inv(After(s, run))
    decreases |run|
  {
    if run != [] {
      var step := run[0];
      match step {
        case Publish(wellFormed) =>
          StoreHolds(s, Apply(s, step), Message(|s.messages|, 0, Some(Int64(1)), wellFormed));
        case Act(d, Retry(confirmation)) => RetryHolds(s, d, confirmation);
        case _ => MoveHolds(s, step);
      }
      RunHolds(Apply(s, step), run[1..]);
    }
  }

  /** The newest message of a chain exists. */
  lemma NewestExists(s: System, origin: nat, m: nat)
    requires m < |s.messages| && s.messages[m].origin == origin
    ensures exists k :: 0 <= k < |s.messages| && s.messages[k].origin == origin && Newest(s, k)
    decreases |s.messages| - m
  {
    if !Newest(s, m) {
      var k :| m < k < |s.messages| && s.messages[k].origin == s.messages[m].origin;
      NewestExists(s, origin, k);
    }
  }

  /** From its publish until a handler returned nil for it, a well-formed wake-up has at least one copy in the
      broker at every step, across failed retries, hand-backs, lost acknowledgements and lost connections. */
  lemma WakeUpIsNeverLost(s: System, run: seq<Step>, origin: nat)
    requires Init(s) && Legal(s, run)
    requires var e := After(s, run);
             && origin < |e.messages| && e.messages[origin].origin == origin
             && e.messages[origin].wellFormed && origin !in e.finished
    ensures var e := After(s, run);
            exists m :: m in e.queue && m < |e.messages| && e.messages[m].origin == origin
  {
    RunHolds(s, run);
    var e := After(s, run);
    NewestExists(e, origin, origin);
    var m :| 0 <= m < |e.messages| && e.messages[m].origin == origin && Newest(e, m);
    assert MessageOk(e, m);
  }

  /** The attempts a handler is told are one plus the number of replacements, saturating at the largest uint32. */
  lemma AttemptsCountReplacements(s: System, run: seq<Step>, m: nat)
    requires Init(s) && Legal(s, run) && m < |After(s, run).messages|
    ensures var x := After(s, run).messages[m]; DeliveryAttempts(x.header) == Min(1 + x.depth, MAX_UINT32)
  {
    RunHolds(s, run);
    assert MessageOk(After(s, run), m);
  }

  // ---- the code and the system ----

  /** The actions of delivery d in a run. */
  function Own(run: seq<Step>, d: nat): seq<Action> {
    if run == [] then []
    else (if run[0].Act? && run[0].d == d then [run[0].action] else []) + Own(run[1..], d)
  }

  /** Stored messages stay as they are, and nobody but d moves d. */
  lemma OnlyOwnActionsMove(s: System, step: Step, d: nat)
    requires Enabled(s, step) && d in s.deliveries
    ensures var s' := Apply(s, step);
            && s.messages <= s'.messages && d in s'.deliveries
            && s'.deliveries[d] == (if step.Act? && step.d == d
                                    then Advance(s.deliveries[d], WellFormed(s, s.deliveries[d]), step.action).value
                                    else s.deliveries[d])
            && (s'.deliveries[d].Gone? || (!s.deliveries[d].Gone? && s'.deliveries[d].m == s.deliveries[d].m))
  {
  }

  lemma AdvanceWhenGone(p: Phase, x: bool, y: bool, a: Action)
    requires p.Gone? || x == y
    ensures Advance(p, x, a) == Advance(p, y, a)
  {
  }

  /** One step of the run extends d's path exactly when it is d's. */
  lemma PathGrows(s: System, step: Step, d: nat, m: nat, before: seq<Action>)
    requires Enabled(s, step) && d in s.deliveries && m < |s.messages|
    requires s.deliveries[d].Gone? || s.deliveries[d].m == m
    requires Follow(Arrived(m), s.messages[m].wellFormed, before) == Some(s.deliveries[d])
    ensures var s', trace := Apply(s, step), if step.Act? && step.d == d then before + [step.action] else before;
            && d in s'.deliveries && s.messages <= s'.messages && (s'.deliveries[d].Gone? || s'.deliveries[d].m == m)
            && Follow(Arrived(m), s.messages[m].wellFormed, trace) == Some(s'.deliveries[d])
  {
    OnlyOwnActionsMove(s, step, d);
    if step.Act? && step.d == d {
      AdvanceWhenGone(s.deliveries[d], WellFormed(s, s.deliveries[d]), s.messages[m].wellFormed, step.action);
      FollowOne(Arrived(m), s.messages[m].wellFormed, before, s.deliveries[d], step.action);
    }
  }

  lemma {:induction false} ActionsFormAPathFrom(s: System, run: seq<Step>, d: nat, m: nat, before: seq<Action>)
    requires Legal(s, run) && d in s.deliveries && m < |s.messages|
    requires s.deliveries[d].Gone? || s.deliveries[d].m == m
    requires Follow(Arrived(m), s.messages[m].wellFormed, before) == Some(s.deliveries[d])
    ensures var e := After(s, run);
            && d in e.deliveries
            && Follow(Arrived(m), s.messages[m].wellFormed, before + Own(run, d)) == Some(e.deliveries[d])
    decreases |run|
  {
    if run == [] {
      assert before + Own(run, d) == before;
    } else {
      var own := if run[0].Act? && run[0].d == d then [run[0].action] else [];
      PathGrows(s, run[0], d, m, before);
      assert before + [] == before;
      ActionsFormAPathFrom(Apply(s, run[0]), run[1..], d, m, before + own);
      assert before + own + Own(run[1..], d) == before + Own(run, d);
    }
  }

  lemma {:induction false} HistoryStays(s: System, run: seq<Step>)
    requires Legal(s, run)
    ensures s.finished <= After(s, run).finished && s.messages <= After(s, run).messages
    decreases |run|
  {
    if run != [] {
      HistoryStays(Apply(s, run[0]), run[1..]);
    }
  }

  /** In every run, whatever else goes on, what one delivery does is a path of the automaton the code follows,
      and leads to the phase the system has it in. */
  lemma {:induction false} ActionsFormAPath(s: System, run: seq<Step>, d: nat) returns (m: nat)
    requires Legal(s, run) && d !in s.deliveries && d in After(s, run).deliveries
    ensures var e := After(s, run);
            && m < |e.messages|
            && Follow(Arrived(m), e.messages[m].wellFormed, Own(run, d)) == Some(e.deliveries[d])
    decreases |run|
  {
    var s' := Apply(s, run[0]);
    assert Own(run, d) == Own(run[1..], d);
    if d in s'.deliveries {
      m := run[0].m;
      assert [] + Own(run[1..], d) == Own(run, d);
      ActionsFormAPathFrom(s', run[1..], d, m, []);
      HistoryStays(s', run[1..]);
    } else {
      m := ActionsFormAPath(s', run[1..], d);
    }
  }

  function Acts(d: nat, trace: seq<Action>): seq<Step> {
    seq(|trace|, i requires 0 <= i < |trace| => Act(d, trace[i]))
  }

  lemma {:induction false} RunsCompose(s: System, a: seq<Step>, b: seq<Step>)
    requires Legal(s, a) && Legal(After(s, a), b)
    ensures Legal(s, a + b) && After(s, a + b) == After(After(s, a), b)
    decreases |a|
  {
    if a == [] {
      assert a + b == b;
    } else {
      assert (a + b)[0] == a[0] && (a + b)[1..] == a[1..] + b;
      RunsCompose(Apply(s, a[0]), a[1..], b);
    }
  }

  lemma OneStep(s: System, step: Step)
    requires Enabled(s, step)
    ensures Legal(s, [step]) && After(s, [step]) == Apply(s, step)
  {
    var rest := [step][1..];
    assert rest == [];
    assert Legal(Apply(s, step), rest);
  }

  /** Conversely every path of the automaton, and so every execution of the code, is a run of the system, from
      every state in which the message has just been delivered. */
  lemma {:induction false} PathIsARun(s: System, d: nat, m: nat, trace: seq<Action>)
    requires d in s.deliveries && s.deliveries[d] == Arrived(m) && m < |s.messages|
    requires Follow(Arrived(m), s.messages[m].wellFormed, trace).Some?
    ensures Legal(s, Acts(d, trace))
    ensures var e := After(s, Acts(d, trace));
            && s.messages <= e.messages && d in e.deliveries && (e.deliveries[d].Gone? || e.deliveries[d].m == m)
            && Follow(Arrived(m), s.messages[m].wellFormed, trace) == Some(e.deliveries[d])
  {
    if trace != [] {
      var front, a := trace[..|trace| - 1], trace[|trace| - 1];
      PathIsARun(s, d, m, front);
      var e := After(s, Acts(d, front));
      AdvanceWhenGone(e.deliveries[d], WellFormed(e, e.deliveries[d]), s.messages[m].wellFormed, a);
      OneStep(e, Act(d, a));
      OnlyOwnActionsMove(e, Act(d, a), d);
      RunsCompose(s, Acts(d, front), [Act(d, a)]);
      assert Acts(d, trace) == Acts(d, front) + [Act(d, a)];
    }
  }

  /** The code, run against the queue: the delivery starts in any state the system can be in, and the wake-up it
      handles is still in the broker when the code is done, unless a handler returned nil for it. */
  method DeliverOnce(s: System, before: seq<Step>, d: nat, consumer: Consumer, env: Surroundings)
    requires Init(s) && Legal(s, before)
    requires var e := After(s, before);
             && d in e.deliveries && e.deliveries[d] == Arrived(consumer.m) && consumer.m < |e.messages|
             && e.messages[consumer.m] == consumer.message
    requires consumer.trace == [] && consumer.calls == []
    modifies consumer
    ensures var own := Acts(d, consumer.trace);
            && Legal(s, before + own)
            && var e := After(s, before + own);
               && d in e.deliveries && e.deliveries[d].Gone?
               && (consumer.message.wellFormed && consumer.message.origin !in e.finished ==>
                     exists k :: k in e.queue && k < |e.messages| && e.messages[k].origin == consumer.message.origin)
  {
    consumer.HandleDelivery(env);
    ghost var e := After(s, before);
    RunHolds(s, before);
    assert MessageOk(e, consumer.m);
    PathIsARun(e, d, consumer.m, consumer.trace);
    ghost var own := Acts(d, consumer.trace);
    RunsCompose(s, before, own);
    ghost var f := After(s, before + own);
    if consumer.message.wellFormed && consumer.message.origin !in f.finished {
      assert f.messages[consumer.message.origin] == e.messages[consumer.message.origin];
      WakeUpIsNeverLost(s, before + own, consumer.message.origin);
    }
  }

  // ---- the queue as the delivery protocol sees it ----

  /** The wake-ups in the queue: every well-formed message it holds, with the delivery it is out on. */
  ghost function Held(s: System): Wakeups.Copies {
    map m | m in s.queue && m < |s.messages| && s.messages[m].wellFormed ::
      Wakeups.Copy(true, if m in s.holder then Some(s.holder[m]) else None, s.messages[m].origin, !Newest(s, m))
  }

  /** What allows a delivery its move: an acknowledgement for good a handler that returned nil for the chain, an
      acknowledgement of the original its confirmed replacement, a replacement a handler that did not return nil. */
  ghost predicate Justified(s: System, move: Wakeups.Move) {
    match move
    case HandOut(_, t) => t !in s.deliveries
    case AckBy(c, t) =>
      && t in s.deliveries && s.deliveries[t] == Acknowledging(c)
      && c < |s.messages| && s.messages[c].origin in s.finished
    case AckReplaced(c, t) => t in s.deliveries && s.deliveries[t] == Replaced(c)
    case Replace(chain, _) =>
      exists d :: d in s.deliveries && s.deliveries[d].OnTimer? && s.deliveries[d].m < |s.messages|
                  && s.messages[s.deliveries[d].m].origin == chain
    case Drop(_) => false
    case _ => true
  }

  ghost predicate Refines(s: System, moves: seq<Wakeups.Move>, s': System) {
    && Wakeups.AllAllowed(Held(s), moves) && Wakeups.MovedBy(Held(s), moves) == Held(s')
    && forall i :: 0 <= i < |moves| ==> Justified(s, moves[i])
  }

  lemma RefinesByOne(s: System, move: Wakeups.Move, s': System)
    requires Wakeups.Allowed(Held(s), move) && Wakeups.Moved(Held(s), move) == Held(s') && Justified(s, move)
    ensures Refines(s, [move], s')
  {
    Wakeups.OneMove(Held(s), move);
  }

  lemma NewestAfterStore(s: System, s': System, x: Message, m: nat)
    requires s'.messages == s.messages + [x] && m < |s.messages|
    ensures Newest(s', m) <==> Newest(s, m) && s.messages[m].origin != x.origin
  {
    StoringKeepsOrder(s, s', x);
    if Newest(s, m) && s.messages[m].origin != x.origin {
      forall k | m < k < |s'.messages| ensures s'.messages[k].origin != s'.messages[m].origin {
        assert k < |s.messages| ==> s'.messages[k] == s.messages[k];
      }
    }
  }

  /** Storing a message supersedes the earlier ones of its chain. */
  lemma StoreSupersedes(s: System, s': System, x: Message)
    requires Inv(s) && s'.messages == s.messages + [x] && s'.queue == s.queue + {|s.messages|} && s'.holder == s.holder
    ensures var rest := Wakeups.Superseded(Held(s), x.origin);
            Held(s') == if x.wellFormed then rest[|s.messages| := Wakeups.Copy(true, None, x.origin, false)] else rest
  {
    forall m | m in Held(s)
      ensures m in Held(s') && Held(s')[m] == Wakeups.Superseded(Held(s), x.origin)[m]
    {
      NewestAfterStore(s, s', x, m);
    }
    assert Newest(s', |s.messages|);
  }

  /** Nothing in the queue belongs to this chain. */
  lemma NothingSuperseded(s: System, chain: nat)
    requires forall m :: m in Held(s) ==> Held(s)[m].chain != chain
    ensures Wakeups.Superseded(Held(s), chain) == Held(s)
  {
  }

  lemma PublishRefines(s: System, wellFormed: bool) returns (moves: seq<Wakeups.Move>)
    requires Inv(s)
    ensures Refines(s, moves, Apply(s, Publish(wellFormed)))
  {
    var n, s' := |s.messages|, Apply(s, Publish(wellFormed));
    StoreSupersedes(s, s', s'.messages[n]);
    forall m | m in Held(s) ensures Held(s)[m].chain != n {
      assert MessageOk(s, m);
    }
    NothingSuperseded(s, n);
    if wellFormed {
      moves := [Wakeups.Store(n, true)];
      RefinesByOne(s, moves[0], s');
    } else {
      moves := [];
    }
  }

  lemma DeliverRefines(s: System, d: nat, m: nat) returns (moves: seq<Wakeups.Move>)
    requires Inv(s) && Enabled(s, Deliver(d, m))
    ensures Refines(s, moves, Apply(s, Deliver(d, m)))
  {
    var s' := Apply(s, Deliver(d, m));
    assert forall k: nat :: k < |s.messages| ==> (Newest(s', k) <==> Newest(s, k));
    if s.messages[m].wellFormed {
      moves := [Wakeups.HandOut(m, d)];
      RefinesByOne(s, moves[0], s');
    } else {
      moves := [];
      assert Held(s') == Held(s);
    }
  }

  lemma RetryRefines(s: System, d: nat, confirmation: Confirmation) returns (moves: seq<Wakeups.Move>)
    requires Inv(s) && Enabled(s, Act(d, Retry(confirmation))) && confirmation != NotSent
    ensures Refines(s, moves, Apply(s, Act(d, Retry(confirmation))))
  {
    var s' := Apply(s, Act(d, Retry(confirmation)));
    var x := Replacement(s.messages[s.deliveries[d].m]);
    StoreSupersedes(s, s', x);
    if x.wellFormed {
      moves := [Wakeups.Replace(x.origin, |s.messages|)];
      RefinesByOne(s, moves[0], s');
    } else {
      moves := [];
      MalformedStaysApart(s, s.deliveries[d].m);
      NothingSuperseded(s, x.origin);
    }
  }

  /** A malformed message and the well-formed ones are in different chains. */
  lemma MalformedStaysApart(s: System, k: nat)
    requires Inv(s) && k < |s.messages| && !s.messages[k].wellFormed
    ensures forall m :: m in Held(s) ==> Held(s)[m].chain != s.messages[k].origin
  {
    assert MessageOk(s, k);
    forall m | m in Held(s) ensures Held(s)[m].chain != s.messages[k].origin {
      assert MessageOk(s, m);
    }
  }

  /** Acknowledging and handing back. */
  lemma CallOnOriginalRefines(s: System, d: nat, a: Action) returns (moves: seq<Wakeups.Move>)
    requires Inv(s) && Enabled(s, Act(d, a)) && (a.AckOriginal? || a.NackOriginal?)
    ensures Refines(s, moves, Apply(s, Act(d, a)))
  {
    var s', p := Apply(s, Act(d, a)), s.deliveries[d];
    assert forall k: nat :: k < |s.messages| ==> (Newest(s', k) <==> Newest(s, k));
    assert DeliveryOk(s, d);
    if Reaches(s, d, p, a.arrives) && p.m in Held(s) {
      moves := [if a.NackOriginal? then Wakeups.TakeBack(p.m)
                else if p.Replaced? then Wakeups.AckReplaced(p.m, d)
                else Wakeups.AckBy(p.m, d)];
      RefinesByOne(s, moves[0], s');
    } else {
      moves := [];
      assert Held(s') == Held(s);
    }
  }

  lemma LossRefines(s: System, lost: set<nat>) returns (moves: seq<Wakeups.Move>)
    requires Inv(s)
    ensures Refines(s, moves, Apply(s, LoseConnection(lost)))
  {
    var s' := Apply(s, LoseConnection(lost));
    assert forall k: nat :: k < |s.messages| ==> (Newest(s', k) <==> Newest(s, k));
    assert Held(s') == Wakeups.Freed(Held(s), lost);
    moves := Wakeups.FreedByMoves(Held(s), lost);
  }

  /** Everything else a delivery does leaves the queue alone. */
  lemma LocalActionRefines(s: System, d: nat, a: Action)
    requires Inv(s) && Enabled(s, Act(d, a))
    requires !a.AckOriginal? && !a.NackOriginal? && (a.Retry? ==> a.confirmation == NotSent)
    ensures Refines(s, [], Apply(s, Act(d, a)))
  {
    var s' := Apply(s, Act(d, a));
    assert forall k: nat :: k < |s.messages| ==> (Newest(s', k) <==> Newest(s, k));
    assert Held(s') == Held(s);
  }

  /** Every step of the queue and its deliveries is a sequence of the moves the protocol knows, each justified. */
  lemma StepRefines(s: System, step: Step) returns (moves: seq<Wakeups.Move>)
    requires Inv(s) && Enabled(s, step)
    ensures Refines(s, moves, Apply(s, step))
  {
    match step {
      case Publish(wellFormed) => moves := PublishRefines(s, wellFormed);
      case Deliver(d, m) => moves := DeliverRefines(s, d, m);
      case LoseConnection(lost) => moves := LossRefines(s, lost);
      case Act(d, a) =>
        if a.Retry? && a.confirmation != NotSent {
          moves := RetryRefines(s, d, a.confirmation);
        } else if a.AckOriginal? || a.NackOriginal? {
          moves := CallOnOriginalRefines(s, d, a);
        } else {
          moves := [];
          LocalActionRefines(s, d, a);
        }
    }
  }

  /** Over whole runs: the wake-ups in the queue are at every moment what the protocol's moves make of them, and one
      is acknowledged for good only when a handler has returned nil for its chain. */
  lemma {:induction false} QueueRefinesWakeups(s: System, run: seq<Step>) returns (moves: seq<Wakeups.Move>)
    requires Inv(s) && Legal(s, run)
    ensures Wakeups.AllAllowed(Held(s), moves) && Wakeups.MovedBy(Held(s), moves) == Held(After(s, run))
    ensures var e := After(s, run);
            forall i :: 0 <= i < |moves| && moves[i].AckBy? ==>
                          moves[i].c < |e.messages| && e.messages[moves[i].c].origin in e.finished
    decreases |run|
  {
    if run == [] {
      moves := [];
    } else {
      var s' := Apply(s, run[0]);
      var first := StepRefines(s, run[0]);
      OneStep(s, run[0]);
      RunHolds(s, [run[0]]);
      var rest := QueueRefinesWakeups(s', run[1..]);
      HistoryStays(s, run);
      Wakeups.MovesCompose(Held(s), first, rest);
      moves := first + rest;
      forall i | 0 <= i < |moves| && moves[i].AckBy?
        ensures var e := After(s, run);
                moves[i].c < |e.messages| && e.messages[moves[i].c].origin in e.finished
      {
        if i < |first| {
          assert Justified(s, first[i]);
        } else {
          assert moves[i] == rest[i - |first|];
        }
      }
    }
  }
}
