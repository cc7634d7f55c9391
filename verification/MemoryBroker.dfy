/**
 internal/mq/memory.go: the bounded in-process queue, its consumers, its requeue timers and its shutdown.

 Every mutex-protected section, channel operation or goroutine exit is one method; callers may invoke them in
 any order their preconditions allow. Besides its fields the object keeps the history of what became of every
 message it accepted.
 */
module MemoryBroker {
  import opened Mq

  /** `requeues` is history: how often this message went back through the queue. */
  datatype Message = Message(eventId: nat, attempts: int, requeues: nat)

  /** The attempts counter is one plus the requeues, saturating at the largest uint32. */
  predicate CountsRequeues(m: Message) {
    m.attempts == Min(1 + m.requeues, TWO_TO_THE_32 - 1)
  }

  function Requeued(m: Message): Message {
    m.(attempts := NextAttempts(m.attempts), requeues := m.requeues + 1)
  }

  ghost predicate AllCount(q: seq<Message>) {
    forall i :: 0 <= i < |q| ==> CountsRequeues(q[i])
  }

  method RaiseAttempts(m: Message) returns (again: Message)
    ensures again == Requeued(m) && again.eventId == m.eventId
    ensures CountsRequeues(m) ==> CountsRequeues(again)
  {
    var nextAttempts := (m.attempts + 1) % TWO_TO_THE_32;
    if nextAttempts == 0 {
      nextAttempts := m.attempts;
    }
    again := m.(attempts := nextAttempts, requeues := m.requeues + 1);
  }

  /** How many messages of q carry this event id. */
  function Count(q: seq<Message>, id: nat): nat {
    if q == [] then 0 else Count(q[..|q| - 1], id) + (if q[|q| - 1].eventId == id then 1 else 0)
  }

  /** Every accepted message is buffered, in a handler, on a timer, acknowledged or dropped; exactly one of them. */
  ghost predicate Conserved(accepted: multiset<nat>, jobs: seq<Message>, handling: seq<Message>, waiting: seq<Message>,
                            acked: multiset<nat>, dropped: multiset<nat>) {
    forall id: nat :: accepted[id] == Count(jobs, id) + Count(handling, id) + Count(waiting, id) + acked[id] + dropped[id]
  }

  function Without(q: seq<Message>, i: nat): seq<Message>
    requires i < |q|
  {
    q[..i] + q[i + 1..]
  }

  lemma Appended(q: seq<Message>, m: Message)
    ensures forall id: nat :: Count(q + [m], id) == Count(q, id) + (if m.eventId == id then 1 else 0)
    ensures AllCount(q) && CountsRequeues(m) ==> AllCount(q + [m])
  {
    assert (q + [m])[..|q|] == q;
  }

  lemma {:induction false} CountWithout(q: seq<Message>, i: nat, id: nat)
    requires i < |q|
    ensures Count(q, id) == Count(Without(q, i), id) + (if q[i].eventId == id then 1 else 0)
  {
    var n := |q| - 1;
    if i == n {
      assert Without(q, i) == q[..n];
    } else {
      CountWithout(q[..n], i, id);
      var w := Without(q, i);
      assert w == Without(q[..n], i) + [q[n]];
      assert w[..|w| - 1] == Without(q[..n], i);
    }
  }

  lemma Removed(q: seq<Message>, i: nat)
    requires i < |q|
    ensures forall id: nat :: Count(q, id) == Count(Without(q, i), id) + (if q[i].eventId == id then 1 else 0)
    ensures AllCount(q) ==> AllCount(Without(q, i)) && CountsRequeues(q[i])
  {
    forall id: nat ensures Count(q, id) == Count(Without(q, i), id) + (if q[i].eventId == id then 1 else 0) {
      CountWithout(q, i, id);
    }
  }

  /** What leaves a handler for a timer stays accounted for. */
  lemma HandlerToTimer(accepted: multiset<nat>, jobs: seq<Message>, handling: seq<Message>, waiting: seq<Message>,
                       acked: multiset<nat>, dropped: multiset<nat>, i: nat)
    requires i < |handling| && Conserved(accepted, jobs, handling, waiting, acked, dropped)
    requires AllCount(handling) && AllCount(waiting)
    ensures Conserved(accepted, jobs, Without(handling, i), waiting + [handling[i]], acked, dropped)
    ensures AllCount(Without(handling, i)) && AllCount(waiting + [handling[i]])
  {
    Removed(handling, i);
    Appended(waiting, handling[i]);
  }

  datatype BrokerError = NoError | ErrMemoryClosed | ErrMemoryQueueFull | ErrContext | ErrAlreadyStarted

  /** How far Close has got: not called, waiting for the consumers, waiting for the timers, returned. */
  datatype Stage = Running | DrainingWorkers | DrainingRequeues | Returned

  class Broker {
    const capacity: nat
    var jobs: seq<Message>
    var started: bool
    var stage: Stage
    /** The goroutines in the `workers` WaitGroup, and the messages of those inside the handler. */
    var workers: nat
    var handling: seq<Message>
    /** The goroutines in the `requeues` WaitGroup, each waiting on its timer. */
    var waiting: seq<Message>

    var accepted: multiset<nat>  // history: event ids taken in by Publish
    var acked: multiset<nat>     // history: event ids whose handler returned nil
    var dropped: multiset<nat>   // history: event ids given up by a requeue

    /** The `closed` flag and the closed `done` channel. */
    predicate IsClosed()
      reads this
    {
      stage != Running
    }

    /** Conservation, the buffer bound, honest counters, and what each stage of Close guarantees. */
    ghost predicate Valid()
      reads this
    {
      && |jobs| <= capacity
      && Conserved(accepted, jobs, handling, waiting, acked, dropped)
      && AllCount(jobs) && AllCount(handling) && AllCount(waiting)
      && |handling| <= workers
      && (workers > 0 ==> started)
      && (stage == DrainingRequeues || stage == Returned ==> workers == 0)
      && (stage == Returned ==> waiting == [])
    }

    constructor (capacity: nat)
      requires capacity > 0
      ensures Valid() && this.capacity == capacity && jobs == [] && stage == Running && !started && accepted == multiset{}
    {
      this.capacity := capacity;
      jobs, handling, waiting := [], [], [];
      started, stage, workers := false, Running, 0;
      accepted, acked, dropped := multiset{}, multiset{}, multiset{};
    }

    /** What publishMessage answers. When both the context and the channel are ready the select may pick either;
        `preferContext` stands for that choice. */
    function Answer(contextDone: bool, preferContext: bool): BrokerError
      reads this
    {
      if IsClosed() then ErrMemoryClosed
      else if contextDone && (preferContext || |jobs| >= capacity) then ErrContext
      else if |jobs| < capacity then NoError
      else ErrMemoryQueueFull
    }

    method PublishMessage(m: Message, contextDone: bool, preferContext: bool) returns (err: BrokerError)
      modifies this`jobs
      ensures err == old(Answer(contextDone, preferContext))
      ensures jobs == if err == NoError then old(jobs) + [m] else old(jobs)
    {
      if stage != Running {
        return ErrMemoryClosed;
      }
      var room := |jobs| < capacity;
      if contextDone && (preferContext || !room) {
        return ErrContext;
      }
      if !room {
        return ErrMemoryQueueFull;
      }
      jobs := jobs + [m];
      return NoError;
    }

    method Publish(eventId: nat, contextDone: bool, preferContext: bool) returns (err: BrokerError)
      requires Valid()
      modifies this`jobs, this`accepted
      ensures Valid()
      ensures !IsClosed() && |old(jobs)| < capacity && !contextDone ==> err == NoError
      ensures err == NoError ==>
                && !IsClosed() && jobs == old(jobs) + [Message(eventId, 1, 0)]
                && accepted == old(accepted) + multiset{eventId}
      ensures err != NoError ==> jobs == old(jobs) && accepted == old(accepted)
      ensures err == ErrMemoryClosed <==> IsClosed()
      ensures err == ErrContext <==> !IsClosed() && contextDone && (preferContext || |old(jobs)| == capacity)
      ensures err == ErrMemoryQueueFull <==> !IsClosed() && |old(jobs)| == capacity && !contextDone
    {
      var m := Message(eventId, 1, 0);
      err := PublishMessage(m, contextDone, preferContext);
      if err == NoError {
        Appended(old(jobs), m);
        accepted := accepted + multiset{eventId};
      }
    }

    method Start(concurrency: int) returns (err: BrokerError)
      requires Valid()
      modifies this`started, this`workers
      ensures Valid()
      ensures err == if IsClosed() then ErrMemoryClosed else if old(started) then ErrAlreadyStarted else NoError
      ensures started == (old(started) || err == NoError)
      ensures workers == if err == NoError then old(workers) + (if concurrency < 1 then 1 else concurrency) else old(workers)
    {
      var n := concurrency;
      if n < 1 {
        n := 1;
      }
      if stage != Running {
        return ErrMemoryClosed;
      }
      if started {
        return ErrAlreadyStarted;
      }
      started := true;
      workers := workers + n;
      return NoError;
    }

    /** An idle consumer receives the oldest job; after Close the select may still choose this. */
    method Take()
      requires Valid() && |handling| < workers && jobs != []
      modifies this`jobs, this`handling
      ensures Valid()
      ensures jobs == old(jobs)[1..] && handling == old(handling) + [old(jobs)[0]]
    {
      Removed(jobs, 0);
      assert Without(jobs, 0) == jobs[1..];
      Appended(handling, jobs[0]);
      handling := handling + [jobs[0]];
      jobs := jobs[1..];
    }

    /** The handler of one consumer returns: nil acknowledges; an error schedules a requeue unless closed. */
    method HandlerReturns(i: nat, ok: bool)
      requires Valid() && i < |handling|
      modifies this`handling, this`waiting, this`acked, this`dropped
      ensures Valid()
      ensures handling == Without(old(handling), i)
      ensures waiting == if ok || IsClosed() then old(waiting) else old(waiting) + [old(handling)[i]]
      ensures acked == if ok then old(acked) + multiset{old(handling)[i].eventId} else old(acked)
      ensures dropped == if !ok && IsClosed() then old(dropped) + multiset{old(handling)[i].eventId} else old(dropped)
    {
      if ok {
        var m := handling[i];
        Removed(handling, i);
        handling := Without(handling, i);
        acked := acked + multiset{m.eventId};
      } else {
        ScheduleRequeue(i);
      }
    }

    method ScheduleRequeue(i: nat)
      requires Valid() && i < |handling|
      modifies this`handling, this`waiting, this`dropped
      ensures Valid()
      ensures handling == Without(old(handling), i)
      ensures waiting == if IsClosed() then old(waiting) else old(waiting) + [old(handling)[i]]
      ensures dropped == if IsClosed() then old(dropped) + multiset{old(handling)[i].eventId} else old(dropped)
    {
      if stage != Running {
        DropUnscheduled(i);
        return;
      }
      HandlerToTimer(accepted, jobs, handling, waiting, acked, dropped, i);
      waiting := waiting + [handling[i]];
      handling := Without(handling, i);
    }

    /** A closed broker starts no timer: the failed delivery is given up. */
    method DropUnscheduled(i: nat)
      requires Valid() && i < |handling|
      modifies this`handling, this`dropped
      ensures Valid()
      ensures handling == Without(old(handling), i) && dropped == old(dropped) + multiset{old(handling)[i].eventId}
    {
      Removed(handling, i);
      dropped := dropped + multiset{handling[i].eventId};
      handling := Without(handling, i);
    }

    /** A consumer goroutine ends; `Done()` on the workers WaitGroup. */
    method ConsumerExits(contextDone: bool)
      requires Valid() && |handling| < workers && (contextDone || IsClosed())
      modifies this`workers
      ensures Valid() && workers == old(workers) - 1
    {
      workers := workers - 1;
    }

    /** A requeue timer fires: the message goes back with its counter raised, or is dropped for the database
        compensator to find. */
    method TimerFires(i: nat, contextDone: bool, preferContext: bool)
      requires Valid() && i < |waiting|
      modifies this`waiting, this`jobs, this`dropped
      ensures Valid()
      ensures waiting == Without(old(waiting), i)
      ensures var m := old(waiting)[i];
              if !IsClosed() && |old(jobs)| < capacity && !(contextDone && preferContext)
              then jobs == old(jobs) + [Requeued(m)] && dropped == old(dropped)
              else jobs == old(jobs) && dropped == old(dropped) + multiset{m.eventId}
    {
      var again := RaiseAttempts(waiting[i]);
      var err := PublishMessage(again, contextDone, preferContext);
      if err != NoError {
        Drop(i);
        return;
      }
      Removed(waiting, i);
      Appended(old(jobs), again);
      waiting := Without(waiting, i);
    }

    /** A requeue goroutine sees the context or the broker end before its timer. */
    method TimerCancelled(i: nat, contextDone: bool)
      requires Valid() && i < |waiting| && (contextDone || IsClosed())
      modifies this`waiting, this`dropped
      ensures Valid()
      ensures waiting == Without(old(waiting), i) && dropped == old(dropped) + multiset{old(waiting)[i].eventId}
    {
      Drop(i);
    }

    /** A requeue goroutine returns without putting its message back. */
    method Drop(i: nat)
      requires Valid() && i < |waiting|
      modifies this`waiting, this`dropped
      ensures Valid()
      ensures waiting == Without(old(waiting), i) && dropped == old(dropped) + multiset{old(waiting)[i].eventId}
    {
      Removed(waiting, i);
      dropped := dropped + multiset{waiting[i].eventId};
      waiting := Without(waiting, i);
    }

    /** The three moments of Close; sync.Once makes each happen once. */
    method BeginClose()
      requires Valid() && stage == Running
      modifies this`stage
      ensures Valid() && stage == DrainingWorkers
    {
      stage := DrainingWorkers;
    }

    method WorkersWaitReturns()
      requires Valid() && stage == DrainingWorkers && workers == 0
      modifies this`stage
      ensures Valid() && stage == DrainingRequeues
    {
      stage := DrainingRequeues;
    }

    method RequeuesWaitReturns()
      requires Valid() && stage == DrainingRequeues && waiting == []
      modifies this`stage
      ensures Valid() && stage == Returned
    {
      stage := Returned;
    }

    /** After Close returned nothing runs, and every accepted message is acked, dropped or still buffered. */
    lemma ClosedIsQuiet()
      requires Valid() && stage == Returned
      ensures workers == 0 && handling == [] && waiting == []
      ensures forall id: nat :: accepted[id] == Count(jobs, id) + acked[id] + dropped[id]
    {
      assert handling == [];
    }
  }
}
