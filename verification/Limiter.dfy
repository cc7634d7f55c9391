/**
 internal/worker/limiter.go: the concurrency slots of one provider action, and what they bound when any number of
 HandleDelivery calls of one worker process share them. The token-bucket wait is an answer that succeeds or fails.
 */
module Limiter {
  import opened Processor
  import Counting

  class ActionLimiter {
    /** Capacity of the slot channel; 0 or less means there is none. */
    const maxConcurrency: int
    var inUse: nat

    ghost predicate Valid()
      reads this
    {
      inUse == 0 || inUse <= maxConcurrency
    }

    constructor (maxConcurrency: int)
      ensures Valid() && this.maxConcurrency == maxConcurrency && inUse == 0
    {
      this.maxConcurrency := maxConcurrency;
      inUse := 0;
    }

    /** After a rate wait that did not fail it blocks until a slot is free or the context ends, so one of the two holds
        when it returns; when both do, the select may pick either. A caller that got no slot holds none. */
    method Acquire(rateOk: bool, contextDone: bool, preferContext: bool) returns (acquired: bool)
      requires Valid() && (rateOk && maxConcurrency > 0 ==> inUse < maxConcurrency || contextDone)
      modifies this
      ensures Valid()
      ensures acquired ==> rateOk
      ensures inUse == if acquired && maxConcurrency > 0 then old(inUse) + 1 else old(inUse)
      ensures rateOk && !contextDone ==> acquired
    {
      if !rateOk {
        return false;
      }
      if maxConcurrency > 0 {
        if inUse < maxConcurrency && !(contextDone && preferContext) {
          inUse := inUse + 1;
          return true;
        }
        return false;
      }
      return true;
    }

    method Release()
      requires Valid() && (maxConcurrency > 0 ==> inUse > 0)
      modifies this
      ensures Valid() && inUse == if maxConcurrency > 0 then old(inUse) - 1 else old(inUse)
    {
      if maxConcurrency > 0 {
        inUse := inUse - 1;
      }
    }
  }

  /** The calls of one process that share a limiter with `capacity` > 0 slots. */
  datatype Pool = Pool(capacity: nat, inUse: int, phases: map<nat, Phase>)

  datatype Step = Enter(call: nat) | Act(call: nat, action: Action)

  predicate Enabled(cfg: Config, s: Pool, step: Step) {
    match step
    case Enter(call) => call !in s.phases
    case Act(call, a) =>
      && call in s.phases && Advance(cfg, s.phases[call], a).Some?
      && (a == Action.Acquire(true) ==> s.inUse < s.capacity)
  }

  function Apply(cfg: Config, s: Pool, step: Step): Pool
    requires Enabled(cfg, s, step)
  {
    match step
    case Enter(call) => s.(phases := s.phases[call := Fresh])
    case Act(call, a) =>
      Pool(s.capacity,
           if a == Action.Acquire(true) then s.inUse + 1 else if a.Release? then s.inUse - 1 else s.inUse,
           s.phases[call := Advance(cfg, s.phases[call], a).value])
  }

  predicate Legal(cfg: Config, s: Pool, run: seq<Step>)
    decreases |run|
  {
    run == [] || (Enabled(cfg, s, run[0]) && Legal(cfg, Apply(cfg, s, run[0]), run[1..]))
  }

  function After(cfg: Config, s: Pool, run: seq<Step>): Pool
    requires Legal(cfg, s, run)
    decreases |run|
  {
    if run == [] then s else After(cfg, Apply(cfg, s, run[0]), run[1..])
  }

  function Holders(s: Pool): set<nat> {
    set call | call in s.phases && HoldsSlot(s.phases[call])
  }

  function Callers(s: Pool): set<nat> {
    set call | call in s.phases && s.phases[call].Calling?
  }

  ghost predicate Inv(s: Pool) {
    s.inUse == |Holders(s)| <= s.capacity
  }

  /** An action changes whether its caller holds a slot exactly when it takes or gives back one. */
  lemma SlotMoves(cfg: Config, p: Phase, a: Action)
    requires Advance(cfg, p, a).Some?
    ensures var q := Advance(cfg, p, a).value;
            && (a == Action.Acquire(true) ==> !HoldsSlot(p) && HoldsSlot(q))
            && (a.Release? ==> HoldsSlot(p) && !HoldsSlot(q))
            && (a != Action.Acquire(true) && !a.Release? ==> (HoldsSlot(p) <==> HoldsSlot(q)))
  {
  }

  lemma StepHolds(cfg: Config, s: Pool, step: Step)
    requires Inv(s) && Enabled(cfg, s, step)
    ensures Inv(Apply(cfg, s, step))
  {
    var s' := Apply(cfg, s, step);
    if step.Act? {
      SlotMoves(cfg, s.phases[step.call], step.action);
      if step.action == Action.Acquire(true) {
        assert Holders(s') == Holders(s) + {step.call};
      } else if step.action.Release? {
        assert Holders(s') == Holders(s) - {step.call};
      } else {
        assert Holders(s') == Holders(s);
      }
    } else {
      assert Holders(s') == Holders(s);
    }
  }

  /** max_concurrency holds: at no time are more provider calls of the action under way in this process than there
      are slots, and once every call has returned all slots are free. */
  lemma {:induction false} ConcurrencyIsBounded(cfg: Config, s: Pool, run: seq<Step>)
    requires Inv(s) && Legal(cfg, s, run)
    ensures var e := After(cfg, s, run);
            && Inv(e) && |Callers(e)| <= s.capacity
            && ((forall call :: call in e.phases ==> e.phases[call].Ended?) ==> e.inUse == 0)
    decreases |run|
  {
    if run != [] {
      StepHolds(cfg, s, run[0]);
      ConcurrencyIsBounded(cfg, Apply(cfg, s, run[0]), run[1..]);
    } else {
      assert Callers(s) <= Holders(s);
      Counting.SubsetSize(Callers(s), Holders(s));
      if forall call :: call in s.phases ==> s.phases[call].Ended? {
        assert Holders(s) == {};
      }
    }
  }
}
