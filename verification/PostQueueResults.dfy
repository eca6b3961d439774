// What an executor's ring promises over every run.
module PostQueueResults {
  import opened Base
  import opened RingSlots
  import opened Handles
  import opened PostQueueMachine

  // ----- what the invariant means -----

  ghost predicate Reachable(s: Ring, size: nat)
    requires 1 <= size
  {
    exists run: seq<Label> :: EnabledAll(Init(size), run) && s == ApplyAll(Init(size), run)
  }

  lemma ReachableInv(s: Ring, size: nat)
    requires 1 <= size && Reachable(s, size)
    ensures Inv(s) && |s.active| == size
  {
    var run: seq<Label> :| EnabledAll(Init(size), run) && s == ApplyAll(Init(size), run);
    InitInv(size);
    RunInv(Init(size), run);
  }

  /** push fails exactly when every slot is occupied, pop finds nothing exactly when none is,
      judged at the load of the flag; occupied are the slots of the positions Front to Back. */
  lemma VerdictsAreExact(s: Ring, size: nat)
    requires 1 <= size && Reachable(s, size)
    ensures Front(s) <= Back(s) <= Front(s) + size
    ensures |s.active| == size && forall p :: Front(s) <= p < Front(s) + size ==>
      (s.active[Slot(p, size)] <==> p < Back(s))
    ensures s.producer.TestFree? ==>
      && Enabled(s, Produce)
      && (ProduceStep(s).producer == Pushed(false) <==> Back(s) == Front(s) + size)
    ensures s.consumer.TestActive? ==>
      && Enabled(s, Consume)
      && (ConsumeStep(s).consumer == Popped(None) <==> Back(s) == Front(s))
  {
    ReachableInv(s, size);
    FlagTells(s);
    forall p | Front(s) <= p < Front(s) + size
      ensures s.active[Slot(p, size)] <==> p < Back(s)
    {
      assert FlagOk(s, p);
    }
  }

  // ----- first in, first out -----

  /** The handle that becomes visible to the consumer at this step, if any. */
  function PushOf(s: Ring, l: Label): seq<Handle>
    requires Enabled(s, l)
  {
    if l == Produce && s.producer.SetActive? then [s.producer.h] else []
  }

  /** The handle the consumer goes on to redeem at this step, if any. */
  function TakeOf(s: Ring, l: Label): seq<Handle>
    requires Enabled(s, l)
  {
    if l == Consume && s.consumer.ReadHandle? then [Apply(s, l).consumer.h] else []
  }

  function Pushes(s: Ring, run: seq<Label>): seq<Handle>
    requires EnabledAll(s, run)
    decreases |run|
  {
    if run == [] then [] else PushOf(s, run[0]) + Pushes(Apply(s, run[0]), run[1..])
  }

  function Takes(s: Ring, run: seq<Label>): seq<Handle>
    requires EnabledAll(s, run)
    decreases |run|
  {
    if run == [] then [] else TakeOf(s, run[0]) + Takes(Apply(s, run[0]), run[1..])
  }

  /** How many handles the consumer has read. */
  function Taken(s: Ring): nat
  {
    if s.consumer.Redeeming? || s.consumer.ClearActive? then s.dequeue + 1 else Front(s)
  }

  lemma StepFifo(s: Ring, l: Label)
    requires Inv(s) && Enabled(s, l)
    ensures Inv(Apply(s, l))
    ensures Apply(s, l).pushed == s.pushed + PushOf(s, l)
    ensures Apply(s, l).pushed[..Taken(Apply(s, l))] == s.pushed[..Taken(s)] + TakeOf(s, l)
  {
    ApplyInv(s, l);
  }

  lemma {:induction false} RunFifo(s: Ring, run: seq<Label>)
    requires Inv(s) && EnabledAll(s, run)
    ensures Inv(ApplyAll(s, run))
    ensures ApplyAll(s, run).pushed == s.pushed + Pushes(s, run)
    ensures ApplyAll(s, run).pushed[..Taken(ApplyAll(s, run))] == s.pushed[..Taken(s)] + Takes(s, run)
    decreases |run|
  {
    if run == [] {
      assert Pushes(s, run) == [] && Takes(s, run) == [];
    } else {
      var s' := Apply(s, run[0]);
      StepFifo(s, run[0]);
      RunFifo(s', run[1..]);
      Associate(s.pushed, PushOf(s, run[0]), Pushes(s', run[1..]));
      Associate(s.pushed[..Taken(s)], TakeOf(s, run[0]), Takes(s', run[1..]));
    }
  }

  /** Over every run the handles taken are a prefix of the handles pushed, and no more than
      the capacity are ever between the two ends. */
  lemma Fifo(size: nat, run: seq<Label>)
    requires 1 <= size && EnabledAll(Init(size), run)
    ensures Takes(Init(size), run) <= Pushes(Init(size), run)
    ensures |Pushes(Init(size), run)| <= |Takes(Init(size), run)| + size
  {
    InitInv(size);
    RunFifo(Init(size), run);
    RunInv(Init(size), run);
    var end := ApplyAll(Init(size), run);
    assert end.pushed == Pushes(Init(size), run);
    assert end.pushed[..Taken(end)] == Takes(Init(size), run);
  }
}
