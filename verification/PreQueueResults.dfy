// What the pre-scheduler ring promises over every run.
module PreQueueResults {
  import opened Base
  import opened RingSlots
  import opened Handles
  import opened PreQueueMachine

  // ----- what the invariant means -----

  /** Some run over a fresh ring of this many slots ends here. */
  ghost predicate Reachable(s: Ring, size: nat)
    requires 1 <= size
  {
    exists threads: nat, run: seq<Label> ::
      EnabledAll(Init(size, threads), run) && s == ApplyAll(Init(size, threads), run)
  }

  lemma ReachableInv(s: Ring, size: nat)
    requires 2 <= size && Reachable(s, size)
    ensures Inv(s) && |s.sequence| == size
  {
    var threads: nat, run: seq<Label> :|
      EnabledAll(Init(size, threads), run) && s == ApplyAll(Init(size, threads), run);
    InitInv(size, threads);
    RunInv(Init(size, threads), run);
    RunSize(Init(size, threads), run);
  }

  lemma {:induction false} RunSize(s: Ring, run: seq<Label>)
    requires EnabledAll(s, run)
    ensures |ApplyAll(s, run).sequence| == |s.sequence|
    decreases |run|
  {
    if run != [] {
      RunSize(Apply(s, run[0]), run[1..]);
    }
  }

  predicate Touching(s: Ring, t: nat)
  {
    t < |s.producer| && (s.producer[t].WriteHandle? || s.producer[t].Publish?)
  }

  /** Two producers never write one slot, and the consumer never reads or frees a slot that
      a producer is writing. */
  lemma SlotsAreExclusive(s: Ring, size: nat, t: nat, u: nat)
    requires 2 <= size && Reachable(s, size)
    ensures Touching(s, t) && Touching(s, u) && t != u ==>
              Slot(s.producer[t].pos, size) != Slot(s.producer[u].pos, size)
    ensures Touching(s, t) && (s.consumer.ReadHandle? || s.consumer.FreeSlot?) ==>
              Slot(s.producer[t].pos, size) != Slot(s.consumer.pos, size)
  {
    ReachableInv(s, size);
    if Touching(s, t) {
      assert ProducerOk(s, t);
      OtherSlots(s.producer[t].pos, Front(s), size);
      if Touching(s, u) { assert ProducerOk(s, u); }
    }
  }

  /** push gives up exactly when, at that load of the sequence, its position is the current
      m_enqueue_pos and every slot holds a claimed handle that was not taken out. */
  lemma FullnessIsExact(s: Ring, size: nat, t: nat, spurious: bool)
    requires 2 <= size && Reachable(s, size)
    requires t < |s.producer| && s.producer[t].LoadSeq?
    ensures Enabled(s, Produce(t, spurious))
    ensures ProduceStep(s, t, spurious).producer[t].Rejected? <==>
              s.producer[t].pos == s.enqueue && |s.claimed| - |s.popped| == size
    ensures |s.claimed| - |s.popped| <= size
  {
    ReachableInv(s, size);
    assert ProducerOk(s, t);
    MarkTells(s, s.producer[t].pos);
  }

  /** pop finds nothing exactly when the head position is unclaimed, or its claimant has not
      published it yet. */
  lemma EmptinessIsExact(s: Ring, size: nat)
    requires 2 <= size && Reachable(s, size) && s.consumer.TestSeq?
    ensures Enabled(s, Consume)
    ensures ConsumeStep(s).consumer == Popped(None) <==>
              s.dequeue == s.enqueue || exists t :: WritingAt(s, t, s.dequeue)
  {
    ReachableInv(s, size);
    MarkTells(s, s.dequeue);
    assert MarkOk(s, s.dequeue);
    forall t | WritingAt(s, t, s.dequeue) ensures Mark(s, s.dequeue) == s.dequeue < s.enqueue {
      assert ProducerOk(s, t);
    }
  }

  // ----- first in, first out -----

  /** The handle whose compare-exchange of m_enqueue_pos succeeds at this step, if any. */
  function ClaimOf(s: Ring, l: Label): seq<Handle>
    requires Enabled(s, l)
  {
    if l.Produce? && Apply(s, l).enqueue != s.enqueue then [s.producer[l.t].h] else []
  }

  /** The handle pop returns at this step, if any. */
  function ResultOf(s: Ring, l: Label): seq<Handle>
    requires Enabled(s, l)
  {
    if l.ReturnPop? && s.consumer.result.Some? then [s.consumer.result.value] else []
  }

  function Claims(s: Ring, run: seq<Label>): seq<Handle>
    requires EnabledAll(s, run)
    decreases |run|
  {
    if run == [] then [] else ClaimOf(s, run[0]) + Claims(Apply(s, run[0]), run[1..])
  }

  function Results(s: Ring, run: seq<Label>): seq<Handle>
    requires EnabledAll(s, run)
    decreases |run|
  {
    if run == [] then [] else ResultOf(s, run[0]) + Results(Apply(s, run[0]), run[1..])
  }

  /** The handles already returned: those taken out, less one still on its way. */
  function Returned(s: Ring): seq<Handle>
    requires Sizes(s) && Bounds(s)
  {
    if s.consumer.Popped? && s.consumer.result.Some? && s.dequeue > 0
    then s.claimed[..s.dequeue - 1] else s.claimed[..s.dequeue]
  }

  ghost predicate ResultOk(s: Ring)
    requires Sizes(s) && Bounds(s)
  {
    s.consumer.Popped? && s.consumer.result.Some? ==>
      s.dequeue > 0 && s.consumer.result.value == s.claimed[s.dequeue - 1]
  }

  lemma StepFifo(s: Ring, l: Label)
    requires Inv(s) && Enabled(s, l) && ResultOk(s)
    ensures Inv(Apply(s, l)) && ResultOk(Apply(s, l))
    ensures Apply(s, l).claimed == s.claimed + ClaimOf(s, l)
    ensures Returned(Apply(s, l)) == Returned(s) + ResultOf(s, l)
  {
    hide Marks, ProducersOk;
    ApplyInv(s, l);
    if l.Produce? { ProduceFifo(s, l.t, l.spurious); }
  }

  lemma ProduceFifo(s: Ring, t: nat, spurious: bool)
    requires Inv(s) && Enabled(s, Produce(t, spurious)) && ResultOk(s)
    ensures var s' := Apply(s, Produce(t, spurious));
      && Inv(s') && ResultOk(s') && Returned(s') == Returned(s)
      && s'.claimed == s.claimed + ClaimOf(s, Produce(t, spurious))
  {
    ApplyInv(s, Produce(t, spurious));
    assert ProducerOk(s, t);
  }

  lemma {:induction false} RunFifo(s: Ring, run: seq<Label>)
    requires Inv(s) && EnabledAll(s, run) && ResultOk(s)
    ensures Inv(ApplyAll(s, run))
    ensures ApplyAll(s, run).claimed == s.claimed + Claims(s, run)
    ensures Returned(ApplyAll(s, run)) == Returned(s) + Results(s, run)
    decreases |run|
  {
    if run == [] {
      assert Claims(s, run) == [] && Results(s, run) == [];
    } else {
      var s' := Apply(s, run[0]);
      StepFifo(s, run[0]);
      RunFifo(s', run[1..]);
      Associate(s.claimed, ClaimOf(s, run[0]), Claims(s', run[1..]));
      Associate(Returned(s), ResultOf(s, run[0]), Results(s', run[1..]));
    }
  }

  /** Over every run the handles pop returned are a prefix of the handles in claim order:
      nothing is lost, repeated, invented or overtaken, whoever pushed it. */
  lemma Fifo(size: nat, threads: nat, run: seq<Label>)
    requires 2 <= size && EnabledAll(Init(size, threads), run)
    ensures Results(Init(size, threads), run) <= Claims(Init(size, threads), run)
    ensures |Claims(Init(size, threads), run)| <= |Results(Init(size, threads), run)| + size + 1
  {
    var start := Init(size, threads);
    InitInv(size, threads);
    RunFifo(start, run);
    RunSize(start, run);
    var end := ApplyAll(start, run);
    assert end.claimed == Claims(start, run);
    assert Returned(end) == Results(start, run);
  }

  // ----- retries are paid for by other producers -----

  predicate Stale(s: Ring, t: nat)
    requires t < |s.producer|
  {
    (s.producer[t].LoadSeq? || s.producer[t].ClaimPos?) && s.producer[t].pos != s.enqueue
  }

  /** Thread t goes round the loop once more, and not for a spurious failure. */
  predicate Beaten(s: Ring, l: Label, t: nat)
    requires Enabled(s, l)
  {
    && l.Produce? && l.t == t
    && ((s.producer[t].LoadSeq? && Apply(s, l).producer[t].LoadPos?)
        || (s.producer[t].ClaimPos? && !l.spurious && Apply(s, l).producer[t].LoadSeq?))
  }

  function Defeats(s: Ring, run: seq<Label>, t: nat): nat
    requires EnabledAll(s, run)
    decreases |run|
  {
    if run == [] then 0
    else Count(Beaten(s, run[0], t)) + Defeats(Apply(s, run[0]), run[1..], t)
  }

  predicate ClaimedByOther(s: Ring, l: Label, t: nat)
    requires Enabled(s, l)
  {
    l.Produce? && l.t != t && Apply(s, l).enqueue != s.enqueue
  }

  function ClaimsOfOthers(s: Ring, run: seq<Label>, t: nat): nat
    requires EnabledAll(s, run)
    decreases |run|
  {
    if run == [] then 0
    else Count(ClaimedByOther(s, run[0], t)) + ClaimsOfOthers(Apply(s, run[0]), run[1..], t)
  }

  lemma StepRetry(s: Ring, l: Label, t: nat)
    requires Inv(s) && Enabled(s, l) && t < |s.producer|
    ensures |Apply(s, l).producer| == |s.producer|
    ensures Count(Stale(Apply(s, l), t)) + Count(Beaten(s, l, t))
              <= Count(Stale(s, t)) + Count(ClaimedByOther(s, l, t))
  {
    if l.Produce? {
      assert ProducerOk(s, l.t);
      if s.producer[l.t].LoadSeq? { MarkTells(s, s.producer[l.t].pos); }
    }
  }

  /** Over any run a producer goes round its loop at most once per claim of another producer
      (and once more if it entered the run with a stale position). */
  lemma {:induction false} RetryBound(s: Ring, run: seq<Label>, t: nat)
    requires Inv(s) && EnabledAll(s, run) && t < |s.producer|
    ensures |ApplyAll(s, run).producer| == |s.producer|
    ensures Defeats(s, run, t) + Count(Stale(ApplyAll(s, run), t))
              <= ClaimsOfOthers(s, run, t) + Count(Stale(s, t))
    decreases |run|
  {
    if run != [] {
      StepRetry(s, run[0], t);
      ApplyInv(s, run[0]);
      RetryBound(Apply(s, run[0]), run[1..], t);
    }
  }

  // ----- the capacity must be at least two -----

  /** In every run, no more positions are claimed and not taken out than there are slots. */
  ghost predicate NeverOverfull(size: nat)
    requires 1 <= size
  {
    forall s :: Reachable(s, size) ==> |s.claimed| - |s.popped| <= size
  }

  /** A push that meets no one else. */
  function Alone(t: nat, h: Handle): seq<Label>
  {
    [CallPush(t, h), Produce(t, false), Produce(t, false), Produce(t, false), Produce(t, false), Produce(t, false)]
  }

  lemma {:induction false} RunAppend(s: Ring, a: seq<Label>, b: seq<Label>)
    requires EnabledAll(s, a) && EnabledAll(ApplyAll(s, a), b)
    ensures EnabledAll(s, a + b) && ApplyAll(s, a + b) == ApplyAll(ApplyAll(s, a), b)
    decreases |a|
  {
    if a == [] {
      assert a + b == b;
    } else {
      assert (a + b)[1..] == a[1..] + b;
      RunAppend(Apply(s, a[0]), a[1..], b);
    }
  }

  lemma PushAlone(s: Ring, t: nat, h: Handle)
    requires Sizes(s) && t < |s.producer| && s.producer[t].Away? && Mark(s, s.enqueue) == s.enqueue
    ensures EnabledAll(s, Alone(t, h))
    ensures ApplyAll(s, Alone(t, h)) ==
      s.(sequence := s.sequence[Slot(s.enqueue, |s.sequence|) := s.enqueue + 1],
         handle := s.handle[Slot(s.enqueue, |s.sequence|) := h],
         enqueue := s.enqueue + 1,
         producer := s.producer[t := Accepted],
         claimed := s.claimed + [h],
         claimant := s.claimant + [t])
  {
    var p := Produce(t, false);
    var s1 := Apply(s, CallPush(t, h));
    var s2 := Apply(s1, p);
    var s3 := Apply(s2, p);
    var s4 := Apply(s3, p);
    var s5 := Apply(s4, p);
    var s6 := Apply(s5, p);
    assert s6.producer == s.producer[t := Accepted];
    assert EnabledAll(s6, []) && ApplyAll(s6, []) == s6;
    assert EnabledAll(s5, [p]) && ApplyAll(s5, [p]) == s6;
    assert EnabledAll(s4, [p, p]) && ApplyAll(s4, [p, p]) == s6 by { assert [p, p][1..] == [p]; }
    assert EnabledAll(s3, [p, p, p]) && ApplyAll(s3, [p, p, p]) == s6 by { assert [p, p, p][1..] == [p, p]; }
    assert EnabledAll(s2, [p, p, p, p]) && ApplyAll(s2, [p, p, p, p]) == s6 by {
      assert [p, p, p, p][1..] == [p, p, p];
    }
    assert EnabledAll(s1, [p, p, p, p, p]) && ApplyAll(s1, [p, p, p, p, p]) == s6 by {
      assert [p, p, p, p, p][1..] == [p, p, p, p];
    }
    assert Alone(t, h)[1..] == [p, p, p, p, p];
  }

  /** With a single slot a second push is accepted on top of the first: the mark that says
      published at position 0 is the mark that says free at position 1. */
  lemma OneSlotOverfills(a: Handle, b: Handle) returns (s: Ring)
    ensures Reachable(s, 1) && s.claimed == [a, b] && s.popped == [] && s.handle == [b]
    ensures Sizes(s) && Mark(s, s.dequeue) != s.dequeue + 1
  {
    var start := Init(1, 2);
    PushAlone(start, 0, a);
    var middle := ApplyAll(start, Alone(0, a));
    PushAlone(middle, 1, b);
    s := ApplyAll(middle, Alone(1, b));
    RunAppend(start, Alone(0, a), Alone(1, b));
  }

  /** The ring keeps its capacity in every run if and only if it has at least two slots. */
  lemma CapacityBoundIsTight(size: nat)
    requires 1 <= size
    ensures NeverOverfull(size) <==> 2 <= size
  {
    if 2 <= size {
      forall s | Reachable(s, size) ensures |s.claimed| - |s.popped| <= size {
        ReachableInv(s, size);
      }
    } else {
      var s := OneSlotOverfills(Handle(0, 0), Handle(1, 0));
      assert Reachable(s, size) && |s.claimed| - |s.popped| == 2;
    }
  }
}
