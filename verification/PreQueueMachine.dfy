// The ring of PreSchedulerQueue.cpp as a state machine: many producers, one consumer,
// a sequence number per slot. The calls into the slot allocator are not part of it.
module PreQueueMachine {
  import opened Base
  import opened RingSlots
  import opened Handles

  /** Where a producer stands in push, after it has a handle. */
  datatype PushPc =
    | Away
    | LoadPos(h: Handle)               // before the load of m_enqueue_pos
    | LoadSeq(h: Handle, pos: nat)     // before the load of the slot's sequence
    | ClaimPos(h: Handle, pos: nat)    // before the compare-exchange of m_enqueue_pos
    | WriteHandle(h: Handle, pos: nat) // before the handle is stored
    | Publish(h: Handle, pos: nat)     // before the store of pos + 1 into sequence
    | Accepted
    | Rejected(h: Handle)              // the ring was full; the caller must undo

  /** Where the consumer stands in pop. */
  datatype PopPc =
    | Resting
    | TestSeq                          // before the load of the slot's sequence
    | ReadHandle(pos: nat)             // before the handle is read
    | FreeSlot(pos: nat, h: Handle)    // before the store of pos + size into sequence
    | Advance(pos: nat, h: Handle)     // before the store of m_dequeue_pos
    | Popped(result: Option<Handle>)

  /** The last three fields are history: handles in claim order, who claimed them, and the
      handles that left the ring. */
  datatype Ring = Ring(
    sequence: seq<nat>,
    handle: seq<Handle>,
    enqueue: nat,
    dequeue: nat,
    producer: seq<PushPc>,
    consumer: PopPc,
    claimed: seq<Handle>,
    claimant: seq<nat>,
    popped: seq<Handle>)

  function Init(size: nat, threads: nat): Ring
    requires 1 <= size
  {
    Ring(seq(size, i => i), seq(size, i => Handle(0, 0)), 0, 0,
         seq(threads, t => Away), Resting, [], [], [])
  }

  // ----- steps -----

  datatype Label =
    | CallPush(t: nat, h: Handle)
    | Produce(t: nat, spurious: bool)
    | ReturnPush(t: nat)
    | CallPop
    | Consume
    | ReturnPop

  predicate ProducerBusy(pc: PushPc)
  {
    !pc.Away? && !pc.Accepted? && !pc.Rejected?
  }

  predicate ConsumerBusy(pc: PopPc)
  {
    !pc.Resting? && !pc.Popped?
  }

  predicate Sizes(s: Ring)
  {
    1 <= |s.sequence| == |s.handle|
  }

  predicate Enabled(s: Ring, l: Label)
  {
    && Sizes(s)
    && match l
       case CallPush(t, h) => t < |s.producer| && s.producer[t].Away?
       case Produce(t, _) => t < |s.producer| && ProducerBusy(s.producer[t])
       case ReturnPush(t) => t < |s.producer| && (s.producer[t].Accepted? || s.producer[t].Rejected?)
       case CallPop => s.consumer.Resting?
       case Consume => ConsumerBusy(s.consumer)
       case ReturnPop => s.consumer.Popped?
  }

  function Goto(s: Ring, t: nat, pc: PushPc): Ring
    requires t < |s.producer|
  {
    s.(producer := s.producer[t := pc])
  }

  /** The branch on diff = sequence - pos. */
  function Compare(h: Handle, pos: nat, sequence: nat): PushPc
  {
    var diff := sequence - pos;
    if diff == 0 then ClaimPos(h, pos)
    else if diff < 0 then Rejected(h)
    else LoadPos(h)
  }

  function Claim(s: Ring, t: nat, h: Handle, pos: nat): Ring
    requires t < |s.producer|
  {
    Goto(s.(enqueue := pos + 1, claimed := s.claimed + [h], claimant := s.claimant + [t]),
         t, WriteHandle(h, pos))
  }

  function Write(s: Ring, t: nat, h: Handle, pos: nat): Ring
    requires Sizes(s) && t < |s.producer|
  {
    Goto(s.(handle := s.handle[Slot(pos, |s.sequence|) := h]), t, Publish(h, pos))
  }

  function Announce(s: Ring, t: nat, pos: nat): Ring
    requires Sizes(s) && t < |s.producer|
  {
    Goto(s.(sequence := s.sequence[Slot(pos, |s.sequence|) := pos + 1]), t, Accepted)
  }

  function ProduceStep(s: Ring, t: nat, spurious: bool): Ring
    requires Enabled(s, Produce(t, spurious))
  {
    match s.producer[t]
    case LoadPos(h) => Goto(s, t, LoadSeq(h, s.enqueue))
    case LoadSeq(h, pos) => Goto(s, t, Compare(h, pos, s.sequence[Slot(pos, |s.sequence|)]))
    case ClaimPos(h, pos) =>
      if s.enqueue == pos && !spurious then Claim(s, t, h, pos)
      else Goto(s, t, LoadSeq(h, s.enqueue))
    case WriteHandle(h, pos) => Write(s, t, h, pos)
    case Publish(h, pos) => Announce(s, t, pos)
  }

  function Release(s: Ring, pos: nat, h: Handle): Ring
    requires Sizes(s)
  {
    s.(sequence := s.sequence[Slot(pos, |s.sequence|) := pos + |s.sequence|],
       consumer := Advance(pos, h),
       popped := s.popped + [h])
  }

  function ConsumeStep(s: Ring): Ring
    requires Enabled(s, Consume)
  {
    match s.consumer
    case TestSeq =>
      var seen := s.sequence[Slot(s.dequeue, |s.sequence|)];
      s.(consumer := if seen != s.dequeue + 1 then Popped(None) else ReadHandle(s.dequeue))
    case ReadHandle(pos) => s.(consumer := FreeSlot(pos, s.handle[Slot(pos, |s.sequence|)]))
    case FreeSlot(pos, h) => Release(s, pos, h)
    case Advance(pos, h) => s.(dequeue := pos + 1, consumer := Popped(Some(h)))
  }

  function Apply(s: Ring, l: Label): Ring
    requires Enabled(s, l)
  {
    match l
    case CallPush(t, h) => Goto(s, t, LoadPos(h))
    case Produce(t, spurious) => ProduceStep(s, t, spurious)
    case ReturnPush(t) => Goto(s, t, Away)
    case CallPop => s.(consumer := TestSeq)
    case Consume => ConsumeStep(s)
    case ReturnPop => s.(consumer := Resting)
  }

  predicate EnabledAll(s: Ring, run: seq<Label>)
    decreases |run|
  {
    run == [] || (Enabled(s, run[0]) && EnabledAll(Apply(s, run[0]), run[1..]))
  }

  function ApplyAll(s: Ring, run: seq<Label>): Ring
    requires EnabledAll(s, run)
    decreases |run|
  {
    if run == [] then s else ApplyAll(Apply(s, run[0]), run[1..])
  }

  // ----- the invariant -----

  /** The first position not yet taken out: between the consumer's two stores the slot is
      already free although m_dequeue_pos still points at it. */
  function Front(s: Ring): nat
  {
    if s.consumer.Advance? then s.dequeue + 1 else s.dequeue
  }

  function Mark(s: Ring, p: nat): nat
    requires Sizes(s)
  {
    s.sequence[Slot(p, |s.sequence|)]
  }

  ghost predicate Bounds(s: Ring)
    requires Sizes(s)
  {
    && Front(s) <= s.enqueue <= Front(s) + |s.sequence|
    && |s.claimed| == |s.claimant| == s.enqueue
    && s.popped == s.claimed[..Front(s)]
  }

  /** Sequence numbers: p or p + 1 at a claimed position, p at a position still to come. */
  ghost predicate MarkOk(s: Ring, p: nat)
    requires Sizes(s) && Bounds(s) && Front(s) <= p
  {
    if p < s.enqueue then
      && (Mark(s, p) == p || Mark(s, p) == p + 1)
      && (Mark(s, p) == p + 1 ==> s.handle[Slot(p, |s.sequence|)] == s.claimed[p])
      && (Mark(s, p) == p ==> WritingAt(s, s.claimant[p], p))
    else
      Mark(s, p) == p
  }

  ghost predicate Marks(s: Ring)
    requires Sizes(s) && Bounds(s)
  {
    forall p :: Front(s) <= p < Front(s) + |s.sequence| ==> MarkOk(s, p)
  }

  predicate WritingAt(s: Ring, t: nat, p: nat)
  {
    && t < |s.producer|
    && (s.producer[t].WriteHandle? || s.producer[t].Publish?)
    && s.producer[t].pos == p
  }

  ghost predicate ProducerOk(s: Ring, t: nat)
    requires Sizes(s) && Bounds(s) && t < |s.producer|
  {
    match s.producer[t]
    case LoadSeq(_, pos) => pos <= s.enqueue
    case ClaimPos(_, pos) => pos <= s.enqueue && pos < Front(s) + |s.sequence|
    case WriteHandle(h, pos) =>
      && Front(s) <= pos < s.enqueue && Mark(s, pos) == pos
      && s.claimed[pos] == h && s.claimant[pos] == t
    case Publish(h, pos) =>
      && Front(s) <= pos < s.enqueue && Mark(s, pos) == pos
      && s.claimed[pos] == h && s.claimant[pos] == t
      && s.handle[Slot(pos, |s.sequence|)] == h
    case _ => true
  }

  ghost predicate ProducersOk(s: Ring)
    requires Sizes(s) && Bounds(s)
  {
    forall t :: 0 <= t < |s.producer| ==> ProducerOk(s, t)
  }

  ghost predicate ConsumerOk(s: Ring)
    requires Sizes(s) && Bounds(s)
  {
    match s.consumer
    case ReadHandle(pos) => pos == s.dequeue < s.enqueue && Mark(s, pos) == pos + 1
    case FreeSlot(pos, h) =>
      pos == s.dequeue < s.enqueue && Mark(s, pos) == pos + 1 && h == s.claimed[pos]
    case Advance(pos, h) => pos == s.dequeue < s.enqueue && h == s.claimed[pos]
    case _ => true
  }

  /** The capacity bound is part of it: with one slot the marks are ambiguous. */
  ghost predicate Inv(s: Ring)
  {
    Sizes(s) && 2 <= |s.sequence| && Bounds(s) && Marks(s) && ProducersOk(s) && ConsumerOk(s)
  }

  // ----- the invariant holds in every run -----

  lemma InitInv(size: nat, threads: nat)
    requires 2 <= size
    ensures Inv(Init(size, threads))
  {
    var s := Init(size, threads);
    forall p | 0 <= p < size ensures MarkOk(s, p) {
      assert Slot(p, size) == p;
    }
  }

  lemma GotoInv(s: Ring, t: nat, pc: PushPc)
    requires Inv(s) && t < |s.producer|
    requires !s.producer[t].WriteHandle? && !s.producer[t].Publish?
    requires ProducerOk(Goto(s, t, pc), t) && !pc.WriteHandle? && !pc.Publish?
    ensures Inv(Goto(s, t, pc))
  {
    var s' := Goto(s, t, pc);
    forall u | 0 <= u < |s.producer| ensures ProducerOk(s', u) { assert ProducerOk(s, u); }
    forall p | Front(s') <= p < Front(s') + |s.sequence| ensures MarkOk(s', p) { assert MarkOk(s, p); }
  }

  lemma ClaimInv(s: Ring, t: nat, h: Handle, pos: nat)
    requires Inv(s) && t < |s.producer| && s.producer[t] == ClaimPos(h, pos) && s.enqueue == pos
    ensures Inv(Claim(s, t, h, pos))
  {
    var s' := Claim(s, t, h, pos);
    assert ProducerOk(s, t) && MarkOk(s, pos);
    forall u | 0 <= u < |s.producer| ensures ProducerOk(s', u) { assert ProducerOk(s, u); }
    forall p | Front(s') <= p < Front(s') + |s.sequence| ensures MarkOk(s', p) { assert MarkOk(s, p); }
  }

  lemma WriteInv(s: Ring, t: nat, h: Handle, pos: nat)
    requires Inv(s) && t < |s.producer| && s.producer[t] == WriteHandle(h, pos)
    ensures Inv(Write(s, t, h, pos))
  {
    var s' := Write(s, t, h, pos);
    assert ProducerOk(s, t);
    OtherSlots(pos, Front(s), |s.sequence|);
    forall u | 0 <= u < |s.producer| ensures ProducerOk(s', u) { assert ProducerOk(s, u); }
    forall p | Front(s') <= p < Front(s') + |s.sequence| ensures MarkOk(s', p) { assert MarkOk(s, p); }
  }

  lemma AnnounceInv(s: Ring, t: nat, h: Handle, pos: nat)
    requires Inv(s) && t < |s.producer| && s.producer[t] == Publish(h, pos)
    ensures Inv(Announce(s, t, pos))
  {
    var s' := Announce(s, t, pos);
    assert ProducerOk(s, t);
    OtherSlots(pos, Front(s), |s.sequence|);
    forall u | 0 <= u < |s.producer| ensures ProducerOk(s', u) { assert ProducerOk(s, u); }
    forall p | Front(s') <= p < Front(s') + |s.sequence| ensures MarkOk(s', p) { assert MarkOk(s, p); }
  }

  lemma ReleaseInv(s: Ring, pos: nat, h: Handle)
    requires Inv(s) && s.consumer == FreeSlot(pos, h)
    ensures Inv(Release(s, pos, h))
  {
    var s' := Release(s, pos, h);
    OtherSlots(pos, Front(s), |s.sequence|);
    SlotRepeats(pos, |s.sequence|);
    forall u | 0 <= u < |s.producer| ensures ProducerOk(s', u) { assert ProducerOk(s, u); }
    forall p | Front(s') <= p < Front(s') + |s.sequence| ensures MarkOk(s', p) {
      if p < pos + |s.sequence| { assert MarkOk(s, p); }
    }
  }

  /** What a load of the sequence at a position no later than m_enqueue_pos can tell. */
  lemma MarkTells(s: Ring, pos: nat)
    requires Inv(s) && pos <= s.enqueue
    ensures Mark(s, pos) == pos ==> pos < Front(s) + |s.sequence|
    ensures Mark(s, pos) < pos <==> pos == s.enqueue == Front(s) + |s.sequence|
    ensures Mark(s, pos) > pos ==> pos < s.enqueue
  {
    var p := SlotWindow(pos, Front(s), |s.sequence|);
    assert Mark(s, pos) == Mark(s, p) && MarkOk(s, p);
  }

  lemma ProduceInv(s: Ring, t: nat, spurious: bool)
    requires Inv(s) && Enabled(s, Produce(t, spurious))
    ensures Inv(ProduceStep(s, t, spurious))
  {
    assert ProducerOk(s, t);
    match s.producer[t]
    case LoadPos(h) => GotoInv(s, t, LoadSeq(h, s.enqueue));
    case LoadSeq(h, pos) => MarkTells(s, pos); GotoInv(s, t, Compare(h, pos, Mark(s, pos)));
    case ClaimPos(h, pos) =>
      if s.enqueue == pos && !spurious { ClaimInv(s, t, h, pos); }
      else { GotoInv(s, t, LoadSeq(h, s.enqueue)); }
    case WriteHandle(h, pos) => WriteInv(s, t, h, pos);
    case Publish(h, pos) => AnnounceInv(s, t, h, pos);
  }

  lemma ConsumerGotoInv(s: Ring, s': Ring)
    requires Inv(s) && s' == s.(consumer := s'.consumer, dequeue := s'.dequeue)
    requires Front(s') == Front(s) && ConsumerOk(s')
    ensures Inv(s')
  {
    forall u | 0 <= u < |s.producer| ensures ProducerOk(s', u) { assert ProducerOk(s, u); }
    forall p | Front(s') <= p < Front(s') + |s.sequence| ensures MarkOk(s', p) { assert MarkOk(s, p); }
  }

  lemma ConsumeInv(s: Ring)
    requires Inv(s) && Enabled(s, Consume)
    ensures Inv(ConsumeStep(s))
  {
    match s.consumer
    case TestSeq => MarkTells(s, s.dequeue); ConsumerGotoInv(s, ConsumeStep(s));
    case ReadHandle(pos) => assert MarkOk(s, pos); ConsumerGotoInv(s, ConsumeStep(s));
    case FreeSlot(pos, h) => ReleaseInv(s, pos, h);
    case Advance(pos, h) => ConsumerGotoInv(s, ConsumeStep(s));
  }

  lemma ApplyInv(s: Ring, l: Label)
    requires Inv(s) && Enabled(s, l)
    ensures Inv(Apply(s, l))
  {
    match l
    case CallPush(t, h) => GotoInv(s, t, LoadPos(h));
    case Produce(t, spurious) => ProduceInv(s, t, spurious);
    case ReturnPush(t) => GotoInv(s, t, Away);
    case CallPop => ConsumerGotoInv(s, Apply(s, l));
    case Consume => ConsumeInv(s);
    case ReturnPop => ConsumerGotoInv(s, Apply(s, l));
  }

  lemma {:induction false} RunInv(s: Ring, run: seq<Label>)
    requires Inv(s) && EnabledAll(s, run)
    ensures Inv(ApplyAll(s, run))
    decreases |run|
  {
    if run != [] {
      ApplyInv(s, run[0]);
      RunInv(Apply(s, run[0]), run[1..]);
    }
  }

  // ----- what a user of the ring can rely on, step by step -----

  predicate Unclaimed(pc: PushPc)
  {
    pc.LoadPos? || pc.LoadSeq? || pc.ClaimPos? || pc.Rejected?
  }

  /** One step of producer t seen from outside. */
  ghost predicate ProducerEffect(s: Ring, s': Ring, t: nat)
    requires t < |s.producer|
  {
    var pc := s.producer[t];
    && |s'.producer| == |s.producer| && s'.consumer == s.consumer && Front(s') == Front(s)
    && (forall u :: 0 <= u < |s.producer| && u != t ==> s'.producer[u] == s.producer[u])
    && !s'.producer[t].Away?
    && (if pc.ClaimPos? && s'.enqueue != s.enqueue then
          && s'.claimed == s.claimed + [pc.h] && pc.pos == |s.claimed|
          && !Unclaimed(s'.producer[t])
        else
          && s'.claimed == s.claimed
          && Unclaimed(s'.producer[t]) == Unclaimed(pc)
          && (Unclaimed(pc) ==> s'.producer[t].h == pc.h))
  }

  lemma ProduceEffect(s: Ring, t: nat, spurious: bool)
    requires Inv(s) && Enabled(s, Produce(t, spurious))
    ensures Inv(Apply(s, Produce(t, spurious)))
    ensures ProducerEffect(s, Apply(s, Produce(t, spurious)), t)
  {
    ApplyInv(s, Produce(t, spurious));
    assert ProducerOk(s, t);
  }

  /** The handle the consumer has taken out and not handed over yet. */
  function Taken(pc: PopPc): Option<Handle>
  {
    match pc
    case Advance(_, h) => Some(h)
    case Popped(result) => result
    case _ => None
  }

  lemma ConsumeEffect(s: Ring)
    requires Inv(s) && Enabled(s, Consume)
    ensures var s' := Apply(s, Consume);
      && Inv(s') && s'.producer == s.producer && s'.claimed == s.claimed
      && !s'.consumer.Resting?
      && (if s.consumer.FreeSlot? then
            && Front(s) < |s.claimed| && s.consumer.h == s.claimed[Front(s)]
            && Front(s') == Front(s) + 1
            && Taken(s.consumer) == None && Taken(s'.consumer) == Some(s.consumer.h)
          else
            Front(s') == Front(s) && Taken(s'.consumer) == Taken(s.consumer))
  {
    ApplyInv(s, Consume);
  }
}
