// The ring of PostSchedulerQueue.cpp as a state machine: one producer (the scheduler), one
// consumer (an executor), a flag per slot. Redeeming the handle is a call into the slot
// allocator; here its answer is whatever the label says.
module PostQueueMachine {
  import opened Base
  import opened RingSlots
  import opened Handles

  datatype PushPc =
    | Idle
    | TestFree(h: Handle)        // before the load of active
    | WriteHandle(h: Handle)     // before the handle is stored
    | SetActive(h: Handle)       // before the store of true into active
    | CountUp                    // before m_enqueue_pos grows
    | Pushed(ok: bool)

  datatype PopPc =
    | Idle
    | TestActive                 // before the load of active
    | ReadHandle                 // before the handle is read
    | Redeeming(h: Handle)       // inside remove_action
    | ClearActive(result: Option<Option<Action>>)  // before the store of false into active
    | CountDown(result: Option<Option<Action>>)    // before m_dequeue_pos grows
    | Popped(result: Option<Option<Action>>)

  /** The last field is history: every handle that was made visible, in order. */
  datatype Ring = Ring(
    active: seq<bool>,
    handle: seq<Handle>,
    enqueue: nat,
    dequeue: nat,
    producer: PushPc,
    consumer: PopPc,
    pushed: seq<Handle>)

  function Init(size: nat): Ring
    requires 1 <= size
  {
    Ring(seq(size, i => false), seq(size, i => Handle(0, 0)), 0, 0, PushPc.Idle, PopPc.Idle, [])
  }

  // ----- steps -----

  datatype Label =
    | CallPush(h: Handle)
    | Produce
    | ReturnPush
    | CallPop
    | Consume
    | Redeemed(result: Option<Option<Action>>)  // remove_action returns
    | ReturnPop

  predicate ProducerBusy(pc: PushPc)
  {
    !pc.Idle? && !pc.Pushed?
  }

  predicate ConsumerBusy(pc: PopPc)
  {
    pc.TestActive? || pc.ReadHandle? || pc.ClearActive? || pc.CountDown?
  }

  predicate Sizes(s: Ring)
  {
    1 <= |s.active| == |s.handle|
  }

  predicate Enabled(s: Ring, l: Label)
  {
    && Sizes(s)
    && match l
       case CallPush(_) => s.producer.Idle?
       case Produce => ProducerBusy(s.producer)
       case ReturnPush => s.producer.Pushed?
       case CallPop => s.consumer.Idle?
       case Consume => ConsumerBusy(s.consumer)
       case Redeemed(_) => s.consumer.Redeeming?
       case ReturnPop => s.consumer.Popped?
  }

  function ProduceStep(s: Ring): Ring
    requires Enabled(s, Produce)
  {
    var i := Slot(s.enqueue, |s.active|);
    match s.producer
    case TestFree(h) => s.(producer := if s.active[i] then Pushed(false) else WriteHandle(h))
    case WriteHandle(h) => s.(handle := s.handle[i := h], producer := SetActive(h))
    case SetActive(h) => s.(active := s.active[i := true], producer := CountUp, pushed := s.pushed + [h])
    case CountUp => s.(enqueue := s.enqueue + 1, producer := Pushed(true))
  }

  function ConsumeStep(s: Ring): Ring
    requires Enabled(s, Consume)
  {
    var i := Slot(s.dequeue, |s.active|);
    match s.consumer
    case TestActive => s.(consumer := if s.active[i] then ReadHandle else Popped(None))
    case ReadHandle => s.(consumer := Redeeming(s.handle[i]))
    case ClearActive(result) => s.(active := s.active[i := false], consumer := CountDown(result))
    case CountDown(result) => s.(dequeue := s.dequeue + 1, consumer := Popped(result))
  }

  function Apply(s: Ring, l: Label): Ring
    requires Enabled(s, l)
  {
    match l
    case CallPush(h) => s.(producer := TestFree(h))
    case Produce => ProduceStep(s)
    case ReturnPush => s.(producer := PushPc.Idle)
    case CallPop => s.(consumer := TestActive)
    case Consume => ConsumeStep(s)
    case Redeemed(result) => s.(consumer := ClearActive(result))
    case ReturnPop => s.(consumer := PopPc.Idle)
  }

  predicate EnabledAll(s: Ring, run: seq<Label>)
    decreases |run|
  {
    run == [] || (Enabled(s, run[0]) && EnabledAll(Apply(s, run[0]), run[1..]))
  }

  function ApplyAll(s: Ring, run: seq<Label>): Ring
    requires EnabledAll(s, run)
    decreases |run|
  {
    if run == [] then s else ApplyAll(Apply(s, run[0]), run[1..])
  }

  // ----- the invariant -----

  /** The first position still flagged, and the first position not flagged yet: a flag
      changes just before the counter does. */
  function Front(s: Ring): nat
  {
    if s.consumer.CountDown? then s.dequeue + 1 else s.dequeue
  }

  function Back(s: Ring): nat
  {
    if s.producer.CountUp? then s.enqueue + 1 else s.enqueue
  }

  ghost predicate Bounds(s: Ring)
    requires Sizes(s)
  {
    Front(s) <= Back(s) <= Front(s) + |s.active| && |s.pushed| == Back(s)
  }

  ghost predicate FlagOk(s: Ring, p: nat)
    requires Sizes(s) && Bounds(s)
  {
    var i := Slot(p, |s.active|);
    && (s.active[i] <==> p < Back(s))
    && (p < Back(s) ==> s.handle[i] == s.pushed[p])
  }

  /** A flag is set exactly at the positions from Front to Back, and the handle is there. */
  ghost predicate Flags(s: Ring)
    requires Sizes(s) && Bounds(s)
  {
    forall p :: Front(s) <= p < Front(s) + |s.active| ==> FlagOk(s, p)
  }

  ghost predicate ProducerOk(s: Ring)
    requires Sizes(s) && Bounds(s)
  {
    match s.producer
    case WriteHandle(_) => Back(s) < Front(s) + |s.active|
    case SetActive(h) =>
      Back(s) < Front(s) + |s.active| && s.handle[Slot(s.enqueue, |s.active|)] == h
    case _ => true
  }

  ghost predicate ConsumerOk(s: Ring)
    requires Sizes(s) && Bounds(s)
  {
    match s.consumer
    case ReadHandle => s.dequeue < Back(s)
    case Redeeming(h) => s.dequeue < Back(s) && h == s.pushed[s.dequeue]
    case ClearActive(_) => s.dequeue < Back(s)
    case _ => true
  }

  ghost predicate Inv(s: Ring)
  {
    Sizes(s) && Bounds(s) && Flags(s) && ProducerOk(s) && ConsumerOk(s)
  }

  // ----- the invariant holds in every run -----

  lemma InitInv(size: nat)
    requires 1 <= size
    ensures Inv(Init(size))
  {
    var s := Init(size);
    forall p | 0 <= p < size ensures FlagOk(s, p) { assert Slot(p, size) == p; }
  }

  /** What a load of a flag at either end tells. */
  lemma FlagTells(s: Ring)
    requires Inv(s)
    ensures !s.producer.CountUp? ==>
      (s.active[Slot(s.enqueue, |s.active|)] <==> Back(s) == Front(s) + |s.active|)
    ensures !s.consumer.CountDown? ==>
      (s.active[Slot(s.dequeue, |s.active|)] <==> Front(s) < Back(s))
  {
    assert FlagOk(s, Front(s));
    if Back(s) == Front(s) + |s.active| {
      SlotRepeats(Front(s), |s.active|);
    } else {
      assert FlagOk(s, Back(s));
    }
  }

  lemma FlagsFramed(s: Ring, s': Ring, pos: nat)
    requires Inv(s) && Sizes(s') && |s'.active| == |s.active| && Bounds(s')
    requires s.pushed <= s'.pushed
    requires Front(s) <= pos < Front(s) + |s.active|
    requires forall i :: 0 <= i < |s.active| && i != Slot(pos, |s.active|) ==>
      s'.active[i] == s.active[i] && s'.handle[i] == s.handle[i]
    requires Front(s) <= Front(s') <= Front(s) + 1 && (Front(s') > Front(s) ==> pos == Front(s))
    requires Back(s) <= Back(s') <= Back(s) + 1 && (Back(s') > Back(s) ==> pos == Back(s))
    requires Front(s') == Front(s) ==> FlagOk(s', pos)
    requires Front(s') > Front(s) ==> FlagOk(s', pos + |s.active|)
    ensures Flags(s')
  {
    OtherSlots(pos, Front(s), |s.active|);
    forall p | Front(s') <= p < Front(s') + |s.active| ensures FlagOk(s', p) {
      if p < Front(s) + |s.active| && p != pos { assert FlagOk(s, p); }
    }
  }

  lemma ProduceInv(s: Ring)
    requires Inv(s) && Enabled(s, Produce)
    ensures Inv(ProduceStep(s))
  {
    var s' := ProduceStep(s);
    FlagTells(s);
    match s.producer
    case WriteHandle(_) => assert FlagOk(s, s.enqueue); FlagsFramed(s, s', s.enqueue);
    case SetActive(_) => FlagsFramed(s, s', s.enqueue);
    case TestFree(_) => Unchanged(s, s');
    case CountUp => Unchanged(s, s');
  }

  lemma ConsumeInv(s: Ring)
    requires Inv(s) && Enabled(s, Consume)
    ensures Inv(ConsumeStep(s))
  {
    var s' := ConsumeStep(s);
    FlagTells(s);
    match s.consumer
    case ClearActive(_) =>
      SlotRepeats(s.dequeue, |s.active|);
      FlagsFramed(s, s', s.dequeue);
    case ReadHandle => assert FlagOk(s, s.dequeue); Unchanged(s, s');
    case TestActive => Unchanged(s, s');
    case CountDown(_) => Unchanged(s, s');
  }

  /** Steps that touch no slot and move neither end. */
  lemma Unchanged(s: Ring, s': Ring)
    requires Inv(s)
    requires s'.active == s.active && s'.handle == s.handle && s'.pushed == s.pushed
    requires Front(s') == Front(s) && Back(s') == Back(s)
    ensures Sizes(s') && Bounds(s') && Flags(s')
  {
    forall p | Front(s') <= p < Front(s') + |s.active| ensures FlagOk(s', p) { assert FlagOk(s, p); }
  }

  lemma ApplyInv(s: Ring, l: Label)
    requires Inv(s) && Enabled(s, l)
    ensures Inv(Apply(s, l))
  {
    if l == Produce {
      ProduceInv(s);
    } else if l == Consume {
      ConsumeInv(s);
    } else {
      Unchanged(s, Apply(s, l));
    }
  }

  lemma {:induction false} RunInv(s: Ring, run: seq<Label>)
    requires Inv(s) && EnabledAll(s, run)
    ensures Inv(ApplyAll(s, run)) && |ApplyAll(s, run).active| == |s.active|
    decreases |run|
  {
    if run != [] {
      ApplyInv(s, run[0]);
      RunInv(Apply(s, run[0]), run[1..]);
    }
  }

  // ----- what a user of the ring can rely on, step by step -----

  lemma ProduceEffect(s: Ring)
    requires Inv(s) && Enabled(s, Produce)
    ensures var s' := Apply(s, Produce);
      && Inv(s') && s'.consumer == s.consumer && s'.dequeue == s.dequeue
      && s'.producer != PushPc.Idle
      && s'.pushed == s.pushed + (if s.producer.SetActive? then [s.producer.h] else [])
      && (s'.producer.CountUp? <==> s.producer.SetActive?)
  {
    ApplyInv(s, Produce);
  }

  lemma ConsumeEffect(s: Ring)
    requires Inv(s) && Enabled(s, Consume)
    ensures var s' := Apply(s, Consume);
      && Inv(s') && s'.producer == s.producer && s'.pushed == s.pushed
      && s'.consumer != PopPc.Idle
      && Front(s') == Front(s) + (if s.consumer.ClearActive? then 1 else 0)
      && (s'.consumer.Redeeming? ==> Front(s') < |s'.pushed| && s'.consumer.h == s'.pushed[Front(s')])
  {
    ApplyInv(s, Consume);
  }
}
