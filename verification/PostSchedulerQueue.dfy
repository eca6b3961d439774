// An executor's ring as a class over the slot allocator: push is the scheduler's, pop the
// executor's, every access to shared memory is a step of the machine, and before each access the
// other side may take any steps.
module PostSchedulerQueue {
  import opened Base
  import opened Binary
  import opened RingSlots
  import opened Handles
  import opened PostQueueMachine
  import S = StorageMachine
  import A = ActionStorage
  import R = StorageResults

  /** What only grows. */
  ghost predicate Later(s: Ring, s': Ring)
  {
    |s'.active| == |s.active| && s.pushed <= s'.pushed && Front(s) <= Front(s')
  }

  /** The step leads from s to s'. */
  ghost predicate Did(s: Ring, s': Ring, l: Label)
  {
    Enabled(s, l) && s' == Apply(s, l)
  }

  datatype Side = Scheduler | Executor

  function Actor(l: Label): Side
  {
    if l.CallPush? || l.Produce? || l.ReturnPush? then Scheduler else Executor
  }

  /** The part of the state that only the side changes. */
  predicate SameSide(s: Ring, s': Ring, who: Side)
  {
    match who
    case Scheduler => s'.producer == s.producer && s'.enqueue == s.enqueue && s'.pushed == s.pushed
    case Executor => s'.consumer == s.consumer && s'.dequeue == s.dequeue
  }

  lemma StepLater(s: Ring, l: Label)
    requires Inv(s) && Enabled(s, l)
    ensures Inv(Apply(s, l)) && Later(s, Apply(s, l))
    ensures forall who :: who != Actor(l) ==> SameSide(s, Apply(s, l), who)
  {
    ApplyInv(s, l);
  }

  ghost predicate IsFull(s: Ring)
  {
    |s.pushed| - Front(s) == |s.active|
  }

  ghost predicate IsEmpty(s: Ring)
  {
    |s.pushed| == Front(s)
  }

  class Queue {
    const storage: A.Allocator
    const active: array<bool>
    const handle: array<Handle>
    const mask: nat
    ghost const bits: nat
    var enqueue: nat
    var dequeue: nat

    // Where the two sides stand, and what the other side does before each access.
    var producer: PushPc
    var consumer: PopPc
    var schedule: seq<seq<Label>>

    ghost var pushed: seq<Handle>
    // What pop answered for the handles that it took out.
    ghost var answers: seq<Option<Option<Action>>>

    ghost function State(): Ring
      reads this, active, handle
    {
      Ring(active[..], handle[..], enqueue, dequeue, producer, consumer, pushed)
    }

    ghost predicate Valid()
      reads this, active, handle
    {
      && Inv(State())
      && active.Length == Pow2(bits) && mask == active.Length - 1
    }

    /** Only handles that the storage gave out are in the ring or on their way into it. */
    ghost predicate Backed()
      reads this, storage
    {
      && (forall k :: 0 <= k < |pushed| ==> pushed[k] in storage.issued)
      && (producer.TestFree? || producer.WriteHandle? || producer.SetActive? ==> producer.h in storage.issued)
    }

    constructor (queueSize: nat, storage: A.Allocator, schedule: seq<seq<Label>>)
      ensures Valid() && Backed() && this.storage == storage && this.schedule == schedule
      ensures State() == Init(BitCeil(queueSize)) && answers == []
      ensures fresh(active) && fresh(handle)
    {
      var size := BitCeil(queueSize);
      ghost var k: nat :| size == Pow2(k);
      this.storage := storage;
      active := new bool[size](_ => false);
      handle := new Handle[size](_ => Handle(0, 0));
      mask := size - 1;
      bits := k;
      enqueue, dequeue := 0, 0;
      producer, consumer := PushPc.Idle, PopPc.Idle;
      this.schedule := schedule;
      pushed, answers := [], [];
      new;
      assert State() == Init(BitCeil(queueSize));
      InitInv(BitCeil(queueSize));
    }

    /** pos & m_mask */
    function Index(pos: nat): (i: nat)
      requires Valid()
      reads this, active, handle
      ensures i == Slot(pos, active.Length) && i < active.Length == handle.Length
    {
      MaskPicksSlot(pos, bits);
      BitAnd(pos, mask)
    }

    // ----- one method per access to shared memory -----

    /** slot.active.load() in push */
    method TestFlagFree(h: Handle) returns (taken: bool)
      requires Valid() && producer == TestFree(h)
      modifies this`producer
      ensures Valid() && Did(old(State()), State(), Produce)
      ensures taken <==> IsFull(State())
      ensures producer == if taken then Pushed(false) else WriteHandle(h)
    {
      FlagTells(State());
      StepLater(State(), Produce);
      taken := active[Index(enqueue)];
      producer := if taken then Pushed(false) else WriteHandle(h);
    }

    /** slot.action_handle = action_handle */
    method StoreHandle(h: Handle)
      requires Valid() && producer == WriteHandle(h)
      modifies this`producer, handle
      ensures Valid() && Did(old(State()), State(), Produce)
      ensures producer == SetActive(h)
    {
      StepLater(State(), Produce);
      handle[Index(enqueue)] := h;
      producer := SetActive(h);
    }

    /** slot.active.store(true) */
    method RaiseFlag(h: Handle)
      requires Valid() && producer == SetActive(h)
      modifies this`producer, this`pushed, active
      ensures Valid() && Did(old(State()), State(), Produce)
      ensures producer == CountUp && pushed == old(pushed) + [h]
    {
      StepLater(State(), Produce);
      active[Index(enqueue)] := true;
      pushed := pushed + [h];
      producer := CountUp;
    }

    /** m_enqueue_pos++ */
    method CountEnqueue()
      requires Valid() && producer == CountUp
      modifies this`producer, this`enqueue
      ensures Valid() && Did(old(State()), State(), Produce)
      ensures producer == Pushed(true) && enqueue == old(enqueue) + 1
    {
      StepLater(State(), Produce);
      enqueue := enqueue + 1;
      producer := Pushed(true);
    }

    /** slot.active.load() in pop */
    method TestFlagActive() returns (there: bool)
      requires Valid() && consumer == TestActive
      modifies this`consumer
      ensures Valid() && Did(old(State()), State(), Consume)
      ensures there <==> !IsEmpty(State())
      ensures consumer == if there then ReadHandle else Popped(None)
    {
      FlagTells(State());
      StepLater(State(), Consume);
      there := active[Index(dequeue)];
      consumer := if there then ReadHandle else Popped(None);
    }

    /** slot.action_handle, on the way into remove_action */
    method LoadHandle() returns (h: Handle)
      requires Valid() && consumer == ReadHandle
      modifies this`consumer
      ensures Valid() && Did(old(State()), State(), Consume)
      ensures consumer == Redeeming(h) && dequeue < |pushed| && h == pushed[dequeue]
    {
      assert FlagOk(State(), dequeue);
      StepLater(State(), Consume);
      h := handle[Index(dequeue)];
      consumer := Redeeming(h);
    }

    /** remove_action returned. */
    method Redeem(h: Handle, result: Option<Option<Action>>)
      requires Valid() && consumer == Redeeming(h)
      modifies this`consumer
      ensures Valid() && Did(old(State()), State(), Redeemed(result))
      ensures consumer == ClearActive(result)
    {
      StepLater(State(), Redeemed(result));
      consumer := ClearActive(result);
    }

    /** slot.active.store(false) */
    method LowerFlag(result: Option<Option<Action>>)
      requires Valid() && consumer == ClearActive(result)
      modifies this`consumer, active
      ensures Valid() && Did(old(State()), State(), Consume)
      ensures consumer == CountDown(result)
    {
      StepLater(State(), Consume);
      active[Index(dequeue)] := false;
      consumer := CountDown(result);
    }

    /** m_dequeue_pos++ */
    method CountDequeue(result: Option<Option<Action>>)
      requires Valid() && consumer == CountDown(result)
      modifies this`consumer, this`dequeue
      ensures Valid() && Did(old(State()), State(), Consume)
      ensures consumer == Popped(result) && dequeue == old(dequeue) + 1
    {
      StepLater(State(), Consume);
      dequeue := dequeue + 1;
      consumer := Popped(result);
    }

    // ----- the other side -----

    /** Can the side take this step? The scheduler only passes on handles that were given out. */
    predicate Ready(l: Label)
      reads this, storage
    {
      match l
      case CallPush(h) => producer.Idle? && h in storage.issued
      case Produce => ProducerBusy(producer)
      case ReturnPush => producer.Pushed?
      case CallPop => consumer.Idle?
      case Consume => ConsumerBusy(consumer)
      case Redeemed(_) => consumer.Redeeming?
      case ReturnPop => consumer.Popped?
    }

    method DoProduce()
      requires Valid() && Ready(Produce)
      modifies this`producer, this`enqueue, this`pushed, active, handle
      ensures Valid() && (old(Backed()) ==> Backed()) && Did(old(State()), State(), Produce)
    {
      hide Inv, Did;
      match producer
      case TestFree(h) => var _ := TestFlagFree(h);
      case WriteHandle(h) => StoreHandle(h);
      case SetActive(h) => RaiseFlag(h);
      case CountUp => CountEnqueue();
    }

    method DoConsume()
      requires Valid() && Ready(Consume)
      modifies this`consumer, this`dequeue, active
      ensures Valid() && Did(old(State()), State(), Consume)
    {
      hide Inv, Did;
      match consumer
      case TestActive => var _ := TestFlagActive();
      case ReadHandle => var _ := LoadHandle();
      case ClearActive(result) => LowerFlag(result);
      case CountDown(result) => CountDequeue(result);
    }

    /** A call begins or returns. */
    method Turn(l: Label)
      requires Valid() && Ready(l) && !l.Produce? && !l.Consume?
      modifies this`producer, this`consumer
      ensures Valid() && (old(Backed()) ==> Backed()) && Did(old(State()), State(), l)
    {
      StepLater(State(), l);
      match l
      case CallPush(h) => producer := TestFree(h);
      case ReturnPush => producer := PushPc.Idle;
      case CallPop => consumer := TestActive;
      case Redeemed(result) => consumer := ClearActive(result);
      case ReturnPop => consumer := PopPc.Idle;
    }

    /** One step of the other side. */
    method Do(l: Label, ghost who: Side)
      requires Valid() && Ready(l) && Actor(l) != who
      modifies this`producer, this`enqueue, this`pushed, this`consumer, this`dequeue, active, handle
      ensures Valid() && (old(Backed()) ==> Backed())
      ensures Later(old(State()), State()) && SameSide(old(State()), State(), who)
    {
      hide Inv;
      ghost var s := State();
      if l.Produce? {
        DoProduce();
      } else if l.Consume? {
        DoConsume();
      } else {
        Turn(l);
      }
      StepLater(s, l);
    }

    /** Whatever the other side does before the next access of this one. */
    method Others(who: Side)
      requires Valid()
      modifies this`producer, this`enqueue, this`pushed, this`consumer, this`dequeue, this`schedule, active, handle
      ensures Valid() && (old(Backed()) ==> Backed())
      ensures Later(old(State()), State()) && SameSide(old(State()), State(), who)
      ensures if old(schedule) == [] then schedule == [] && State() == old(State())
              else |schedule| == |old(schedule)| - 1
    {
      hide Inv;
      if schedule == [] { return; }
      var batch := schedule[0];
      schedule := schedule[1..];
      for k := 0 to |batch|
        invariant Valid() && (old(Backed()) ==> Backed())
        invariant Later(old(State()), State()) && SameSide(old(State()), State(), who)
        invariant schedule == old(schedule)[1..]
      {
        if Actor(batch[k]) != who && Ready(batch[k]) {
          Do(batch[k], who);
        }
      }
    }

    // ----- push -----

    method BeginPush(h: Handle)
      requires Valid() && producer.Idle?
      modifies this`producer
      ensures Valid() && State() == old(State()).(producer := TestFree(h))
      ensures old(Backed()) && h in storage.issued ==> Backed()
      ensures IsFull(State()) == old(IsFull(State()))
    {
      StepLater(State(), CallPush(h));
      producer := TestFree(h);
    }

    method EndPush()
      requires Valid() && producer.Pushed?
      modifies this`producer, this`consumer
      ensures Valid() && (old(Backed()) ==> Backed()) && State() == old(State()).(producer := PushPc.Idle)
    {
      Turn(ReturnPush);
    }

    /** The slot was seen free: it is filled, flagged and counted. */
    method Fill(h: Handle)
      requires Valid() && producer == WriteHandle(h)
      modifies this, active, handle
      ensures Valid() && (old(Backed()) ==> Backed()) && Later(old(State()), State()) && producer == Pushed(true)
      ensures pushed == old(pushed) + [h] && enqueue == old(enqueue) + 1 && answers == old(answers)
      ensures old(schedule) == [] ==> schedule == [] && dequeue == old(dequeue) && consumer == old(consumer)
    {
      hide Inv, Did;
      Others(Scheduler);
      ghost var s1 := State();
      StoreHandle(h);
      DidLater(s1, State(), Produce);
      Others(Scheduler);
      ghost var s2 := State();
      RaiseFlag(h);
      DidLater(s2, State(), Produce);
      Others(Scheduler);
      ghost var s3 := State();
      CountEnqueue();
      DidLater(s3, State(), Produce);
    }

    /** push: the handle becomes the newest in the ring, unless at the load of the flag every slot
        was occupied. */
    method Push(h: Handle) returns (ok: bool, ghost moment: Ring)
      requires Valid() && producer.Idle?
      modifies this, active, handle
      ensures Valid() && Later(old(State()), State()) && producer.Idle?
      ensures old(Backed()) && h in storage.issued ==> Backed()
      ensures answers == old(answers)
      ensures ok ==> pushed == old(pushed) + [h] && enqueue == old(enqueue) + 1
      ensures !ok ==>
        && pushed == old(pushed) && enqueue == old(enqueue)
        && Later(old(State()), moment) && IsFull(moment) && Later(moment, State())
      ensures old(schedule) == [] ==>
        schedule == [] && ok == !old(IsFull(State())) && dequeue == old(dequeue) && consumer == old(consumer)
    {
      hide Inv, Did;
      BeginPush(h);
      Others(Scheduler);
      ghost var s := State();
      var taken := TestFlagFree(h);
      DidLater(s, State(), Produce);
      moment := State();
      ok := !taken;
      if ok {
        Fill(h);
      }
      EndPush();
    }

    // ----- pop -----

    method BeginPop()
      requires Valid() && Backed() && consumer.Idle?
      modifies this`producer, this`consumer
      ensures Valid() && Backed() && State() == old(State()).(consumer := TestActive)
      ensures IsEmpty(State()) == old(IsEmpty(State()))
    {
      Turn(CallPop);
    }

    method EndPop()
      requires Valid() && Backed() && consumer.Popped?
      modifies this`producer, this`consumer
      ensures Valid() && Backed() && State() == old(State()).(consumer := PopPc.Idle)
    {
      Turn(ReturnPop);
    }

    /** The flag was seen set: the handle is read. */
    method ReadFront() returns (h: Handle)
      requires Valid() && Backed() && consumer == ReadHandle
      modifies this, active, handle
      ensures Valid() && Backed() && Later(old(State()), State())
      ensures consumer == Redeeming(h) && dequeue == old(dequeue) < |pushed| && h == pushed[dequeue]
      ensures answers == old(answers)
      ensures old(schedule) == [] ==> schedule == [] && pushed == old(pushed) && producer == old(producer)
    {
      hide Inv, Did;
      Others(Executor);
      ghost var s := State();
      h := LoadHandle();
      DidLater(s, State(), Consume);
    }

    /** The handle was redeemed, or was refused: either way its slot of the ring is freed. */
    method FreeFront(h: Handle, result: Option<Option<Action>>)
      requires Valid() && Backed() && consumer == Redeeming(h)
      modifies this, active, handle
      ensures Valid() && Backed() && Later(old(State()), State())
      ensures consumer == Popped(result) && dequeue == old(dequeue) + 1 && answers == old(answers)
      ensures old(schedule) == [] ==> schedule == [] && pushed == old(pushed) && producer == old(producer)
    {
      hide Inv, Did;
      ghost var s0 := State();
      Redeem(h, result);
      DidLater(s0, State(), Redeemed(result));
      Others(Executor);
      ghost var s1 := State();
      LowerFlag(result);
      DidLater(s1, State(), Consume);
      Others(Executor);
      ghost var s2 := State();
      CountDequeue(result);
      DidLater(s2, State(), Consume);
    }

    /** The flag was seen set: the handle is redeemed and its slot of the ring freed. */
    method TakeFront(t: nat) returns (result: Option<Option<Action>>, h: Handle)
      requires Valid() && Backed() && consumer == ReadHandle
      requires storage.Valid() && t < |storage.registers| && storage.registers[t].Idle?
      modifies this, active, handle, storage, storage.next, storage.generation, storage.action
      ensures Valid() && Backed() && Later(old(State()), State()) && consumer == Popped(result)
      ensures storage.Valid() && |storage.registers| == |old(storage.registers)| && storage.registers[t].Idle?
      ensures A.Kept(old(storage.State()), storage.State())
      ensures dequeue == old(dequeue) + 1 <= |pushed| && h == pushed[old(dequeue)] && answers == old(answers)
      ensures h in old(storage.issued) && R.Spent(storage.State(), h)
      ensures result.Some? ==> result == Some(Some(old(storage.issued)[h]))
      ensures storage.deeds[t] == old(storage.deeds[t]) + if result.Some? then [A.Redeemed(h)] else []
      ensures old(schedule) == [] ==> schedule == [] && pushed == old(pushed) && producer == old(producer)
      ensures old(storage.schedule) == [] ==>
        && storage.schedule == [] && result.Some? == old(S.IsLive(storage.State(), h))
        && storage.free == (if result.Some? then [h.index] + old(storage.free) else old(storage.free))
        && storage.LiveOnes() == if result.Some? then old(storage.LiveOnes()) - {h} else old(storage.LiveOnes())
    {
      hide Inv, Did, S.Inv, S.LiveHandles;
      h := ReadFront();
      ghost var s := State();
      result := storage.RemoveAction(t, h);
      FreeFront(h, result);
    }

    /** pop: the oldest handle in the ring is redeemed, unless at the load of the flag there was
        none. Its registration is spent afterwards whoever spent it, and what comes back is the
        very action that was registered. */
    method Pop(t: nat) returns (result: Option<Option<Action>>, ghost taken: Option<Handle>, ghost moment: Ring)
      requires Valid() && Backed() && consumer.Idle?
      requires storage.Valid() && t < |storage.registers| && storage.registers[t].Idle?
      modifies this, active, handle, storage, storage.next, storage.generation, storage.action
      ensures Valid() && Backed() && Later(old(State()), State()) && consumer.Idle?
      ensures storage.Valid() && |storage.registers| == |old(storage.registers)| && storage.registers[t].Idle?
      ensures A.Kept(old(storage.State()), storage.State())
      ensures answers == if taken.Some? then old(answers) + [result] else old(answers)
      ensures taken.None? ==>
        && result.None? && dequeue == old(dequeue) && storage.State() == old(storage.State())
        && Later(old(State()), moment) && IsEmpty(moment) && Later(moment, State())
      ensures taken.Some? ==>
        && dequeue == old(dequeue) + 1 <= |pushed| && taken.value == pushed[old(dequeue)]
        && R.Spent(storage.State(), taken.value)
        && (result.Some? ==>
              taken.value in old(storage.issued) && result == Some(Some(old(storage.issued)[taken.value])))
      ensures taken.None? ==> result.None?
      ensures storage.deeds[t] == old(storage.deeds[t]) + if result.Some? then [A.Redeemed(taken.value)] else []
      ensures old(schedule) == [] ==>
        && schedule == [] && taken.None? == old(IsEmpty(State()))
        && pushed == old(pushed) && producer == old(producer)
      ensures old(storage.schedule) == [] ==> storage.schedule == []
      ensures taken.Some? && old(storage.schedule) == [] ==>
        && result.Some? == old(S.IsLive(storage.State(), taken.value))
        && storage.free == (if result.Some? then [taken.value.index] + old(storage.free) else old(storage.free))
        && storage.LiveOnes()
          == if result.Some? then old(storage.LiveOnes()) - {taken.value} else old(storage.LiveOnes())
    {
      hide Inv, Did, S.Inv, S.LiveHandles, A.Kept, R.Spent, S.IsLive;
      BeginPop();
      Others(Executor);
      ghost var s := State();
      var there := TestFlagActive();
      DidLater(s, State(), Consume);
      A.KeptItself(storage.State());
      moment := State();
      result, taken := None, None;
      if there {
        var h;
        result, h := TakeFront(t);
        taken := Some(h);
        answers := answers + [result];
      }
      EndPop();
    }
  }

  lemma DidLater(s: Ring, s': Ring, l: Label)
    requires Inv(s) && Did(s, s', l)
    ensures Later(s, s')
  {
    StepLater(s, l);
  }
}
