// The pre-scheduler ring as a class over the slot allocator: push and pop are the code's, every
// access to shared memory is a step of the machine, and before each access the other producers
// and the consumer may take any steps.
module PreSchedulerQueue {
  import opened Base
  import opened Binary
  import opened RingSlots
  import opened Handles
  import opened PreQueueMachine
  import S = StorageMachine
  import A = ActionStorage
  import R = StorageResults

  /** What only grows. */
  ghost predicate Later(s: Ring, s': Ring)
  {
    && |s'.producer| == |s.producer| && |s'.sequence| == |s.sequence|
    && s.claimed <= s'.claimed && s.claimant <= s'.claimant && s.popped <= s'.popped
  }

  /** The step leads from s to s'. */
  ghost predicate Did(s: Ring, s': Ring, l: Label)
  {
    Enabled(s, l) && s' == Apply(s, l)
  }

  lemma StepLater(s: Ring, l: Label)
    requires Inv(s) && Enabled(s, l)
    ensures Inv(Apply(s, l)) && Later(s, Apply(s, l))
  {
    ApplyInv(s, l);
  }

  /** Whose step it is: a producer's, or the consumer's. */
  function Actor(l: Label): Option<nat>
  {
    match l
    case CallPush(t, _) => Some(t)
    case Produce(t, _) => Some(t)
    case ReturnPush(t) => Some(t)
    case _ => None
  }

  /** How many positions the thread has claimed. */
  function Claims(s: Ring, t: nat): nat
  {
    multiset(s.claimant)[t]
  }

  /** From s to s' thread t claimed positions for these handles; and if it was alone, no one else did,
      and nothing was taken out. */
  ghost predicate Claimed(s: Ring, s': Ring, t: nat, handles: seq<Handle>, alone: bool)
  {
    && Claims(s', t) == Claims(s, t) + |handles|
    && (alone ==> s'.claimed == s.claimed + handles && s'.popped == s.popped)
  }

  lemma ClaimedOn(s: Ring, s1: Ring, s2: Ring, t: nat, handles: seq<Handle>, more: seq<Handle>,
                  alone: bool, aloneThen: bool)
    requires Claimed(s, s1, t, handles, alone) && Claimed(s1, s2, t, more, aloneThen) && (alone ==> aloneThen)
    ensures Claimed(s, s2, t, handles + more, alone)
  {
  }

  /** The part of the state that only the actor changes. */
  predicate SameActor(s: Ring, s': Ring, who: Option<nat>)
  {
    match who
    case Some(t) =>
      && t < |s.producer| && t < |s'.producer| && s'.producer[t] == s.producer[t]
      && Claims(s', t) == Claims(s, t)
    case None => s'.consumer == s.consumer && s'.dequeue == s.dequeue && s'.popped == s.popped
  }

  lemma OthersSpare(s: Ring, l: Label, who: Option<nat>)
    requires Enabled(s, l) && Actor(l) != who && (who.Some? ==> who.value < |s.producer|)
    ensures SameActor(s, Apply(s, l), who)
  {
  }

  class Queue {
    const storage: A.Allocator
    const sequence: array<nat>
    const handle: array<Handle>
    const mask: nat
    ghost const bits: nat
    var enqueue: nat
    var dequeue: nat

    // Where the other producers and the consumer stand, what they do before each access, and
    // which weak compare-exchanges fail for no reason.
    var producers: seq<PushPc>
    var consumer: PopPc
    var schedule: seq<seq<Label>>
    var failures: seq<bool>

    ghost var claimed: seq<Handle>
    ghost var claimant: seq<nat>
    ghost var popped: seq<Handle>

    ghost function State(): Ring
      reads this, sequence, handle
    {
      Ring(sequence[..], handle[..], enqueue, dequeue, producers, consumer, claimed, claimant, popped)
    }

    ghost predicate Valid()
      reads this, sequence, handle
    {
      && Inv(State())
      && sequence.Length == Pow2(bits) && mask == sequence.Length - 1
    }

    ghost predicate Apart()
    {
      sequence != storage.next && sequence != storage.generation
    }

    constructor (queueSize: nat, storage: A.Allocator, threads: nat, schedule: seq<seq<Label>>, failures: seq<bool>)
      ensures (2 <= queueSize ==> Valid()) && Apart() && this.storage == storage
      ensures State() == Init(BitCeil(queueSize), threads)
      ensures this.schedule == schedule && this.failures == failures
      ensures fresh(sequence) && fresh(handle)
    {
      var size := BitCeil(queueSize);
      ghost var k: nat :| size == Pow2(k);
      this.storage := storage;
      sequence := new nat[size](i => i);
      handle := new Handle[size](_ => Handle(0, 0));
      mask := size - 1;
      bits := k;
      enqueue, dequeue := 0, 0;
      producers, consumer := seq(threads, t => Away), Resting;
      this.schedule, this.failures := schedule, failures;
      claimed, claimant, popped := [], [], [];
      new;
      assert State() == Init(BitCeil(queueSize), threads);
      if 2 <= queueSize { InitInv(BitCeil(queueSize), threads); }
    }

    /** pos & m_mask */
    function Index(pos: nat): (i: nat)
      requires Valid()
      reads this, sequence, handle
      ensures i == Slot(pos, sequence.Length) && i < sequence.Length == handle.Length
    {
      MaskPicksSlot(pos, bits);
      BitAnd(pos, mask)
    }

    // ----- one method per access to shared memory -----

    /** pos = m_enqueue_pos.load() */
    method LoadEnqueue(t: nat, h: Handle) returns (pos: nat)
      requires Valid() && t < |producers| && producers[t] == LoadPos(h)
      modifies this`producers
      ensures Valid() && Did(old(State()), State(), Produce(t, false))
      ensures pos == enqueue && producers[t] == LoadSeq(h, pos)
    {
      StepLater(State(), Produce(t, false));
      pos := enqueue;
      producers := producers[t := LoadSeq(h, pos)];
    }

    /** seq = slot.sequence.load(), and the branch on seq - pos */
    method LoadSequence(t: nat, h: Handle, pos: nat) returns (diff: int)
      requires Valid() && t < |producers| && producers[t] == LoadSeq(h, pos)
      modifies this`producers
      ensures Valid() && Did(old(State()), State(), Produce(t, false))
      ensures producers[t] == if diff == 0 then ClaimPos(h, pos) else if diff < 0 then Rejected(h) else LoadPos(h)
      ensures diff < 0 <==> pos == enqueue && |claimed| - |popped| == sequence.Length
      ensures diff > 0 ==> pos < enqueue
    {
      assert ProducerOk(State(), t);
      MarkTells(State(), pos);
      StepLater(State(), Produce(t, false));
      diff := sequence[Index(pos)] - pos;
      producers := producers[t := Compare(h, pos, sequence[Index(pos)])];
    }

    /** m_enqueue_pos.compare_exchange_weak(pos, pos + 1) */
    method SwapEnqueue(t: nat, h: Handle, pos: nat, spurious: bool) returns (swapped: bool, now: nat)
      requires Valid() && t < |producers| && producers[t] == ClaimPos(h, pos)
      modifies this`producers, this`enqueue, this`claimed, this`claimant
      ensures Valid() && Did(old(State()), State(), Produce(t, spurious))
      ensures swapped <==> old(enqueue) == pos && !spurious
      ensures if swapped then
          && now == pos && producers[t] == WriteHandle(h, pos)
          && pos == |old(claimed)| == |old(claimant)|
          && claimed == old(claimed) + [h] && claimant == old(claimant) + [t]
        else
          && now == enqueue == old(enqueue) && producers[t] == LoadSeq(h, now)
          && claimed == old(claimed) && claimant == old(claimant)
    {
      StepLater(State(), Produce(t, spurious));
      if enqueue == pos && !spurious {
        enqueue := pos + 1;
        claimed, claimant := claimed + [h], claimant + [t];
        producers := producers[t := WriteHandle(h, pos)];
        swapped, now := true, pos;
      } else {
        producers := producers[t := LoadSeq(h, enqueue)];
        swapped, now := false, enqueue;
      }
    }

    /** slot.action_handle = handle.value() */
    method StoreHandle(t: nat, h: Handle, pos: nat)
      requires Valid() && t < |producers| && producers[t] == WriteHandle(h, pos)
      modifies this`producers, handle
      ensures Valid() && Did(old(State()), State(), Produce(t, false))
      ensures producers[t] == Publish(h, pos)
    {
      StepLater(State(), Produce(t, false));
      handle[Index(pos)] := h;
      producers := producers[t := Publish(h, pos)];
    }

    /** slot.sequence.store(pos + 1) */
    method StoreSequence(t: nat, h: Handle, pos: nat)
      requires Valid() && t < |producers| && producers[t] == Publish(h, pos)
      modifies this`producers, sequence
      ensures Valid() && Did(old(State()), State(), Produce(t, false))
      ensures producers[t] == Accepted
    {
      StepLater(State(), Produce(t, false));
      sequence[Index(pos)] := pos + 1;
      producers := producers[t := Accepted];
    }

    /** seq = slot.sequence.load() in pop */
    method TestSequence() returns (there: bool)
      requires Valid() && consumer == TestSeq
      modifies this`consumer
      ensures Valid() && Did(old(State()), State(), Consume)
      ensures consumer == if there then ReadHandle(dequeue) else Popped(None)
      ensures there ==> dequeue < |claimed|
      ensures !there <==> old(Unannounced(State()))
    {
      hide Marks, ProducersOk, ConsumerOk, Unannounced;
      TestTells(State());
      StepLater(State(), Consume);
      there := sequence[Index(dequeue)] == dequeue + 1;
      consumer := if there then ReadHandle(dequeue) else Popped(None);
    }

    /** handle = slot.action_handle */
    method LoadHandle(pos: nat) returns (h: Handle)
      requires Valid() && consumer == ReadHandle(pos)
      modifies this`consumer
      ensures Valid() && Did(old(State()), State(), Consume)
      ensures consumer == FreeSlot(pos, h) && pos < |claimed| && h == claimed[pos]
    {
      assert MarkOk(State(), pos);
      StepLater(State(), Consume);
      h := handle[Index(pos)];
      consumer := FreeSlot(pos, h);
    }

    /** slot.sequence.store(pos + m_queueSize) */
    method FreeSequence(pos: nat, h: Handle)
      requires Valid() && consumer == FreeSlot(pos, h)
      modifies this`consumer, this`popped, sequence
      ensures Valid() && Did(old(State()), State(), Consume)
      ensures consumer == Advance(pos, h) && popped == old(popped) + [h]
    {
      StepLater(State(), Consume);
      sequence[Index(pos)] := pos + sequence.Length;
      popped := popped + [h];
      consumer := Advance(pos, h);
    }

    /** m_dequeue_pos = pos + 1 */
    method StoreDequeue(pos: nat, h: Handle)
      requires Valid() && consumer == Advance(pos, h)
      modifies this`consumer, this`dequeue
      ensures Valid() && Did(old(State()), State(), Consume)
      ensures consumer == Popped(Some(h)) && dequeue == old(dequeue) + 1
    {
      StepLater(State(), Consume);
      dequeue := pos + 1;
      consumer := Popped(Some(h));
    }

    // ----- the other threads -----

    predicate Ready(l: Label)
      reads this
    {
      match l
      case CallPush(t, _) => t < |producers| && producers[t].Away?
      case Produce(t, _) => t < |producers| && ProducerBusy(producers[t])
      case ReturnPush(t) => t < |producers| && (producers[t].Accepted? || producers[t].Rejected?)
      case CallPop => consumer.Resting?
      case Consume => ConsumerBusy(consumer)
      case ReturnPop => consumer.Popped?
    }

    method DoProduce(t: nat, spurious: bool)
      requires Valid() && Ready(Produce(t, spurious))
      modifies this`producers, this`enqueue, this`claimed, this`claimant, sequence, handle
      ensures Valid() && exists failed :: Did(old(State()), State(), Produce(t, failed))
    {
      hide Inv, Did;
      match producers[t]
      case LoadPos(h) => var _ := LoadEnqueue(t, h);
      case LoadSeq(h, pos) => var _ := LoadSequence(t, h, pos);
      case ClaimPos(h, pos) => var _, _ := SwapEnqueue(t, h, pos, spurious);
      case WriteHandle(h, pos) => StoreHandle(t, h, pos);
      case Publish(h, pos) => StoreSequence(t, h, pos);
    }

    method DoConsume()
      requires Valid() && Ready(Consume)
      modifies this`consumer, this`popped, this`dequeue, sequence
      ensures Valid() && Did(old(State()), State(), Consume)
    {
      hide Inv, Did;
      match consumer
      case TestSeq => var _ := TestSequence();
      case ReadHandle(pos) => var _ := LoadHandle(pos);
      case FreeSlot(pos, h) => FreeSequence(pos, h);
      case Advance(pos, h) => StoreDequeue(pos, h);
    }

    /** A call begins or returns. */
    method Turn(l: Label)
      requires Valid() && Ready(l) && !l.Produce? && !l.Consume?
      modifies this`producers, this`consumer
      ensures Valid() && Did(old(State()), State(), l)
    {
      StepLater(State(), l);
      match l
      case CallPush(t, h) => producers := producers[t := LoadPos(h)];
      case ReturnPush(t) => producers := producers[t := Away];
      case CallPop => consumer := TestSeq;
      case ReturnPop => consumer := Resting;
    }

    /** One step of anyone but the actor. */
    method Do(l: Label, ghost who: Option<nat>)
      requires Valid() && Ready(l) && Actor(l) != who && (who.Some? ==> who.value < |producers|)
      modifies this`producers, this`enqueue, this`claimed, this`claimant, this`consumer, this`popped, this`dequeue,
               sequence, handle
      ensures Valid() && Later(old(State()), State()) && SameActor(old(State()), State(), who)
    {
      hide Inv;
      ghost var s := State();
      ghost var done := l;
      if l.Produce? {
        DoProduce(l.t, l.spurious);
        ghost var failed :| Did(s, State(), Produce(l.t, failed));
        done := Produce(l.t, failed);
      } else if l.Consume? {
        DoConsume();
      } else {
        Turn(l);
      }
      StepLater(s, done);
      OthersSpare(s, done, who);
    }

    /** Whatever the others do before the actor's next access. */
    method Others(who: Option<nat>)
      requires Valid() && (who.Some? ==> who.value < |producers|)
      modifies this`producers, this`enqueue, this`claimed, this`claimant, this`consumer, this`popped, this`dequeue,
               this`schedule, sequence, handle
      ensures Valid() && Later(old(State()), State()) && SameActor(old(State()), State(), who)
      ensures if old(schedule) == [] then schedule == [] && State() == old(State())
              else |schedule| == |old(schedule)| - 1
    {
      hide Inv;
      if schedule == [] { return; }
      var batch := schedule[0];
      schedule := schedule[1..];
      for k := 0 to |batch|
        invariant Valid() && Later(old(State()), State()) && SameActor(old(State()), State(), who)
        invariant schedule == old(schedule)[1..]
      {
        if Actor(batch[k]) != who && Ready(batch[k]) {
          Do(batch[k], who);
        }
      }
    }

    method Fails() returns (f: bool)
      modifies this`failures
      ensures f ==> |failures| < |old(failures)|
      ensures |failures| <= |old(failures)|
    {
      f := false;
      if failures != [] {
        f := failures[0];
        failures := failures[1..];
      }
    }

    // ----- push -----

    ghost predicate ClaimedBy(t: nat, h: Handle, pos: nat)
      reads this
    {
      pos < |claimed| && pos < |claimant| && claimed[pos] == h && claimant[pos] == t
    }

    /** The load of the position, before the loop or again in it. */
    method Reload(t: nat, h: Handle) returns (pos: nat)
      requires Valid() && t < |producers| && producers[t] == LoadPos(h)
      modifies this, sequence, handle
      ensures Valid() && Later(old(State()), State())
      ensures Claimed(old(State()), State(), t, [], old(schedule) == [])
      ensures producers[t] == LoadSeq(h, pos) && pos == enqueue && failures == old(failures)
      ensures |schedule| <= |old(schedule)|
      ensures old(schedule) == [] ==> schedule == [] && IsFull(State()) == old(IsFull(State()))
    {
      hide Inv, Did;
      Others(Some(t));
      ghost var s := State();
      pos := LoadEnqueue(t, h);
      DidLater(s, State(), Produce(t, false));
    }

    /** The compare-exchange, for the position at which the sequence number said that it is free. */
    method TryClaim(t: nat, h: Handle, pos: nat) returns (won: bool, now: nat)
      requires Valid() && t < |producers| && producers[t] == ClaimPos(h, pos)
      modifies this, sequence, handle
      ensures Valid() && Later(old(State()), State())
      ensures old(schedule) == [] && old(failures) == [] ==> schedule == [] && failures == []
      ensures Claimed(old(State()), State(), t, if won then [h] else [], old(schedule) == [])
      ensures old(schedule) == [] ==> schedule == []
      ensures won ==> producers[t] == WriteHandle(h, pos) && ClaimedBy(t, h, pos) && pos >= |old(claimed)|
      ensures !won ==> producers[t] == LoadSeq(h, now) && now == enqueue
      ensures |schedule| + |failures| <= |old(schedule)| + |old(failures)|
      ensures !won && pos == old(enqueue) ==> |schedule| + |failures| < |old(schedule)| + |old(failures)|
    {
      hide Inv, Did;
      Others(Some(t));
      ghost var s := State();
      var weak := Fails();
      won, now := SwapEnqueue(t, h, pos, weak);
      DidLater(s, State(), Produce(t, weak));
    }

    /** One turn of the loop of push. It goes round again only if another producer claimed a
        position meanwhile, or for a spurious failure. */
    method Attempt(t: nat, h: Handle, pos: nat) returns (outcome: Outcome, now: nat, ghost moment: Ring)
      requires Valid() && t < |producers| && producers[t] == LoadSeq(h, pos) && pos == enqueue
      modifies this, sequence, handle
      ensures Valid() && Later(old(State()), State()) && Later(old(State()), moment) && Later(moment, State())
      ensures old(schedule) == [] && old(failures) == [] ==> schedule == [] && failures == []
      ensures Claimed(old(State()), State(), t, if outcome == Won then [h] else [], old(schedule) == [])
      ensures old(schedule) == [] ==> schedule == []
      ensures outcome == Won ==> producers[t] == WriteHandle(h, pos) && ClaimedBy(t, h, pos) && pos >= |old(claimed)|
      ensures outcome == Full ==> producers[t] == Rejected(h) && IsFull(moment)
      ensures outcome == Again ==>
        (producers[t] == LoadSeq(h, now) && now == enqueue
         && |schedule| + |failures| < |old(schedule)| + |old(failures)|)
      ensures old(schedule) == [] && old(failures) == [] ==> (outcome == Full <==> old(IsFull(State())))
    {
      hide Inv, Did;
      now := pos;
      Others(Some(t));
      ghost var s1 := State();
      var diff := LoadSequence(t, h, pos);
      DidLater(s1, State(), Produce(t, false));
      moment := State();
      if diff == 0 {
        var won;
        won, now := TryClaim(t, h, pos);
        outcome := if won then Won else Again;
      } else if diff < 0 {
        outcome := Full;
      } else {
        now := Reload(t, h);
        outcome := Again;
      }
    }

    /** Once the position is claimed: the handle is stored and announced. */
    method Announce(t: nat, h: Handle, pos: nat)
      requires Valid() && t < |producers| && producers[t] == WriteHandle(h, pos) && ClaimedBy(t, h, pos)
      modifies this, sequence, handle
      ensures Valid() && Later(old(State()), State())
      ensures old(schedule) == [] ==> schedule == [] && (old(failures) == [] ==> failures == [])
      ensures Claimed(old(State()), State(), t, [], old(schedule) == [])
      ensures producers[t] == Accepted && ClaimedBy(t, h, pos)
    {
      hide Inv, Did;
      Others(Some(t));
      ghost var s1 := State();
      StoreHandle(t, h, pos);
      DidLater(s1, State(), Produce(t, false));
      Others(Some(t));
      ghost var s2 := State();
      StoreSequence(t, h, pos);
      DidLater(s2, State(), Produce(t, false));
    }

    /** One turn, and the handle announced if it claimed a position. */
    method Once(t: nat, h: Handle, pos: nat) returns (outcome: Outcome, now: nat, ghost moment: Ring)
      requires Valid() && t < |producers| && producers[t] == LoadSeq(h, pos) && pos == enqueue
      modifies this, sequence, handle
      ensures Valid() && Later(old(State()), State())
      ensures old(schedule) == [] ==> schedule == [] && (old(failures) == [] ==> failures == [])
      ensures Claimed(old(State()), State(), t, if outcome == Won then [h] else [], old(schedule) == [])
      ensures outcome == Won ==> producers[t] == Accepted && ClaimedBy(t, h, pos) && pos >= |old(claimed)|
      ensures outcome == Full ==> producers[t] == Rejected(h) && FullBetween(old(State()), moment, State())
      ensures outcome == Again ==>
        (producers[t] == LoadSeq(h, now) && now == enqueue
         && |schedule| + |failures| < |old(schedule)| + |old(failures)|)
      ensures old(schedule) == [] && old(failures) == [] ==> (outcome == Full <==> old(IsFull(State())))
    {
      hide Inv, Did, IsFull, Claimed;
      ghost var s, alone := State(), schedule == [];
      outcome, now, moment := Attempt(t, h, pos);
      if outcome == Won {
        ghost var s1, alone1 := State(), schedule == [];
        Announce(t, h, pos);
        ClaimedOn(s, s1, State(), t, [h], [], alone, alone1);
        assert [h] + [] == [h];
      }
    }

    /** The loop of push: a position of its own for the handle, or a moment at which every slot
        held a handle that was claimed and not taken out. */
    method Place(t: nat, h: Handle) returns (ok: bool, ghost p: nat, ghost moment: Ring)
      requires Valid() && t < |producers| && producers[t] == LoadPos(h)
      modifies this, sequence, handle
      ensures Valid() && Later(old(State()), State())
      ensures old(schedule) == [] && old(failures) == [] ==> schedule == [] && failures == []
      ensures Claimed(old(State()), State(), t, if ok then [h] else [], old(schedule) == [])
      ensures ok ==> producers[t] == Accepted && ClaimedBy(t, h, p) && p >= |old(claimed)|
      ensures !ok ==> producers[t] == Rejected(h) && FullBetween(old(State()), moment, State())
      ensures old(schedule) == [] && old(failures) == [] ==> ok == !old(IsFull(State()))
    {
      hide Inv, Did, IsFull, Claimed;
      ghost var s, alone := State(), schedule == [];
      var pos := Reload(t, h);
      moment := State();
      while true
        invariant Valid() && Later(old(State()), State()) && t < |producers|
        invariant Claimed(old(State()), State(), t, [], old(schedule) == []) && (old(schedule) == [] ==> schedule == [])
        invariant producers[t] == LoadSeq(h, pos) && pos == enqueue
        invariant old(schedule) == [] && old(failures) == [] ==>
            schedule == [] && failures == [] && IsFull(State()) == old(IsFull(State()))
        decreases |schedule| + |failures|
      {
        var outcome, now;
        ghost var s1, alone1 := State(), schedule == [];
        outcome, now, moment := Once(t, h, pos);
        ghost var more := if outcome == Won then [h] else [];
        ClaimedOn(s, s1, State(), t, [], more, alone, alone1);
        assert [] + more == more;
        if outcome == Won {
          return true, pos, moment;
        } else if outcome == Full {
          return false, 0, moment;
        }
        pos := now;
      }
    }

    /** A call begins, once the action is registered; or it returns. */
    method Enter(t: nat, h: Handle)
      requires Valid() && t < |producers| && producers[t].Away?
      modifies this`producers, this`consumer
      ensures Valid() && State() == Goto(old(State()), t, LoadPos(h))
    {
      Turn(CallPush(t, h));
    }

    method Leave(t: nat)
      requires Valid() && t < |producers| && (producers[t].Accepted? || producers[t].Rejected?)
      modifies this`producers, this`consumer
      ensures Valid() && State() == Goto(old(State()), t, Away)
    {
      Turn(ReturnPush(t));
    }

    /** The part of push that is about the ring. */
    method Offer(t: nat, h: Handle) returns (ok: bool, ghost p: nat, ghost moment: Ring)
      requires Valid() && t < |producers| && producers[t].Away?
      modifies this, sequence, handle
      ensures Valid() && Later(old(State()), State()) && producers[t].Away?
      ensures old(schedule) == [] && old(failures) == [] ==> schedule == [] && failures == []
      ensures Claimed(old(State()), State(), t, if ok then [h] else [], old(schedule) == [])
      ensures ok ==> ClaimedBy(t, h, p) && p >= |old(claimed)|
      ensures !ok ==> FullBetween(old(State()), moment, State())
      ensures old(schedule) == [] && old(failures) == [] ==> ok == !old(IsFull(State()))
    {
      hide Inv, Did;
      Enter(t, h);
      ok, p, moment := Place(t, h);
      Leave(t);
    }

    /** push: the action is registered, then its handle gets a position; when the ring is full the
        registration is undone. */
    method Push(t: nat, a: Action) returns (ok: bool, ghost verdict: Verdict)
      requires Valid() && Apart() && t < |producers| && producers[t].Away?
      requires storage.Valid() && t < |storage.registers| && storage.registers[t].Idle?
      modifies this, sequence, handle, storage, storage.next, storage.generation, storage.action
      ensures Valid() && Later(old(State()), State()) && producers[t].Away?
      ensures storage.Valid() && |storage.registers| == |old(storage.registers)| && storage.registers[t].Idle?
      ensures A.Kept(old(storage.State()), storage.State())
      ensures Explains(verdict, old(State()), old(storage.State()), State(), storage.State(), a)
      ensures ok <==> verdict.Enqueued?
      ensures ok ==> ClaimedBy(t, verdict.h, verdict.p)
      ensures Claimed(old(State()), State(), t, if ok then [verdict.h] else [], old(schedule) == [])
      ensures storage.deeds[t] == old(storage.deeds[t]) + DeedsFor(verdict)
      ensures old(schedule) == [] && old(failures) == [] ==> schedule == [] && failures == []
      ensures old(schedule) == [] && old(failures) == [] && old(storage.schedule) == [] ==>
        ok == (old(storage.free) != [] && !old(IsFull(State())))
      ensures old(storage.schedule) == [] ==>
        && storage.schedule == []
        && (!ok ==> storage.free == old(storage.free) && storage.LiveOnes() == old(storage.LiveOnes()))
        && (ok ==>
              && old(storage.free) != [] && verdict.h.index == old(storage.free)[0]
              && storage.free == old(storage.free)[1..]
              && storage.LiveOnes() == old(storage.LiveOnes()) + {verdict.h})
    {
      hide Inv, Did, S.Inv, A.Did, S.LiveHandles;
      var registered, seen := storage.RegisterAction(t, a);
      if registered == None {
        return false, NoSlot(seen);
      }
      var h := registered.value;
      ghost var p, moment;
      ok, p, moment := Offer(t, h);
      if ok {
        verdict := Enqueued(p, h);
      } else {
        var undone := storage.RemoveAction(t, h);
        A.NeverLive(old(storage.State()), h);
        verdict := RingFull(h, moment, undone.Some?);
      }
    }

    // ----- pop -----

    method BeginPop()
      requires Valid() && consumer.Resting?
      modifies this`producers, this`consumer
      ensures Valid() && State() == old(State()).(consumer := TestSeq)
      ensures Unannounced(State()) == old(Unannounced(State()))
    {
      ghost var s := State();
      Turn(CallPop);
      assert forall t: nat :: WritingAt(State(), t, dequeue) <==> WritingAt(s, t, dequeue);
    }

    method EndPop()
      requires Valid() && consumer.Popped?
      modifies this`producers, this`consumer
      ensures Valid() && State() == old(State()).(consumer := Resting)
    {
      Turn(ReturnPop);
    }

    /** Once the handle is announced: it is read, the slot is freed and the position counted. */
    method Take(pos: nat) returns (h: Handle)
      requires Valid() && consumer == ReadHandle(pos) && pos == dequeue < |claimed|
      modifies this, sequence, handle
      ensures Valid() && Later(old(State()), State())
      ensures consumer == Popped(Some(h)) && dequeue == pos + 1 && h == old(claimed)[pos]
      ensures popped == old(popped) + [h] && (old(schedule) == [] ==> schedule == [] && claimed == old(claimed))
    {
      hide Inv, Did;
      Others(None);
      ghost var s1 := State();
      h := LoadHandle(pos);
      DidLater(s1, State(), Consume);
      Others(None);
      ghost var s2 := State();
      FreeSequence(pos, h);
      DidLater(s2, State(), Consume);
      Others(None);
      ghost var s3 := State();
      StoreDequeue(pos, h);
      DidLater(s3, State(), Consume);
    }

    /** pop: the oldest claimed handle that was not taken out, or nothing when at that moment it
        was not claimed or not announced. */
    method Pop() returns (result: Option<Handle>, ghost moment: Ring)
      requires Valid() && consumer.Resting?
      modifies this, sequence, handle
      ensures Valid() && consumer.Resting? && Later(old(State()), State())
      ensures result.Some? ==>
        && dequeue == old(dequeue) + 1 <= |claimed| && result.value == claimed[old(dequeue)]
        && popped == old(popped) + [result.value]
      ensures result.None? ==>
        && dequeue == old(dequeue) && popped == old(popped)
        && Later(old(State()), moment) && Inv(moment) && moment.dequeue == old(dequeue) && Unannounced(moment)
      ensures old(schedule) == [] ==>
        schedule == [] && result.None? == old(Unannounced(State())) && claimed == old(claimed)
      ensures result.None? ==> Later(moment, State())
    {
      hide Inv, Did, Unannounced;
      BeginPop();
      Others(None);
      moment := State();
      var pos := dequeue;
      var there := TestSequence();
      DidLater(moment, State(), Consume);
      if there {
        var h := Take(pos);
        result := Some(h);
      } else {
        result := None;
      }
      EndPop();
    }
  }

  /** Why push answered as it did. */
  datatype Verdict =
    | Enqueued(p: nat, h: Handle)
    | NoSlot(seen: S.Storage)
    | RingFull(h: Handle, moment: Ring, undone: bool)

  /** What push itself did to handles: the one in the ring was issued, and not redeemed again; when
      the ring was full it was, unless someone else had done so. */
  function DeedsFor(v: Verdict): seq<A.Deed>
  {
    match v
    case Enqueued(p, h) => [A.Issued(h)]
    case NoSlot(seen) => []
    case RingFull(h, moment, undone) => if undone then [A.Issued(h), A.Redeemed(h)] else [A.Issued(h)]
  }

  /** The reasons behind an answer, for a push between these states: a position is claimed for a
      handle that stands for the action; no slot was free at some moment; or the ring was full at some
      moment and the registration is spent. */
  ghost predicate Explains(v: Verdict, s: Ring, m: S.Storage, s': Ring, m': S.Storage, a: Action)
  {
    match v
    case Enqueued(p, h) =>
      && |s.claimed| <= p < |s'.claimed| && s'.claimed[p] == h && RegisteredSince(m, m', h, a)
    case NoSlot(seen) => S.Inv(seen) && seen.free == [] && A.Kept(m, seen) && A.Kept(seen, m')
    case RingFull(h, moment, undone) =>
      FullBetween(s, moment, s') && RegisteredSince(m, m', h, a) && R.Spent(m', h)
  }

  ghost predicate RegisteredSince(m: S.Storage, m': S.Storage, h: Handle, a: Action)
  {
    h !in m.issued && h in m'.issued && m'.issued[h] == a
  }

  datatype Outcome = Won | Full | Again

  ghost predicate IsFull(s: Ring)
  {
    |s.claimed| - |s.popped| == |s.sequence|
  }

  ghost predicate FullBetween(s: Ring, moment: Ring, s': Ring)
  {
    Later(s, moment) && IsFull(moment) && Later(moment, s')
  }

  lemma DidLater(s: Ring, s': Ring, l: Label)
    requires Inv(s) && Did(s, s', l)
    ensures Later(s, s')
  {
    StepLater(s, l);
  }

  /** Nothing was claimed at the front, or its claimant has not announced it yet. */
  ghost predicate Unannounced(s: Ring)
  {
    s.dequeue == s.enqueue || exists t :: WritingAt(s, t, s.dequeue)
  }

  /** What the load in pop can tell. */
  lemma TestTells(s: Ring)
    requires Inv(s) && s.consumer.TestSeq?
    ensures Mark(s, s.dequeue) != s.dequeue + 1 <==> Unannounced(s)
    ensures Mark(s, s.dequeue) == s.dequeue + 1 ==> s.dequeue < s.enqueue
  {
    MarkTells(s, s.dequeue);
    assert MarkOk(s, s.dequeue);
    forall t | WritingAt(s, t, s.dequeue) ensures Mark(s, s.dequeue) == s.dequeue < s.enqueue {
      assert ProducerOk(s, t);
    }
  }
}
