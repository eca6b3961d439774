// The slot allocator as a class: every access to shared memory is a method of its own and one
// step of the machine, register_action and remove_action are the code's loops over them, and
// before each access the other threads may take any steps.
module ActionStorage {
  import opened Base
  import opened Handles
  import opened StorageMachine
  import R = StorageResults

  /** From s to s', seen by thread t: its own counter is where it was, handles stay issued, and
      spent handles stay spent. */
  ghost predicate Later(s: Storage, s': Storage, t: nat)
  {
    && |s'.pc| == |s.pc| && t < |s.pc| && s'.pc[t] == s.pc[t]
    && Kept(s, s')
  }

  /** What no step undoes. As long as the tag is the same, so is the list it guards. */
  ghost predicate Kept(s: Storage, s': Storage)
  {
    && |s'.next| == |s.next| && |s'.pc| == |s.pc|
    && s.head.tag <= s'.head.tag && (s'.head.tag == s.head.tag ==> s'.head == s.head && s'.free == s.free)
    && forall h :: h in s.issued ==>
      && h in s'.issued && s'.issued[h] == s.issued[h]
      && (R.Spent(s, h) ==> R.Spent(s', h))
  }

  lemma KeptItself(s: Storage)
    ensures Kept(s, s)
  {
  }

  lemma KeptTwice(s: Storage, s1: Storage, s2: Storage)
    requires Kept(s, s1) && Kept(s1, s2)
    ensures Kept(s, s2)
  {
    hide R.Spent;
  }

  lemma StillIssued(s: Storage, s': Storage)
    requires Kept(s, s')
    ensures forall h :: h in s.issued ==> h in s'.issued && s'.issued[h] == s.issued[h]
  {
  }

  lemma SpentStill(s: Storage, s': Storage, h: Handle)
    requires Kept(s, s') && R.Spent(s, h)
    ensures R.Spent(s', h)
  {
  }

  /** Only the caller's counter moves when it begins or returns. */
  lemma KeptByLeaving(s: Storage, s1: Storage, s2: Storage)
    requires Kept(s, s1) && s2 == s1.(pc := s2.pc) && |s2.pc| == |s1.pc|
    ensures Kept(s, s2)
  {
  }

  lemma StepKeeps(s: Storage, l: Label)
    requires Inv(s) && Enabled(s, l)
    ensures Inv(Apply(s, l)) && Kept(s, Apply(s, l)) && |Apply(s, l).pc| == |s.pc|
    ensures forall u :: 0 <= u < |s.pc| && u != l.t ==> Apply(s, l).pc[u] == s.pc[u]
  {
    hide Inv;
    ApplyInv(s, l);
    forall h | h in s.issued
      ensures h in Apply(s, l).issued && Apply(s, l).issued[h] == s.issued[h]
      ensures R.Spent(s, h) ==> R.Spent(Apply(s, l), h)
    {
      R.StepHandle(s, l, h);
    }
    OnlyOne(s, l);
    TagCounts(s, l);
  }

  lemma TagCounts(s: Storage, l: Label)
    requires Enabled(s, l)
    ensures var s' := Apply(s, l);
      && |s'.next| == |s.next| && s.head.tag <= s'.head.tag
      && (s'.head.tag == s.head.tag ==> s'.head == s.head && s'.free == s.free)
  {
  }

  lemma OnlyOne(s: Storage, l: Label)
    requires Enabled(s, l)
    ensures |Apply(s, l).pc| == |s.pc|
    ensures forall u :: 0 <= u < |s.pc| && u != l.t ==> Apply(s, l).pc[u] == s.pc[u]
  {
  }

  /** What a thread does to a handle. */
  datatype Deed = Issued(h: Handle) | Redeemed(h: Handle)

  class Allocator {
    var head: Head
    const next: array<nat>
    const generation: array<nat>
    const action: array<Option<Action>>

    // All threads: where they stand and their local variables; the handles given out so far.
    var registers: seq<Pc>
    var issued: map<Handle, Action>
    // What the others do before each access of the caller, and which of its weak
    // compare-exchanges fail for no reason.
    var schedule: seq<seq<Label>>
    var failures: seq<bool>

    ghost var free: seq<nat>
    ghost var place: seq<Place>
    // What each thread has done, in order.
    ghost var deeds: seq<seq<Deed>>

    ghost function State(): Storage
      reads this, next, generation, action
    {
      Storage(head, next[..], generation[..], action[..], registers, free, place, issued)
    }

    /** The handles that are issued and not spent. */
    ghost function LiveOnes(): set<Handle>
      reads this, next, generation, action
    {
      LiveHandles(State())
    }

    ghost predicate Valid()
      reads this, next, generation, action
    {
      next != generation && Inv(State()) && |deeds| == |registers|
    }

    /** The constructor, for a size that is not zero and whose indices fit. */
    constructor (size: nat, threads: nat, schedule: seq<seq<Label>>, failures: seq<bool>)
      requires 1 <= size <= INVALID_INDEX
      ensures Valid() && State() == Init(size, threads)
      ensures this.schedule == schedule && this.failures == failures
      ensures forall t :: 0 <= t < threads ==> deeds[t] == []
      ensures fresh(next) && fresh(generation) && fresh(action)
    {
      head := Head(0, 0);
      next := new nat[size](i => i + 1);
      generation := new nat[size](_ => 0);
      action := new Option<Action>[size](_ => None);
      registers := seq(threads, t => Idle);
      issued := map[];
      this.schedule, this.failures := schedule, failures;
      free := seq(size, i => i);
      place := seq(size, i => Free);
      deeds := seq(threads, t => []);
      new;
      next[size - 1] := INVALID_INDEX;
      assert State() == Init(size, threads);
      InitInv(size, threads);
    }

    /** A size of zero is refused with an exception. */
    static method Create(size: nat, threads: nat, schedule: seq<seq<Label>>, failures: seq<bool>)
        returns (storage: Option<Allocator>)
      requires size <= INVALID_INDEX
      ensures storage.None? <==> size == 0
      ensures storage.Some? ==>
        fresh(storage.value) && storage.value.Valid() && storage.value.State() == Init(size, threads)
    {
      if size == 0 { return None; }
      var s := new Allocator(size, threads, schedule, failures);
      storage := Some(s);
    }

    // ----- one method per access to shared memory -----

    /** old_head = m_head.load() in register_action */
    method RegLoadHead(t: nat, a: Action) returns (seen: Head)
      requires Valid() && t < |registers| && registers[t] == RegLoad(a)
      modifies this`registers
      ensures Valid() && Did(old(State()), State(), t, false)
      ensures seen == head && registers[t] == AfterHead(a, seen)
    {
      hide FreeListInv, PlacesInv, HandlesInv;
      seen := head;
      StepKeeps(State(), Internally(t, false));
      registers := registers[t := AfterHead(a, seen)];
    }

    /** new_head.index = m_slots[old_head.index].next.load() */
    method RegLoadNext(t: nat, a: Action, seen: Head) returns (n: nat)
      requires Valid() && t < |registers| && registers[t] == RegNext(a, seen)
      modifies this`registers
      ensures Valid() && Did(old(State()), State(), t, false)
      ensures registers[t] == RegCas(a, seen, n)
    {
      hide FreeListInv, PlacesInv, HandlesInv;
      assert ThreadOk(State(), t);
      StepKeeps(State(), Internally(t, false));
      n := next[seen.index];
      registers := registers[t := RegCas(a, seen, n)];
    }

    /** m_head.compare_exchange_weak(old_head, new_head): on failure the head is reloaded. */
    method RegSwapHead(t: nat, a: Action, seen: Head, n: nat, spurious: bool) returns (swapped: bool, now: Head)
      requires Valid() && t < |registers| && registers[t] == RegCas(a, seen, n)
      modifies this`registers, this`head, this`free, this`place
      ensures Valid() && Did(old(State()), State(), t, spurious)
      ensures swapped <==> old(head) == seen && !spurious
      ensures if swapped then now == seen && registers[t] == RegStore(a, seen.index) && seen.index < next.Length
              else now == head == old(head) && registers[t] == AfterHead(a, now)
    {
      hide FreeListInv, PlacesInv, HandlesInv;
      assert ThreadOk(State(), t);
      StepKeeps(State(), Internally(t, spurious));
      if head == seen && !spurious {
        head := Head(seen.tag + 1, n);
        free := if free == [] then [] else free[1..];
        place := place[seen.index := Installing(t)];
        registers := registers[t := RegStore(a, seen.index)];
        swapped, now := true, seen;
      } else {
        registers := registers[t := AfterHead(a, head)];
        swapped, now := false, head;
      }
    }

    /** new_slot.action = std::move(action) */
    method RegStoreAction(t: nat, a: Action, index: nat)
      requires Valid() && t < |registers| && registers[t] == RegStore(a, index)
      modifies this`registers, action
      ensures Valid() && Did(old(State()), State(), t, false)
      ensures registers[t] == RegGen(a, index)
    {
      hide FreeListInv, PlacesInv, HandlesInv;
      assert ThreadOk(State(), t);
      StepKeeps(State(), Internally(t, false));
      action[index] := Some(a);
      registers := registers[t := RegGen(a, index)];
    }

    /** new_slot.generation.load(): the handle is made of the index and the generation. */
    method RegLoadGeneration(t: nat, a: Action, index: nat) returns (h: Handle)
      requires Valid() && t < |registers| && registers[t] == RegGen(a, index)
      modifies this`registers, this`issued, this`place, this`deeds
      ensures Valid() && Did(old(State()), State(), t, false)
      ensures registers[t] == RegDone(Some(h)) && h !in old(issued) && issued == old(issued)[h := a]
      ensures IsLive(State(), h) && h.index == index
      ensures deeds == old(deeds)[t := old(deeds)[t] + [Issued(h)]]
    {
      assert ThreadOk(State(), t);
      StepEffect(State(), t, false);
      h := Handle(index, generation[index]);
      issued := issued[h := a];
      place := place[index := Live];
      deeds := deeds[t := deeds[t] + [Issued(h)]];
      registers := registers[t := RegDone(Some(h))];
    }

    /** slot.generation.compare_exchange_strong(expected_gen, expected_gen + 1) */
    method RemSwapGeneration(t: nat, h: Handle) returns (swapped: bool)
      requires Valid() && t < |registers| && registers[t] == RemCas(h)
      modifies this`registers, this`place, this`deeds, generation
      ensures Valid() && Did(old(State()), State(), t, false)
      ensures swapped == old(IsLive(State(), h)) && R.Spent(State(), h)
      ensures registers[t] == if swapped then RemMove(h) else RemDone(None)
      ensures deeds == if swapped then old(deeds)[t := old(deeds)[t] + [Redeemed(h)]] else old(deeds)
    {
      hide FreeListInv, PlacesInv, HandlesInv;
      assert ThreadOk(State(), t);
      StepKeeps(State(), Internally(t, false));
      if h.index >= next.Length {
        swapped := false;
      } else {
        swapped := generation[h.index] == h.generation;
      }
      if swapped {
        generation[h.index] := h.generation + 1;
        place := place[h.index := Returning(t)];
        deeds := deeds[t := deeds[t] + [Redeemed(h)]];
        registers := registers[t := RemMove(h)];
      } else {
        registers := registers[t := RemDone(None)];
      }
    }

    /** result.emplace(std::move(slot.action)) */
    method RemMoveAction(t: nat, h: Handle) returns (cell: Option<Action>)
      requires Valid() && t < |registers| && registers[t] == RemMove(h)
      modifies this`registers, action
      ensures Valid() && Did(old(State()), State(), t, false)
      ensures registers[t] == RemLoad(h, cell) && h in issued && cell == Some(issued[h])
    {
      hide FreeListInv, PlacesInv, HandlesInv;
      assert ThreadOk(State(), t);
      StepKeeps(State(), Internally(t, false));
      cell := action[h.index];
      action[h.index] := None;
      registers := registers[t := RemLoad(h, cell)];
    }

    /** old_head = m_head.load() in remove_action */
    method RemLoadHead(t: nat, h: Handle, cell: Option<Action>) returns (seen: Head)
      requires Valid() && t < |registers| && registers[t] == RemLoad(h, cell)
      modifies this`registers
      ensures Valid() && Did(old(State()), State(), t, false)
      ensures seen == head && registers[t] == RemNext(h, cell, seen)
    {
      hide FreeListInv, PlacesInv, HandlesInv;
      assert ThreadOk(State(), t);
      StepKeeps(State(), Internally(t, false));
      seen := head;
      registers := registers[t := RemNext(h, cell, seen)];
    }

    /** slot.next.store(old_head.index) */
    method RemStoreNext(t: nat, h: Handle, cell: Option<Action>, seen: Head)
      requires Valid() && t < |registers| && registers[t] == RemNext(h, cell, seen)
      modifies this`registers, next
      ensures Valid() && Did(old(State()), State(), t, false)
      ensures registers[t] == RemPush(h, cell, seen)
    {
      hide FreeListInv, PlacesInv, HandlesInv;
      assert ThreadOk(State(), t);
      StepKeeps(State(), Internally(t, false));
      next[h.index] := seen.index;
      registers := registers[t := RemPush(h, cell, seen)];
    }

    /** m_head.compare_exchange_weak(old_head, {old_head.generation + 1, idx}) */
    method RemSwapHead(t: nat, h: Handle, cell: Option<Action>, seen: Head, spurious: bool)
        returns (swapped: bool, now: Head)
      requires Valid() && t < |registers| && registers[t] == RemPush(h, cell, seen)
      modifies this`registers, this`head, this`free, this`place
      ensures Valid() && Did(old(State()), State(), t, spurious)
      ensures swapped <==> old(head) == seen && !spurious
      ensures free == if swapped then [h.index] + old(free) else old(free)
      ensures if swapped then registers[t] == RemDone(Some(cell))
              else now == head == old(head) && registers[t] == RemNext(h, cell, now)
    {
      hide FreeListInv, PlacesInv, HandlesInv;
      assert ThreadOk(State(), t);
      StepKeeps(State(), Internally(t, spurious));
      if head == seen && !spurious {
        head := Head(seen.tag + 1, h.index);
        free := [h.index] + free;
        place := place[h.index := Free];
        registers := registers[t := RemDone(Some(cell))];
        swapped, now := true, seen;
      } else {
        registers := registers[t := RemNext(h, cell, head)];
        swapped, now := false, head;
      }
    }

    // ----- the other threads -----

    /** Can the thread take this step? A handle can only be removed once it was given out. */
    predicate Ready(l: Label)
      reads this
    {
      && l.t < |registers|
      && match l
         case CallRegister(t, _) => registers[t].Idle?
         case CallRemove(t, h) => registers[t].Idle? && h in issued
         case Internally(t, _) => Internal(registers[t])
         case Return(t) => registers[t].RegDone? || registers[t].RemDone?
    }

    lemma ReadyIsEnabled(l: Label)
      requires Valid() && Ready(l)
      ensures Enabled(State(), l)
    {
      assert ThreadOk(State(), l.t);
    }

    method Advance(t: nat, spurious: bool)
      requires Valid() && Ready(Internally(t, spurious))
      modifies this`registers, this`head, this`free, this`place, this`issued, this`deeds, next, generation, action
      ensures Valid() && exists failed :: Did(old(State()), State(), t, failed)
      ensures |deeds| == |old(deeds)| && forall u :: 0 <= u < |deeds| && u != t ==> deeds[u] == old(deeds)[u]
    {
      hide Inv, Did;
      match registers[t]
      case RegLoad(a) => var _ := RegLoadHead(t, a);
      case RegNext(a, seen) => var _ := RegLoadNext(t, a, seen);
      case RegCas(a, seen, n) => var _, _ := RegSwapHead(t, a, seen, n, spurious);
      case RegStore(a, i) => RegStoreAction(t, a, i);
      case RegGen(a, i) => var _ := RegLoadGeneration(t, a, i);
      case RemCas(h) => var _ := RemSwapGeneration(t, h);
      case RemMove(h) => var _ := RemMoveAction(t, h);
      case RemLoad(h, cell) => var _ := RemLoadHead(t, h, cell);
      case RemNext(h, cell, seen) => RemStoreNext(t, h, cell, seen);
      case RemPush(h, cell, seen) => var _, _ := RemSwapHead(t, h, cell, seen, spurious);
    }

    /** One step of any thread. */
    method Do(l: Label)
      requires Valid() && Ready(l)
      modifies this`registers, this`head, this`free, this`place, this`issued, this`deeds, next, generation, action
      ensures Valid() && Kept(old(State()), State()) && |registers| == |old(registers)|
      ensures forall u :: 0 <= u < |registers| && u != l.t ==>
        registers[u] == old(registers)[u] && deeds[u] == old(deeds)[u]
    {
      ReadyIsEnabled(l);
      match l
      case CallRegister(t, a) => StepKeeps(State(), l); registers := registers[t := RegLoad(a)];
      case CallRemove(t, h) => StepKeeps(State(), l); registers := registers[t := RemCas(h)];
      case Return(t) => StepKeeps(State(), l); registers := registers[t := Idle];
      case Internally(t, spurious) => AdvanceAny(t, spurious);
    }

    method AdvanceAny(t: nat, spurious: bool)
      requires Valid() && Ready(Internally(t, spurious))
      modifies this`registers, this`head, this`free, this`place, this`issued, this`deeds, next, generation, action
      ensures Valid() && Kept(old(State()), State()) && |registers| == |old(registers)|
      ensures forall u :: 0 <= u < |registers| && u != t ==>
        registers[u] == old(registers)[u] && deeds[u] == old(deeds)[u]
    {
      ghost var s := State();
      Advance(t, spurious);
      ghost var failed :| Did(s, State(), t, failed);
      StepKeeps(s, Internally(t, failed));
    }

    /** Whatever the others do before the next access of thread t. */
    method Others(t: nat)
      requires Valid() && t < |registers|
      modifies this`registers, this`head, this`free, this`place, this`issued, this`schedule, this`deeds,
               next, generation, action
      ensures Valid() && Later(old(State()), State(), t) && deeds[t] == old(deeds[t])
      ensures if old(schedule) == [] then schedule == [] && State() == old(State())
              else |schedule| == |old(schedule)| - 1
    {
      hide Inv;
      if schedule == [] { return; }
      var batch := schedule[0];
      schedule := schedule[1..];
      for k := 0 to |batch|
        invariant Valid() && Later(old(State()), State(), t) && schedule == old(schedule)[1..]
        invariant deeds[t] == old(deeds[t])
      {
        if batch[k].t != t && Ready(batch[k]) {
          Do(batch[k]);
        }
      }
    }

    /** Does the next weak compare-exchange fail spuriously? */
    method Fails() returns (f: bool)
      modifies this`failures
      ensures f ==> |failures| < |old(failures)|
      ensures |failures| <= |old(failures)|
    {
      f := false;
      if failures != [] {
        f := failures[0];
        failures := failures[1..];
      }
    }

    // ----- the calls -----

    /** A call begins. */
    method Enter(t: nat, l: Label)
      requires Valid() && Ready(l) && l.t == t && (l.CallRegister? || l.CallRemove?)
      modifies this`registers
      ensures Valid() && State() == Goto(old(State()), t, if l.CallRegister? then RegLoad(l.a) else RemCas(l.h))
      ensures LiveOnes() == old(LiveOnes())
    {
      hide LiveHandles;
      ReadyIsEnabled(l);
      CallEffect(State(), l);
      registers := registers[t := if l.CallRegister? then RegLoad(l.a) else RemCas(l.h)];
    }

    /** A call returns. */
    method Leave(t: nat)
      requires Valid() && t < |registers| && (registers[t].RegDone? || registers[t].RemDone?)
      modifies this`registers
      ensures Valid() && State() == Goto(old(State()), t, Idle) && LiveOnes() == old(LiveOnes())
    {
      hide LiveHandles;
      ReadyIsEnabled(Return(t));
      CallEffect(State(), Return(t));
      registers := registers[t := Idle];
    }

    // ----- register_action -----

    /** Once the head was swapped: the action is stored and the handle made. */
    method Install(t: nat, a: Action, index: nat) returns (h: Handle)
      requires Valid() && t < |registers| && registers[t] == RegStore(a, index)
      modifies this, next, generation, action
      ensures Valid() && |registers| == |old(registers)| && registers[t] == Idle
      ensures deeds[t] == old(deeds[t]) + [Issued(h)]
      ensures Kept(old(State()), State()) && h !in old(issued) && h in issued && issued[h] == a
      ensures IsLive(State(), h) && h.index == index
      ensures old(schedule) == [] ==> schedule == [] && free == old(free) && LiveOnes() == old(LiveOnes()) + {h}
    {
      hide Inv, Did, LiveHandles, Kept;
      Others(t);
      ghost var s1 := State();
      RegStoreAction(t, a, index);
      DidKeeps(s1, State(), t, false);
      KeptTwice(old(State()), s1, State());
      ghost var s2 := State();
      Others(t);
      ghost var s3 := State();
      KeptTwice(old(State()), s2, s3);
      StillIssued(old(State()), s3);
      h := RegLoadGeneration(t, a, index);
      DidKeeps(s3, State(), t, false);
      KeptTwice(old(State()), s3, State());
      ghost var s4 := State();
      Leave(t);
      KeptByLeaving(old(State()), s4, State());
    }

    /** One turn of the loop: read the successor of the head that was seen, and try to make it
        the head. A turn that fails is paid for by another thread or by a spurious failure. */
    method TryTake(t: nat, a: Action, seen: Head) returns (swapped: bool, now: Head)
      requires Valid() && t < |registers| && registers[t] == RegNext(a, seen) && seen == head
      modifies this, next, generation, action
      ensures Valid() && |registers| == |old(registers)| && Kept(old(State()), State())
      ensures deeds[t] == old(deeds[t])
      ensures if swapped then now == seen && registers[t] == RegStore(a, seen.index)
              else now == head && registers[t] == AfterHead(a, now)
      ensures !swapped ==> |schedule| + |failures| < |old(schedule)| + |old(failures)|
      ensures old(schedule) == [] ==>
        && schedule == [] && LiveOnes() == old(LiveOnes())
        && free == if swapped && old(free) != [] then old(free)[1..] else old(free)
    {
      hide Inv, LiveHandles, Kept;
      Others(t);
      ghost var s1 := State();
      var n := RegLoadNext(t, a, seen);
      DidKeeps(s1, State(), t, false);
      KeptTwice(old(State()), s1, State());
      ghost var s1' := State();
      Others(t);
      ghost var s2 := State();
      KeptTwice(old(State()), s1', s2);
      var weak := Fails();
      swapped, now := RegSwapHead(t, a, seen, n, weak);
      DidKeeps(s2, State(), t, weak);
      KeptTwice(old(State()), s2, State());
    }

    /** The load of the head before the loop. */
    method FirstLoad(t: nat, a: Action) returns (seen: Head)
      requires Valid() && t < |registers| && registers[t] == RegLoad(a)
      modifies this, next, generation, action
      ensures Valid() && |registers| == |old(registers)| && Kept(old(State()), State())
      ensures deeds[t] == old(deeds[t])
      ensures seen == head && registers[t] == AfterHead(a, seen)
      ensures old(schedule) == [] ==> schedule == [] && free == old(free) && LiveOnes() == old(LiveOnes())
    {
      hide Inv, LiveHandles;
      Others(t);
      ghost var s := State();
      seen := RegLoadHead(t, a);
      DidKeeps(s, State(), t, false);
    }

    /** register_action: either a fresh handle for the action, or there was a moment during the
        call at which the head said that the list is empty. */
    method RegisterAction(t: nat, a: Action) returns (result: Option<Handle>, ghost moment: Storage)
      requires Valid() && t < |registers| && registers[t].Idle?
      modifies this, next, generation, action
      ensures Valid() && |registers| == |old(registers)| && registers[t].Idle? && Kept(old(State()), State())
      ensures deeds[t] == old(deeds[t]) + if result.Some? then [Issued(result.value)] else []
      ensures result.Some? ==> var h := result.value;
        h !in old(issued) && h in issued && issued[h] == a && IsLive(State(), h)
      ensures result.None? ==> Inv(moment) && moment.free == [] && Kept(old(State()), moment) && Kept(moment, State())
      ensures old(schedule) == [] ==>
        && schedule == [] && (result.None? <==> old(free) == [])
        && (result.None? ==> free == [] && LiveOnes() == old(LiveOnes()))
        && (result.Some? ==> LiveOnes() == old(LiveOnes()) + {result.value})
        && (result.Some? ==> result.value.index == old(free)[0] && free == old(free)[1..])
    {
      hide Inv, Did, LiveHandles, Kept;
      ghost var s := State();
      Enter(t, CallRegister(t, a));
      KeptItself(s);
      KeptByLeaving(s, s, State());
      ghost var s1 := State();
      var oldHead := FirstLoad(t, a);
      KeptTwice(s, s1, State());
      moment := State();
      while true
        invariant Valid() && |registers| == |old(registers)| && Kept(old(State()), State())
        invariant deeds[t] == old(deeds[t])
        invariant registers[t] == AfterHead(a, oldHead) && oldHead == head
        invariant old(schedule) == [] ==> schedule == [] && free == old(free) && LiveOnes() == old(LiveOnes())
        decreases |schedule| + |failures|
      {
        HeadOfList(State());
        if oldHead.index == INVALID_INDEX {
          moment := State();
          KeptItself(moment);
          Leave(t);
          KeptByLeaving(s, moment, State());
          KeptByLeaving(moment, moment, State());
          return None, moment;
        }
        ghost var s2 := State();
        var swapped, now := TryTake(t, a, oldHead);
        KeptTwice(s, s2, State());
        oldHead := now;
        if swapped {
          ghost var s3 := State();
          var h := Install(t, a, oldHead.index);
          KeptTwice(s, s3, State());
          StillIssued(s, s3);
          return Some(h), moment;
        }
      }
    }

    // ----- remove_action -----

    /** The compare-exchange of the generation. */
    method Spend(t: nat, h: Handle) returns (won: bool)
      requires Valid() && t < |registers| && registers[t] == RemCas(h) && h in issued
      modifies this, next, generation, action
      ensures Valid() && |registers| == |old(registers)| && Kept(old(State()), State())
      ensures deeds[t] == old(deeds[t]) + if won then [Redeemed(h)] else []
      ensures R.Spent(State(), h) && (won ==> old(IsLive(State(), h)))
      ensures registers[t] == if won then RemMove(h) else RemDone(None)
      ensures old(schedule) == [] ==>
        && schedule == [] && free == old(free) && won == old(IsLive(State(), h))
        && LiveOnes() == if won then old(LiveOnes()) - {h} else old(LiveOnes())
    {
      hide Inv, Did, LiveHandles;
      Others(t);
      ghost var s := State();
      won := RemSwapGeneration(t, h);
      DidKeeps(s, State(), t, false);
    }

    /** For the winner: the action is moved out, and the head is read. */
    method MoveOut(t: nat, h: Handle) returns (cell: Option<Action>, seen: Head)
      requires Valid() && t < |registers| && registers[t] == RemMove(h) && h in issued
      modifies this, next, generation, action
      ensures Valid() && |registers| == |old(registers)| && Kept(old(State()), State())
      ensures deeds[t] == old(deeds[t])
      ensures cell == Some(old(issued)[h]) && seen == head && registers[t] == RemNext(h, cell, seen)
      ensures old(schedule) == [] ==> schedule == [] && free == old(free) && LiveOnes() == old(LiveOnes())
    {
      hide Inv, Did, LiveHandles, Kept;
      Others(t);
      ghost var s1 := State();
      cell := RemMoveAction(t, h);
      DidKeeps(s1, State(), t, false);
      KeptTwice(old(State()), s1, State());
      StillIssued(old(State()), State());
      ghost var s1' := State();
      Others(t);
      ghost var s2 := State();
      KeptTwice(old(State()), s1', s2);
      seen := RemLoadHead(t, h, cell);
      DidKeeps(s2, State(), t, false);
      KeptTwice(old(State()), s2, State());
    }

    /** One turn of the loop that gives the slot back. */
    method TryGiveBack(t: nat, h: Handle, cell: Option<Action>, seen: Head) returns (swapped: bool, now: Head)
      requires Valid() && t < |registers| && registers[t] == RemNext(h, cell, seen) && seen == head
      modifies this, next, generation, action
      ensures Valid() && |registers| == |old(registers)| && Kept(old(State()), State())
      ensures deeds[t] == old(deeds[t])
      ensures if swapped then registers[t] == RemDone(Some(cell))
              else now == head && registers[t] == RemNext(h, cell, now)
      ensures !swapped ==> |schedule| + |failures| < |old(schedule)| + |old(failures)|
      ensures old(schedule) == [] ==>
        && schedule == [] && LiveOnes() == old(LiveOnes())
        && free == if swapped then [h.index] + old(free) else old(free)
    {
      hide Inv, Did, LiveHandles, Kept;
      Others(t);
      ghost var s1 := State();
      RemStoreNext(t, h, cell, seen);
      DidKeeps(s1, State(), t, false);
      KeptTwice(old(State()), s1, State());
      ghost var s1' := State();
      Others(t);
      ghost var s2 := State();
      KeptTwice(old(State()), s1', s2);
      var weak := Fails();
      swapped, now := RemSwapHead(t, h, cell, seen, weak);
      DidKeeps(s2, State(), t, weak);
      KeptTwice(old(State()), s2, State());
    }

    /** The loop that gives the slot back. */
    method GiveSlotBack(t: nat, h: Handle, cell: Option<Action>, seen: Head)
      requires Valid() && t < |registers| && registers[t] == RemNext(h, cell, seen) && seen == head
      modifies this, next, generation, action
      ensures Valid() && |registers| == |old(registers)| && Kept(old(State()), State())
      ensures deeds[t] == old(deeds[t])
      ensures registers[t] == RemDone(Some(cell))
      ensures old(schedule) == [] ==> schedule == [] && free == [h.index] + old(free) && LiveOnes() == old(LiveOnes())
    {
      hide Inv, Did, LiveHandles;
      var oldHead, swapped := seen, false;
      while !swapped
        invariant Valid() && |registers| == |old(registers)| && Kept(old(State()), State())
        invariant deeds[t] == old(deeds[t])
        invariant registers[t] == if swapped then RemDone(Some(cell)) else RemNext(h, cell, oldHead)
        invariant !swapped ==> oldHead == head
        invariant old(schedule) == [] ==>
          && schedule == [] && LiveOnes() == old(LiveOnes())
          && free == if swapped then [h.index] + old(free) else old(free)
        decreases !swapped, |schedule| + |failures|
      {
        swapped, oldHead := TryGiveBack(t, h, cell, oldHead);
      }
    }

    /** remove_action: the handle is spent afterwards whoever spent it, and whoever did got the
        very action that was registered. */
    method RemoveAction(t: nat, h: Handle) returns (result: Option<Option<Action>>)
      requires Valid() && t < |registers| && registers[t].Idle? && h in issued
      modifies this, next, generation, action
      ensures Valid() && |registers| == |old(registers)| && registers[t].Idle? && Kept(old(State()), State())
      ensures deeds[t] == old(deeds[t]) + if result.Some? then [Redeemed(h)] else []
      ensures R.Spent(State(), h)
      ensures result.Some? ==> old(IsLive(State(), h)) && result == Some(Some(old(issued)[h]))
      ensures old(schedule) == [] ==>
        && schedule == [] && result.Some? == old(IsLive(State(), h))
        && free == (if result.Some? then [h.index] + old(free) else old(free))
        && LiveOnes() == if result.Some? then old(LiveOnes()) - {h} else old(LiveOnes())
    {
      hide Inv, Did, LiveHandles, Kept;
      ghost var s := State();
      Enter(t, CallRemove(t, h));
      KeptItself(s);
      KeptByLeaving(s, s, State());
      ghost var s1 := State();
      var won := Spend(t, h);
      KeptTwice(s, s1, State());
      StillIssued(s1, State());
      result := None;
      if won {
        ghost var s2 := State();
        var cell, oldHead := MoveOut(t, h);
        KeptTwice(s, s2, State());
        SpentStill(s2, State(), h);
        ghost var s3 := State();
        GiveSlotBack(t, h, cell, oldHead);
        KeptTwice(s, s3, State());
        SpentStill(s3, State(), h);
        result := Some(cell);
      }
      ghost var s4 := State();
      Leave(t);
      KeptByLeaving(s, s4, State());
    }
  }

  /** The step of thread t leads from s to s'. */
  ghost predicate Did(s: Storage, s': Storage, t: nat, spurious: bool)
  {
    Enabled(s, Internally(t, spurious)) && s' == Apply(s, Internally(t, spurious))
  }

  lemma HeadOfList(s: Storage)
    requires Inv(s)
    ensures s.head.index == INVALID_INDEX <==> s.free == []
    ensures s.free != [] ==> s.head.index == s.free[0]
  {
    if s.free != [] { assert s.free[0] < |s.next|; }
  }

  lemma NeverLive(s: Storage, h: Handle)
    requires h !in s.issued
    ensures h !in LiveHandles(s) && LiveHandles(s) + {h} - {h} == LiveHandles(s)
  {
  }

  /** How the step of thread t changes the set of live handles: it grows by the handle that is
      issued and shrinks by the one that is redeemed. */
  ghost predicate LiveStep(s: Storage, s': Storage, t: nat)
  {
    && t < |s.pc| && t < |s'.pc|
    && LiveHandles(s') == match s.pc[t]
       case RegGen(_, _) =>
         (if s'.pc[t].RegDone? && s'.pc[t].handle.Some? then LiveHandles(s) + {s'.pc[t].handle.value} else {})
       case RemCas(h) => (if IsLive(s, h) then LiveHandles(s) - {h} else LiveHandles(s))
       case _ => LiveHandles(s)
  }

  lemma DidKeeps(s: Storage, s': Storage, t: nat, spurious: bool)
    requires Inv(s) && Did(s, s', t, spurious)
    ensures Kept(s, s') && |s'.pc| == |s.pc| && LiveStep(s, s', t)
  {
    hide LiveHandles, Inv;
    StepKeeps(s, Internally(t, spurious));
    StepEffect(s, t, spurious);
  }
}
