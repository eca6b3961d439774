// The slot allocator of include/ActionStorage.hpp as a state machine: the shared
// memory, one program counter per thread, and one step per access to shared memory.
module StorageMachine {
  import opened Base
  import opened Handles

  datatype Head = Head(tag: nat, index: nat)

  const INVALID_INDEX: nat := 0xFFFF_FFFF

  /** Where a thread stands inside register_action or remove_action; the arguments are
      its local variables. */
  datatype Pc =
    | Idle
    // register_action
    | RegLoad(a: Action)                         // before the load of m_head
    | RegNext(a: Action, seen: Head)              // before the load of next
    | RegCas(a: Action, seen: Head, next: nat)    // before the compare-exchange of m_head
    | RegStore(a: Action, index: nat)            // before the action is moved in
    | RegGen(a: Action, index: nat)              // before the load of generation
    | RegDone(handle: Option<Handle>)
    // remove_action
    | RemCas(h: Handle)                          // before the compare-exchange of generation
    | RemMove(h: Handle)                         // before the action is moved out
    | RemLoad(h: Handle, cell: Option<Action>)   // before the load of m_head
    | RemNext(h: Handle, cell: Option<Action>, seen: Head)  // before the store of next
    | RemPush(h: Handle, cell: Option<Action>, seen: Head)  // before the compare-exchange of m_head
    | RemDone(result: Option<Option<Action>>)    // None: refused; Some(cell): the slot's content

  /** The one owner of a slot. */
  datatype Place = Free | Installing(t: nat) | Live | Returning(t: nat)

  /** The first five fields are what the code has; the last three are history that no step
      reads: the free list, the owner of every slot and the actions behind issued handles. */
  datatype Storage = Storage(
    head: Head,
    next: seq<nat>,
    generation: seq<nat>,
    action: seq<Option<Action>>,
    pc: seq<Pc>,
    free: seq<nat>,
    place: seq<Place>,
    issued: map<Handle, Action>)

  // ----- the constructor -----

  function Init(size: nat, threads: nat): Storage
    requires 1 <= size <= INVALID_INDEX
  {
    Storage(
      Head(0, 0),
      seq(size, i => if i == size - 1 then INVALID_INDEX else i + 1),
      seq(size, i => 0),
      seq(size, i => None),
      seq(threads, t => Idle),
      seq(size, i => i),
      seq(size, i => Free),
      map[])
  }

  // ----- steps -----

  predicate Sizes(s: Storage)
  {
    && 1 <= |s.next| <= INVALID_INDEX
    && |s.generation| == |s.action| == |s.place| == |s.next|
  }

  predicate PcInRange(pc: Pc, size: nat)
  {
    match pc
    case RegNext(_, seen) => seen.index < size
    case RegCas(_, seen, _) => seen.index < size
    case RegStore(_, i) => i < size
    case RegGen(_, i) => i < size
    case RemMove(h) => h.index < size
    case RemLoad(h, _) => h.index < size
    case RemNext(h, _, _) => h.index < size
    case RemPush(h, _, _) => h.index < size
    case _ => true
  }

  predicate Internal(pc: Pc)
  {
    !pc.Idle? && !pc.RegDone? && !pc.RemDone?
  }

  predicate Registering(pc: Pc)
  {
    pc.RegLoad? || pc.RegNext? || pc.RegCas? || pc.RegStore? || pc.RegGen?
  }

  datatype Label =
    | CallRegister(t: nat, a: Action)
    | CallRemove(t: nat, h: Handle)
    | Internally(t: nat, spurious: bool)   // spurious: a weak compare-exchange may fail for no reason
    | Return(t: nat)

  predicate Enabled(s: Storage, l: Label)
  {
    && Sizes(s)
    && l.t < |s.pc|
    && match l
       case CallRegister(t, _) => s.pc[t].Idle?
       case CallRemove(t, h) => s.pc[t].Idle? && h in s.issued
       case Internally(t, _) => Internal(s.pc[t]) && PcInRange(s.pc[t], |s.next|)
       case Return(t) => s.pc[t].RegDone? || s.pc[t].RemDone?
  }

  function Goto(s: Storage, t: nat, pc: Pc): Storage
    requires t < |s.pc|
  {
    s.(pc := s.pc[t := pc])
  }

  /** After m_head was read into old_head: leave when the list is empty, else go on. */
  function AfterHead(a: Action, head: Head): Pc
  {
    if head.index == INVALID_INDEX then RegDone(None) else RegNext(a, head)
  }

  function Apply(s: Storage, l: Label): Storage
    requires Enabled(s, l)
  {
    match l
    case CallRegister(t, a) => Goto(s, t, RegLoad(a))
    case CallRemove(t, h) => Goto(s, t, RemCas(h))
    case Internally(t, spurious) => Step(s, t, spurious)
    case Return(t) => Goto(s, t, Idle)
  }

  /** The compare-exchange of register_action succeeds: the first free slot is taken. */
  function TakeHead(s: Storage, t: nat, a: Action, next: nat): Storage
    requires Sizes(s) && t < |s.pc| && s.head.index < |s.next|
  {
    Goto(s.(head := Head(s.head.tag + 1, next),
            free := if s.free == [] then [] else s.free[1..],
            place := s.place[s.head.index := Installing(t)]),
         t, RegStore(a, s.head.index))
  }

  function StoreAction(s: Storage, t: nat, a: Action, i: nat): Storage
    requires Sizes(s) && t < |s.pc| && i < |s.next|
  {
    Goto(s.(action := s.action[i := Some(a)]), t, RegGen(a, i))
  }

  /** The generation is read: from now on the handle is issued. */
  function Issue(s: Storage, t: nat, a: Action, i: nat): Storage
    requires Sizes(s) && t < |s.pc| && i < |s.next|
  {
    var h := Handle(i, s.generation[i]);
    Goto(s.(place := s.place[i := Live], issued := s.issued[h := a]), t, RegDone(Some(h)))
  }

  /** The compare-exchange of remove_action succeeds: the handle is spent. */
  function Redeem(s: Storage, t: nat, h: Handle): Storage
    requires Sizes(s) && t < |s.pc| && h.index < |s.next|
  {
    Goto(s.(generation := s.generation[h.index := h.generation + 1],
            place := s.place[h.index := Returning(t)]),
         t, RemMove(h))
  }

  function MoveOut(s: Storage, t: nat, h: Handle): Storage
    requires Sizes(s) && t < |s.pc| && h.index < |s.next|
  {
    Goto(s.(action := s.action[h.index := None]), t, RemLoad(h, s.action[h.index]))
  }

  function LinkNext(s: Storage, t: nat, h: Handle, cell: Option<Action>, seen: Head): Storage
    requires Sizes(s) && t < |s.pc| && h.index < |s.next|
  {
    Goto(s.(next := s.next[h.index := seen.index]), t, RemPush(h, cell, seen))
  }

  /** The compare-exchange of m_head in remove_action succeeds: the slot heads the list. */
  function GiveBack(s: Storage, t: nat, h: Handle, cell: Option<Action>): Storage
    requires Sizes(s) && t < |s.pc| && h.index < |s.next|
  {
    Goto(s.(head := Head(s.head.tag + 1, h.index),
            free := [h.index] + s.free,
            place := s.place[h.index := Free]),
         t, RemDone(Some(cell)))
  }

  function Step(s: Storage, t: nat, spurious: bool): Storage
    requires Enabled(s, Internally(t, spurious))
  {
    match s.pc[t]
    case RegLoad(a) => Goto(s, t, AfterHead(a, s.head))
    case RegNext(a, seen) => Goto(s, t, RegCas(a, seen, s.next[seen.index]))
    case RegCas(a, seen, next) =>
      if s.head == seen && !spurious then TakeHead(s, t, a, next)
      else Goto(s, t, AfterHead(a, s.head))
    case RegStore(a, i) => StoreAction(s, t, a, i)
    case RegGen(a, i) => Issue(s, t, a, i)
    case RemCas(h) =>
      if h.index >= |s.next| || s.generation[h.index] != h.generation then Goto(s, t, RemDone(None))
      else Redeem(s, t, h)
    case RemMove(h) => MoveOut(s, t, h)
    case RemLoad(h, cell) => Goto(s, t, RemNext(h, cell, s.head))
    case RemNext(h, cell, seen) => LinkNext(s, t, h, cell, seen)
    case RemPush(h, cell, seen) =>
      if s.head == seen && !spurious then GiveBack(s, t, h, cell)
      else Goto(s, t, RemNext(h, cell, s.head))
  }

  // ----- runs -----

  predicate EnabledAll(s: Storage, run: seq<Label>)
    decreases |run|
  {
    run == [] || (Enabled(s, run[0]) && EnabledAll(Apply(s, run[0]), run[1..]))
  }

  function ApplyAll(s: Storage, run: seq<Label>): Storage
    requires EnabledAll(s, run)
    decreases |run|
  {
    if run == [] then s else ApplyAll(Apply(s, run[0]), run[1..])
  }

  // ----- the invariant -----

  /** What follows position k of the free list. */
  function Successor(free: seq<nat>, k: nat): nat
  {
    if k + 1 < |free| then free[k + 1] else INVALID_INDEX
  }

  predicate Linked(next: seq<nat>, list: seq<nat>, k: nat)
    requires k < |list|
  {
    list[k] < |next| && next[list[k]] == Successor(list, k)
  }

  ghost predicate Chained(next: seq<nat>, list: seq<nat>)
  {
    forall k :: 0 <= k < |list| ==> Linked(next, list, k)
  }

  /** From m_head the next links run through exactly the free slots, each once. */
  ghost predicate FreeListInv(s: Storage)
    requires Sizes(s)
  {
    && Distinct(s.free)
    && s.head.index == (if s.free == [] then INVALID_INDEX else s.free[0])
    && (forall k :: 0 <= k < |s.free| ==>
          s.free[k] < |s.next| && s.place[s.free[k]] == Free)
    && Chained(s.next, s.free)
    && (forall i :: 0 <= i < |s.next| && s.place[i] == Free ==> i in s.free)
  }

  /** A head read earlier is older than m_head, or is m_head. */
  predicate Observed(s: Storage, seen: Head)
  {
    seen.tag < s.head.tag || seen == s.head
  }

  ghost predicate ReturningOk(s: Storage, t: nat, h: Handle)
    requires Sizes(s)
  {
    && h.index < |s.next|
    && s.place[h.index] == Returning(t)
    && s.generation[h.index] == h.generation + 1
    && h in s.issued
  }

  /** What a thread's local variables say about shared memory. */
  ghost predicate ThreadOk(s: Storage, t: nat)
    requires Sizes(s) && t < |s.pc|
  {
    match s.pc[t]
    case RegNext(_, seen) => seen.index < |s.next| && Observed(s, seen)
    case RegCas(_, seen, next) =>
      && seen.index < |s.next| && Observed(s, seen)
      && (seen == s.head ==> next == s.next[seen.index])
    case RegStore(_, i) => i < |s.next| && s.place[i] == Installing(t)
    case RegGen(a, i) => i < |s.next| && s.place[i] == Installing(t) && s.action[i] == Some(a)
    case RemCas(h) => h in s.issued
    case RemMove(h) => ReturningOk(s, t, h) && s.action[h.index] == Some(s.issued[h])
    case RemLoad(h, cell) => ReturningOk(s, t, h) && cell == Some(s.issued[h])
    case RemNext(h, cell, seen) =>
      ReturningOk(s, t, h) && cell == Some(s.issued[h]) && Observed(s, seen)
    case RemPush(h, cell, seen) =>
      && ReturningOk(s, t, h) && cell == Some(s.issued[h])
      && Observed(s, seen) && s.next[h.index] == seen.index
    case _ => true
  }

  ghost predicate ThreadsInv(s: Storage)
    requires Sizes(s)
  {
    forall t :: 0 <= t < |s.pc| ==> ThreadOk(s, t)
  }

  function IndexOf(pc: Pc): nat
    requires InstallingPc(pc) || ReturningPc(pc)
  {
    if InstallingPc(pc) then pc.index else pc.h.index
  }

  predicate InstallingPc(pc: Pc)
  {
    pc.RegStore? || pc.RegGen?
  }

  predicate ReturningPc(pc: Pc)
  {
    pc.RemMove? || pc.RemLoad? || pc.RemNext? || pc.RemPush?
  }

  /** The owner recorded for a slot is a thread that really holds it. */
  ghost predicate PlacesInv(s: Storage)
    requires Sizes(s)
  {
    forall i :: 0 <= i < |s.next| ==>
      match s.place[i]
      case Installing(t) => t < |s.pc| && InstallingPc(s.pc[t]) && IndexOf(s.pc[t]) == i
      case Returning(t) => t < |s.pc| && ReturningPc(s.pc[t]) && IndexOf(s.pc[t]) == i
      case _ => true
  }

  predicate IsLive(s: Storage, h: Handle)
  {
    h in s.issued && h.index < |s.generation| && s.generation[h.index] == h.generation
  }

  /** The live slots are those whose current generation was issued, and they hold the
      registered action; no issued generation is ahead of its slot. */
  ghost predicate HandlesInv(s: Storage)
    requires Sizes(s)
  {
    && (forall h :: h in s.issued ==> h.index < |s.next| && h.generation <= s.generation[h.index])
    && (forall i :: 0 <= i < |s.next| ==>
          (s.place[i] == Live <==> Handle(i, s.generation[i]) in s.issued))
    && (forall i :: 0 <= i < |s.next| && s.place[i] == Live ==>
          s.action[i] == Some(s.issued[Handle(i, s.generation[i])]))
  }

  ghost predicate Inv(s: Storage)
  {
    Sizes(s) && FreeListInv(s) && ThreadsInv(s) && PlacesInv(s) && HandlesInv(s)
  }

  // ----- the invariant holds in every run -----

  lemma InitInv(size: nat, threads: nat)
    requires 1 <= size <= INVALID_INDEX
    ensures Inv(Init(size, threads))
  {
    var s := Init(size, threads);
    forall i | 0 <= i < size ensures i in s.free { assert s.free[i] == i; }
  }

  /** A step that only moves thread t's program counter. */
  lemma GotoInv(s: Storage, t: nat, pc: Pc)
    requires Inv(s) && t < |s.pc|
    requires ThreadOk(Goto(s, t, pc), t)
    requires InstallingPc(pc) == InstallingPc(s.pc[t]) && ReturningPc(pc) == ReturningPc(s.pc[t])
    requires InstallingPc(pc) || ReturningPc(pc) ==> IndexOf(pc) == IndexOf(s.pc[t])
    ensures Inv(Goto(s, t, pc))
  {
    var s' := Goto(s, t, pc);
    forall u | 0 <= u < |s.pc| ensures ThreadOk(s', u) {
      assert ThreadOk(s, u);
    }
  }

  lemma TakeHeadThreads(s: Storage, t: nat, a: Action, next: nat)
    requires Sizes(s) && t < |s.pc| && FreeListInv(s) && ThreadsInv(s) && s.head.index < |s.next|
    ensures ThreadsInv(TakeHead(s, t, a, next))
  {
    var s' := TakeHead(s, t, a, next);
    assert s.place[s.free[0]] == Free;
    forall u | 0 <= u < |s.pc| ensures ThreadOk(s', u) { assert ThreadOk(s, u); }
  }

  lemma TakeHeadFreeList(s: Storage, t: nat, a: Action, next: nat)
    requires Sizes(s) && t < |s.pc| && FreeListInv(s) && s.head.index < |s.next|
    requires next == s.next[s.head.index]
    ensures FreeListInv(TakeHead(s, t, a, next))
  {
    var s' := TakeHead(s, t, a, next);
    assert Linked(s.next, s.free, 0);
    forall k | 0 <= k < |s'.free| ensures Linked(s'.next, s'.free, k) {
      assert Linked(s.next, s.free, k + 1);
    }
    forall i | 0 <= i < |s.next| && s'.place[i] == Free ensures i in s'.free {
      assert i in s.free && i != s.free[0];
    }
  }

  lemma TakeHeadInv(s: Storage, t: nat, a: Action, seen: Head, next: nat)
    requires Inv(s) && t < |s.pc| && s.pc[t] == RegCas(a, seen, next) && seen == s.head
    ensures s.head.index < |s.next| && Inv(TakeHead(s, t, a, next))
  {
    assert ThreadOk(s, t);
    assert s.place[s.free[0]] == Free;
    TakeHeadThreads(s, t, a, next);
    TakeHeadFreeList(s, t, a, next);
  }

  lemma StoreActionInv(s: Storage, t: nat, a: Action, i: nat)
    requires Inv(s) && t < |s.pc| && s.pc[t] == RegStore(a, i)
    ensures i < |s.next| && Inv(StoreAction(s, t, a, i))
  {
    assert ThreadOk(s, t);
    var s' := StoreAction(s, t, a, i);
    forall u | 0 <= u < |s.pc| ensures ThreadOk(s', u) { assert ThreadOk(s, u); }
  }

  lemma IssueInv(s: Storage, t: nat, a: Action, i: nat)
    requires Inv(s) && t < |s.pc| && s.pc[t] == RegGen(a, i)
    ensures i < |s.next| && Inv(Issue(s, t, a, i))
  {
    assert ThreadOk(s, t);
    var s' := Issue(s, t, a, i);
    forall u | 0 <= u < |s.pc| ensures ThreadOk(s', u) { assert ThreadOk(s, u); }
  }

  lemma RedeemThreads(s: Storage, t: nat, h: Handle)
    requires Sizes(s) && ThreadsInv(s) && HandlesInv(s) && t < |s.pc| && IsLive(s, h)
    ensures ThreadsInv(Redeem(s, t, h))
  {
    var s' := Redeem(s, t, h);
    assert s.place[h.index] == Live;
    forall u | 0 <= u < |s.pc| ensures ThreadOk(s', u) { assert ThreadOk(s, u); }
  }

  lemma RedeemInv(s: Storage, t: nat, h: Handle)
    requires Inv(s) && t < |s.pc| && s.pc[t] == RemCas(h) && IsLive(s, h)
    ensures Inv(Redeem(s, t, h))
  {
    assert s.place[h.index] == Live;
    RedeemThreads(s, t, h);
  }

  lemma MoveOutInv(s: Storage, t: nat, h: Handle)
    requires Inv(s) && t < |s.pc| && s.pc[t] == RemMove(h)
    ensures h.index < |s.next| && Inv(MoveOut(s, t, h))
  {
    assert ThreadOk(s, t);
    var s' := MoveOut(s, t, h);
    forall u | 0 <= u < |s.pc| ensures ThreadOk(s', u) { assert ThreadOk(s, u); }
  }

  lemma LinkNextInv(s: Storage, t: nat, h: Handle, cell: Option<Action>, seen: Head)
    requires Inv(s) && t < |s.pc| && s.pc[t] == RemNext(h, cell, seen)
    ensures h.index < |s.next| && Inv(LinkNext(s, t, h, cell, seen))
  {
    assert ThreadOk(s, t);
    var s' := LinkNext(s, t, h, cell, seen);
    assert s.free != [] ==> s.place[s.free[0]] == Free;
    forall k | 0 <= k < |s.free| ensures Linked(s'.next, s.free, k) {
      assert Linked(s.next, s.free, k) && s.place[s.free[k]] == Free;
    }
    forall u | 0 <= u < |s.pc| ensures ThreadOk(s', u) { assert ThreadOk(s, u); }
  }

  lemma GiveBackThreads(s: Storage, t: nat, h: Handle, cell: Option<Action>)
    requires Sizes(s) && t < |s.pc| && ThreadsInv(s) && h.index < |s.next| && s.place[h.index] == Returning(t)
    ensures ThreadsInv(GiveBack(s, t, h, cell))
  {
    var s' := GiveBack(s, t, h, cell);
    forall u | 0 <= u < |s.pc| ensures ThreadOk(s', u) { assert ThreadOk(s, u); }
  }

  lemma GiveBackFreeList(s: Storage, t: nat, h: Handle, cell: Option<Action>)
    requires Sizes(s) && t < |s.pc| && FreeListInv(s) && h.index < |s.next|
    requires s.place[h.index] == Returning(t) && s.next[h.index] == s.head.index
    ensures FreeListInv(GiveBack(s, t, h, cell))
  {
    var s' := GiveBack(s, t, h, cell);
    var i := h.index;
    assert i !in s.free;
    forall k | 0 <= k < |s'.free| ensures Linked(s'.next, s'.free, k) {
      if k > 0 { assert Linked(s.next, s.free, k - 1); }
    }
    forall j | 0 <= j < |s.next| && s'.place[j] == Free ensures j in s'.free {
      assert j != i ==> j in s.free;
      assert s'.free[0] == i;
    }
  }

  lemma GiveBackInv(s: Storage, t: nat, h: Handle, cell: Option<Action>, seen: Head)
    requires Inv(s) && t < |s.pc| && s.pc[t] == RemPush(h, cell, seen) && seen == s.head
    ensures h.index < |s.next| && Inv(GiveBack(s, t, h, cell))
  {
    assert ThreadOk(s, t);
    GiveBackThreads(s, t, h, cell);
    GiveBackFreeList(s, t, h, cell);
  }

  lemma RegisterStepInv(s: Storage, t: nat, spurious: bool)
    requires Inv(s) && Enabled(s, Internally(t, spurious)) && Registering(s.pc[t])
    ensures Inv(Step(s, t, spurious))
  {
    assert ThreadOk(s, t);
    match s.pc[t]
    case RegLoad(a) => GotoInv(s, t, AfterHead(a, s.head));
    case RegNext(a, seen) => GotoInv(s, t, RegCas(a, seen, s.next[seen.index]));
    case RegCas(a, seen, next) =>
      if s.head == seen && !spurious { TakeHeadInv(s, t, a, seen, next); }
      else { GotoInv(s, t, AfterHead(a, s.head)); }
    case RegStore(a, i) => StoreActionInv(s, t, a, i);
    case RegGen(a, i) => IssueInv(s, t, a, i);
  }

  lemma RemoveStepInv(s: Storage, t: nat, spurious: bool)
    requires Inv(s) && Enabled(s, Internally(t, spurious)) && !Registering(s.pc[t])
    ensures Inv(Step(s, t, spurious))
  {
    assert ThreadOk(s, t);
    match s.pc[t]
    case RemCas(h) => if IsLive(s, h) { RedeemInv(s, t, h); } else { GotoInv(s, t, RemDone(None)); }
    case RemMove(h) => MoveOutInv(s, t, h);
    case RemLoad(h, cell) => GotoInv(s, t, RemNext(h, cell, s.head));
    case RemNext(h, cell, seen) => LinkNextInv(s, t, h, cell, seen);
    case RemPush(h, cell, seen) =>
      if s.head == seen && !spurious { GiveBackInv(s, t, h, cell, seen); }
      else { GotoInv(s, t, RemNext(h, cell, s.head)); }
  }

  lemma ApplyInv(s: Storage, l: Label)
    requires Inv(s) && Enabled(s, l)
    ensures Inv(Apply(s, l))
  {
    match l
    case CallRegister(t, a) => GotoInv(s, t, RegLoad(a));
    case CallRemove(t, h) => GotoInv(s, t, RemCas(h));
    case Internally(t, spurious) =>
      if Registering(s.pc[t]) { RegisterStepInv(s, t, spurious); } else { RemoveStepInv(s, t, spurious); }
    case Return(t) => GotoInv(s, t, Idle);
  }

  lemma {:induction false} RunInv(s: Storage, run: seq<Label>)
    requires Inv(s) && EnabledAll(s, run)
    ensures Inv(ApplyAll(s, run))
    decreases |run|
  {
    if run != [] {
      ApplyInv(s, run[0]);
      RunInv(Apply(s, run[0]), run[1..]);
    }
  }

  // ----- what a caller of the allocator can rely on, step by step -----

  function LiveHandles(s: Storage): set<Handle>
  {
    set h | h in s.issued && IsLive(s, h)
  }

  predicate Removing(pc: Pc)
  {
    ReturningPc(pc) || pc.RemCas? || pc.RemDone?
  }

  /** One step of thread t seen from outside: what is issued, what is live, where t goes. */
  ghost predicate Effect(s: Storage, s': Storage, t: nat)
    requires t < |s.pc|
  {
    && |s'.pc| == |s.pc|
    && (forall u :: 0 <= u < |s.pc| && u != t ==> s'.pc[u] == s.pc[u])
    && match s.pc[t]
       case RegGen(a, i) =>
         && s'.pc[t].RegDone? && s'.pc[t].handle.Some?
         && var h := s'.pc[t].handle.value;
            h !in s.issued && s'.issued == s.issued[h := a] && LiveHandles(s') == LiveHandles(s) + {h}
       case RemCas(h) =>
         && s'.issued == s.issued
         && (if IsLive(s, h) then s'.pc[t] == RemMove(h) && LiveHandles(s') == LiveHandles(s) - {h}
             else s'.pc[t] == RemDone(None) && LiveHandles(s') == LiveHandles(s))
       case _ =>
         && s'.issued == s.issued && LiveHandles(s') == LiveHandles(s)
         && (Registering(s.pc[t]) ==> Registering(s'.pc[t]) || s'.pc[t] == RegDone(None))
         && (ReturningPc(s.pc[t]) ==>
               && s.pc[t].h in s.issued
               && ((ReturningPc(s'.pc[t]) && s'.pc[t].h == s.pc[t].h)
                   || s'.pc[t] == RemDone(Some(Some(s.issued[s.pc[t].h])))))
  }

  lemma RegisterEffect(s: Storage, t: nat, spurious: bool)
    requires Inv(s) && Enabled(s, Internally(t, spurious)) && Registering(s.pc[t])
    ensures Effect(s, Step(s, t, spurious), t)
  {
    var s' := Step(s, t, spurious);
    assert ThreadOk(s, t);
    if s.pc[t].RegGen? {
      assert LiveHandles(s') == LiveHandles(s) + {s'.pc[t].handle.value};
    } else {
      assert LiveHandles(s') == LiveHandles(s);
    }
  }

  lemma RemoveEffect(s: Storage, t: nat, spurious: bool)
    requires Inv(s) && Enabled(s, Internally(t, spurious)) && !Registering(s.pc[t])
    ensures Effect(s, Step(s, t, spurious), t)
  {
    var s' := Step(s, t, spurious);
    assert ThreadOk(s, t);
    if s.pc[t].RemCas? && IsLive(s, s.pc[t].h) {
      assert LiveHandles(s') == LiveHandles(s) - {s.pc[t].h};
    } else {
      assert LiveHandles(s') == LiveHandles(s);
    }
  }

  lemma StepEffect(s: Storage, t: nat, spurious: bool)
    requires Inv(s) && Enabled(s, Internally(t, spurious))
    ensures Inv(Apply(s, Internally(t, spurious)))
    ensures Effect(s, Apply(s, Internally(t, spurious)), t)
  {
    ApplyInv(s, Internally(t, spurious));
    if Registering(s.pc[t]) { RegisterEffect(s, t, spurious); } else { RemoveEffect(s, t, spurious); }
  }

  /** Entering and leaving a call touches nothing but the program counter. */
  lemma CallEffect(s: Storage, l: Label)
    requires Inv(s) && Enabled(s, l) && !l.Internally?
    ensures Inv(Apply(s, l)) && |Apply(s, l).pc| == |s.pc|
    ensures forall u :: 0 <= u < |s.pc| && u != l.t ==> Apply(s, l).pc[u] == s.pc[u]
    ensures Apply(s, l).issued == s.issued && LiveHandles(Apply(s, l)) == LiveHandles(s)
  {
    ApplyInv(s, l);
    assert LiveHandles(Apply(s, l)) == LiveHandles(s);
  }
}
