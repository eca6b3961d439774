// What the slot allocator promises over every run.
module StorageResults {
  import opened Base
  import opened Handles
  import opened StorageMachine

  // ----- what the invariant means -----

  /** Some run of some threads over a fresh storage ends here. */
  ghost predicate Reachable(s: Storage)
  {
    exists size: nat, threads: nat, run: seq<Label> ::
      && 1 <= size <= INVALID_INDEX
      && EnabledAll(Init(size, threads), run)
      && s == ApplyAll(Init(size, threads), run)
  }

  lemma ReachableInv(s: Storage)
    requires Reachable(s)
    ensures Inv(s)
  {
    var size: nat, threads: nat, run: seq<Label> :|
      && 1 <= size <= INVALID_INDEX
      && EnabledAll(Init(size, threads), run)
      && s == ApplyAll(Init(size, threads), run);
    InitInv(size, threads);
    RunInv(Init(size, threads), run);
  }

  /** The slots met by following next from a slot, in shared memory. */
  function Walk(next: seq<nat>, from: nat, fuel: nat): seq<nat>
    decreases fuel
  {
    if fuel == 0 || from >= |next| then [] else [from] + Walk(next, next[from], fuel - 1)
  }

  function FirstOf(list: seq<nat>): nat
  {
    if list == [] then INVALID_INDEX else list[0]
  }

  lemma ChainedTail(next: seq<nat>, list: seq<nat>)
    requires Chained(next, list) && list != []
    ensures list[0] < |next| && next[list[0]] == FirstOf(list[1..]) && Chained(next, list[1..])
  {
    assert Linked(next, list, 0);
    forall k | 0 <= k < |list[1..]| ensures Linked(next, list[1..], k) {
      assert Linked(next, list, k + 1);
    }
  }

  lemma {:induction false} WalkFollows(next: seq<nat>, list: seq<nat>, fuel: nat)
    requires |list| <= fuel && |next| <= INVALID_INDEX
    requires Chained(next, list)
    ensures Walk(next, FirstOf(list), fuel) == list
    decreases fuel
  {
    if list != [] {
      ChainedTail(next, list);
      WalkFollows(next, list[1..], fuel - 1);
    }
  }

  lemma {:induction false} DistinctBelow(s: seq<nat>, n: nat)
    requires Distinct(s) && forall k :: 0 <= k < |s| ==> s[k] < n
    ensures |s| <= n
    decreases n
  {
    if k :| 0 <= k < |s| && s[k] == n - 1 {
      var rest := s[..k] + s[k + 1..];
      forall j | 0 <= j < |rest| ensures rest[j] < n - 1 {
        assert rest[j] == s[if j < k then j else j + 1];
      }
      DistinctBelow(rest, n - 1);
    } else if |s| > 0 {
      assert s[0] < n;
      DistinctBelow(s, n - 1);
    }
  }

  lemma WalkIsFree(s: Storage)
    requires Sizes(s) && FreeListInv(s)
    ensures Walk(s.next, s.head.index, |s.next|) == s.free
    ensures Walk(s.next, s.head.index, |s.next| + 1) == s.free
  {
    DistinctBelow(s.free, |s.next|);
    WalkFollows(s.next, s.free, |s.next|);
    WalkFollows(s.next, s.free, |s.next| + 1);
  }

  /** The free list in memory: from m_head, within as many hops as there are slots, next
      visits every unowned slot once and runs off the end. */
  lemma FreeListInMemory(s: Storage)
    requires Reachable(s)
    ensures Sizes(s) && Distinct(Walk(s.next, s.head.index, |s.next|))
    ensures Walk(s.next, s.head.index, |s.next|) == Walk(s.next, s.head.index, |s.next| + 1)
    ensures forall i :: 0 <= i < |s.next| ==>
      (i in Walk(s.next, s.head.index, |s.next|) <==> s.place[i] == Free)
  {
    ReachableInv(s);
    WalkIsFree(s);
  }

  /** The ways to own slot i, told from program counters, generations and links alone. */
  predicate InstalledBy(s: Storage, i: nat, t: nat)
  {
    t < |s.pc| && InstallingPc(s.pc[t]) && IndexOf(s.pc[t]) == i
  }

  predicate ReturnedBy(s: Storage, i: nat, t: nat)
  {
    t < |s.pc| && ReturningPc(s.pc[t]) && IndexOf(s.pc[t]) == i
  }

  lemma LiveOwner(s: Storage, i: nat)
    requires Sizes(s) && HandlesInv(s) && i < |s.next|
    ensures s.place[i] == Live <==> exists h: Handle :: h.index == i && IsLive(s, h)
  {
    assert s.place[i] == Live ==> IsLive(s, Handle(i, s.generation[i]));
    forall h: Handle | h.index == i && IsLive(s, h) ensures h == Handle(i, s.generation[i]) {}
  }

  lemma ThreadOwners(s: Storage, i: nat)
    requires Sizes(s) && PlacesInv(s) && ThreadsInv(s) && i < |s.next|
    ensures forall t :: s.place[i] == Installing(t) <==> InstalledBy(s, i, t)
    ensures forall t :: s.place[i] == Returning(t) <==> ReturnedBy(s, i, t)
  {
    forall t | InstalledBy(s, i, t) ensures s.place[i] == Installing(t) { assert ThreadOk(s, t); }
    forall t | ReturnedBy(s, i, t) ensures s.place[i] == Returning(t) { assert ThreadOk(s, t); }
  }

  /** Every slot has exactly one owner: the free list, one registering thread, one removing
      thread, or the one handle that is issued and not yet redeemed. */
  lemma OneOwner(s: Storage, i: nat)
    requires Reachable(s) && i < |s.next|
    ensures Sizes(s)
    ensures s.place[i] == Free <==> i in Walk(s.next, s.head.index, |s.next|)
    ensures s.place[i] == Live <==> exists h: Handle :: h.index == i && IsLive(s, h)
    ensures forall t :: s.place[i] == Installing(t) <==> InstalledBy(s, i, t)
    ensures forall t :: s.place[i] == Returning(t) <==> ReturnedBy(s, i, t)
  {
    ReachableInv(s);
    WalkIsFree(s);
    LiveOwner(s, i);
    ThreadOwners(s, i);
  }

  /** ABA safety: when the compare-exchange of register_action is about to succeed, the next
      read earlier still is the successor of the head, whatever happened in between. */
  lemma NoAba(s: Storage, t: nat)
    requires Reachable(s) && t < |s.pc| && s.pc[t].RegCas? && s.pc[t].seen == s.head
    ensures var list := Walk(s.next, s.head.index, |s.next|);
            && list != []
            && list[0] == s.head.index
            && s.pc[t].next == (if |list| > 1 then list[1] else INVALID_INDEX)
    ensures Enabled(s, Internally(t, false))
    ensures Walk(Step(s, t, false).next, Step(s, t, false).head.index, |s.next|)
              == Walk(s.next, s.head.index, |s.next|)[1..]
  {
    ReachableInv(s);
    assert ThreadOk(s, t);
    WalkIsFree(s);
    assert Linked(s.next, s.free, 0);
    var a, next := s.pc[t].a, s.pc[t].next;
    TakeHeadFreeList(s, t, a, next);
    WalkIsFree(TakeHead(s, t, a, next));
  }

  /** register_action gives up only at a load of m_head that finds the list empty. */
  lemma RefusedOnlyWhenEmpty(s: Storage, t: nat, spurious: bool)
    requires Reachable(s) && Enabled(s, Internally(t, spurious))
    requires Step(s, t, spurious).pc[t] == RegDone(None)
    ensures Walk(s.next, s.head.index, |s.next|) == []
    ensures Sizes(s) && forall i :: 0 <= i < |s.next| ==> s.place[i] != Free
  {
    ReachableInv(s);
    WalkIsFree(s);
    assert ThreadOk(s, t);
  }

  // ----- handles are issued once and redeemed once -----

  predicate Issuing(s: Storage, l: Label, h: Handle)
    requires Enabled(s, l)
  {
    l.Internally? && s.pc[l.t].RegGen? && Apply(s, l).pc[l.t] == RegDone(Some(h))
  }

  /** The step is a generation compare-exchange on h that succeeds. */
  predicate Redeeming(s: Storage, l: Label, h: Handle)
    requires Enabled(s, l)
  {
    l.Internally? && s.pc[l.t] == RemCas(h) && Apply(s, l).pc[l.t] == RemMove(h)
  }

  function Issues(s: Storage, run: seq<Label>, h: Handle): nat
    requires EnabledAll(s, run)
    decreases |run|
  {
    if run == [] then 0
    else (if Issuing(s, run[0], h) then 1 else 0) + Issues(Apply(s, run[0]), run[1..], h)
  }

  function Redemptions(s: Storage, run: seq<Label>, h: Handle): nat
    requires EnabledAll(s, run)
    decreases |run|
  {
    if run == [] then 0
    else (if Redeeming(s, run[0], h) then 1 else 0) + Redemptions(Apply(s, run[0]), run[1..], h)
  }

  predicate Spent(s: Storage, h: Handle)
  {
    h in s.issued && !IsLive(s, h)
  }

  lemma StepHandle(s: Storage, l: Label, h: Handle)
    requires Inv(s) && Enabled(s, l)
    ensures Count(h in Apply(s, l).issued) == Count(h in s.issued) + Count(Issuing(s, l, h))
    ensures Count(Spent(Apply(s, l), h)) == Count(Spent(s, h)) + Count(Redeeming(s, l, h))
    ensures h in s.issued ==> Apply(s, l).issued[h] == s.issued[h]
  {
    assert ThreadOk(s, l.t);
  }

  /** Conservation over any run: a handle is issued at most once and redeemed at most once,
      it is redeemed only after it was issued, and once spent it stays spent. */
  lemma {:induction false} IssuedOnceRedeemedOnce(s: Storage, run: seq<Label>, h: Handle)
    requires Inv(s) && EnabledAll(s, run)
    ensures Issues(s, run, h) == Count(h in ApplyAll(s, run).issued) - Count(h in s.issued)
    ensures Redemptions(s, run, h) == Count(Spent(ApplyAll(s, run), h)) - Count(Spent(s, h))
    ensures h in s.issued ==> h in ApplyAll(s, run).issued && ApplyAll(s, run).issued[h] == s.issued[h]
    decreases |run|
  {
    if run != [] {
      StepHandle(s, run[0], h);
      ApplyInv(s, run[0]);
      IssuedOnceRedeemedOnce(Apply(s, run[0]), run[1..], h);
    }
  }

  /** A compare-exchange on an issued handle is refused exactly when the handle was already
      redeemed; the thread that wins hands back the very action that was registered. */
  lemma WinnerGetsTheAction(s: Storage, t: nat, spurious: bool)
    requires Reachable(s) && Enabled(s, Internally(t, spurious))
    ensures s.pc[t].RemCas? ==>
      && s.pc[t].h in s.issued
      && (Step(s, t, spurious).pc[t] == RemDone(None) <==> Spent(s, s.pc[t].h))
      && (Step(s, t, spurious).pc[t] == RemMove(s.pc[t].h) <==> IsLive(s, s.pc[t].h))
    ensures s.pc[t].RemPush? && Step(s, t, spurious).pc[t].RemDone? ==>
      && s.pc[t].h in s.issued
      && Step(s, t, spurious).pc[t] == RemDone(Some(Some(s.issued[s.pc[t].h])))
  {
    ReachableInv(s);
    assert ThreadOk(s, t);
  }

  // ----- retries are paid for by other threads -----

  /** Does the thread hold a head it read, and is that head out of date? */
  predicate Stale(s: Storage, t: nat)
    requires t < |s.pc|
  {
    match s.pc[t]
    case RegNext(_, seen) => seen != s.head
    case RegCas(_, seen, _) => seen != s.head
    case RemNext(_, _, seen) => seen != s.head
    case RemPush(_, _, seen) => seen != s.head
    case _ => false
  }

  predicate AtHeadCas(pc: Pc) { pc.RegCas? || pc.RemPush? }

  predicate HeadMoved(s: Storage, l: Label)
    requires Enabled(s, l)
  {
    Apply(s, l).head != s.head
  }

  /** Thread t fails its compare-exchange of m_head although it is not a spurious failure. */
  predicate Beaten(s: Storage, l: Label, t: nat)
    requires Enabled(s, l)
  {
    l.Internally? && l.t == t && AtHeadCas(s.pc[t]) && !l.spurious && !HeadMoved(s, l)
  }

  function Defeats(s: Storage, run: seq<Label>, t: nat): nat
    requires EnabledAll(s, run)
    decreases |run|
  {
    if run == [] then 0
    else Count(Beaten(s, run[0], t)) + Defeats(Apply(s, run[0]), run[1..], t)
  }

  function SuccessesOfOthers(s: Storage, run: seq<Label>, t: nat): nat
    requires EnabledAll(s, run)
    decreases |run|
  {
    if run == [] then 0
    else Count(HeadMoved(s, run[0]) && run[0].t != t) + SuccessesOfOthers(Apply(s, run[0]), run[1..], t)
  }

  lemma StepRetry(s: Storage, l: Label, t: nat)
    requires Inv(s) && Enabled(s, l) && t < |s.pc|
    ensures |Apply(s, l).pc| == |s.pc|
    ensures Count(Stale(Apply(s, l), t)) + Count(Beaten(s, l, t))
              <= Count(Stale(s, t)) + Count(HeadMoved(s, l) && l.t != t)
  {
    assert ThreadOk(s, l.t) && ThreadOk(s, t);
  }

  /** The lock-free bound: over any run a thread is beaten at m_head at most once per success
      of another thread (and once more if it entered the run with a stale head). */
  lemma {:induction false} RetryBound(s: Storage, run: seq<Label>, t: nat)
    requires Inv(s) && EnabledAll(s, run) && t < |s.pc|
    ensures Defeats(s, run, t) <= SuccessesOfOthers(s, run, t) + Count(Stale(s, t))
    ensures |ApplyAll(s, run).pc| == |s.pc|
    ensures Defeats(s, run, t) + Count(Stale(ApplyAll(s, run), t))
              <= SuccessesOfOthers(s, run, t) + Count(Stale(s, t))
    decreases |run|
  {
    if run != [] {
      StepRetry(s, run[0], t);
      ApplyInv(s, run[0]);
      RetryBound(Apply(s, run[0]), run[1..], t);
    }
  }
}
