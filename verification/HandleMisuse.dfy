// What the caller owes to remove_action: the handle must have been given out by register_action.
module HandleMisuse {
  import opened Handles
  import opened StorageMachine
  import opened StorageResults

  /** Thread t is inside remove_action with a slot that is also free, or that another thread is
      installing or returning. */
  ghost predicate SharesSlot(s: Storage, t: nat)
    requires t < |s.pc|
  {
    && ReturningPc(s.pc[t])
    && (IndexOf(s.pc[t]) in Walk(s.next, s.head.index, |s.next|)
        || exists u :: u != t && (InstalledBy(s, IndexOf(s.pc[t]), u) || ReturnedBy(s, IndexOf(s.pc[t]), u)))
  }

  /** The state in which an idle thread has called remove_action, with whatever handle. */
  function Called(s: Storage, t: nat, h: Handle): Storage
    requires t < |s.pc|
  {
    Goto(s, t, RemCas(h))
  }

  /** Is the handle's generation the one the slot has now? */
  predicate Current(s: Storage, h: Handle)
    requires Sizes(s)
  {
    h.index < |s.next| && s.generation[h.index] == h.generation
  }

  lemma OwnersElsewhere(s: Storage, s': Storage, t: nat, i: nat, u: nat)
    requires t < |s.pc| && |s'.pc| == |s.pc| && u != t
    requires forall v :: 0 <= v < |s.pc| && v != t ==> s'.pc[v] == s.pc[v]
    ensures InstalledBy(s', i, u) == InstalledBy(s, i, u) && ReturnedBy(s', i, u) == ReturnedBy(s, i, u)
  {
  }

  /** The compare-exchange of the generation takes over a slot that someone else holds exactly
      when the generation is current and no registration ever gave the handle out. */
  lemma OnlyIssuedHandlesAreSafe(s: Storage, t: nat, h: Handle)
    requires Reachable(s) && t < |s.pc| && s.pc[t].Idle?
    ensures Sizes(s) && Enabled(Called(s, t, h), Internally(t, false))
    ensures SharesSlot(Step(Called(s, t, h), t, false), t) <==> Current(s, h) && h !in s.issued
  {
    ReachableInv(s);
    if Current(s, h) {
      var s', i := Step(Called(s, t, h), t, false), h.index;
      WalkIsFree(s);
      ThreadOwners(s, i);
      forall u | u != t
        ensures InstalledBy(s', i, u) == InstalledBy(s, i, u) && ReturnedBy(s', i, u) == ReturnedBy(s, i, u)
      {
        OwnersElsewhere(s, s', t, i, u);
      }
      assert s'.pc[t] == RemMove(h) && IndexOf(s'.pc[t]) == i;
      assert h in s.issued <==> s.place[i] == Live;
      match s.place[i]
      case Installing(u) => assert InstalledBy(s, i, u); assert InstalledBy(s', i, u);
      case Returning(u) => assert ReturnedBy(s, i, u); assert ReturnedBy(s', i, u);
      case _ =>
    }
  }

  /** Even in a storage nobody has used yet: the handle with index 0 and generation 0 passes the
      check and takes the first slot while it heads the free list. */
  lemma UnusedStorageIsOpen(size: nat, threads: nat, t: nat)
    requires 1 <= size <= INVALID_INDEX && t < threads
    ensures var s := Called(Init(size, threads), t, Handle(0, 0));
      Enabled(s, Internally(t, false)) && SharesSlot(Step(s, t, false), t)
  {
    var s := Init(size, threads);
    assert EnabledAll(s, []) && ApplyAll(s, []) == s;
    OnlyIssuedHandlesAreSafe(s, t, Handle(0, 0));
  }
}
