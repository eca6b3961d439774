// What the pipeline promises over every run: one place per handle, order, and no action lost,
// repeated or invented.
module PipelineResults {
  import opened Base
  import opened Handles
  import S = StorageMachine
  import Q = PreQueueMachine
  import P = PostQueueMachine
  import L = Ledger
  import R = StorageResults
  import RingSlots
  import opened PipelineMachine
  import opened PipelineInv

  predicate ReachedBy(c: Config, run: seq<Label>, s: Pipeline)
  {
    Sound(c) && EnabledAll(Init(c), run) && s == ApplyAll(Init(c), run)
  }

  /** Some run of some pipeline ends here. */
  ghost predicate Reachable(s: Pipeline)
  {
    exists c, run :: ReachedBy(c, run, s)
  }

  lemma ReachableInv(s: Pipeline)
    requires Reachable(s)
    ensures Inv(s)
  {
    var c, run :| ReachedBy(c, run, s);
    InitInv(c);
    RunInv(Init(c), run);
  }

  // ----- one owner -----

  /** The handle is physically there: in a program counter, or in an occupied ring position. */
  predicate FoundAt(s: Pipeline, h: Handle, w: L.Where)
    requires Sizes(s)
  {
    match w
    case Held(t) => t < |s.agent| && Holding(s, t) == Some(h)
    case Queued(p) => Q.Front(s.pre) <= p < |s.pre.claimed| && s.pre.claimed[p] == h
    case InHand => InHand(s) == Some(h)
    case Posted(e, p) =>
      && e < |s.posts|
      && P.Front(s.posts[e]) <= p < |s.posts[e].pushed| && s.posts[e].pushed[p] == h
      && !(p == P.Front(s.posts[e]) && Gone(s, e))
    case Redeemed => false
  }

  lemma FoundWhereRecorded(v: L.Ledger, s: Pipeline, h: Handle, w: L.Where)
    requires Sizes(s) && v == View(s) && L.Inv(v)
    ensures FoundAt(s, h, w) <==> h in v.live && v.place[h] == w
  {
    if FoundAt(s, h, w) {
      match w
      case Held(t) => assert v.held[t] == Some(h);
      case Queued(p) => assert L.At(v, v.claimed[p], L.Queued(p));
      case InHand =>
      case Posted(e, p) => assert v.lanes[e] == LaneOf(s, e) && L.LaneOk(v, e);
    }
    if h in v.live && v.place[h] == w {
      assert L.PlaceOk(v, h);
      match w
      case Held(t) => assert v.held[t] == Some(h);
      case Posted(e, p) => assert v.lanes[e] == LaneOf(s, e);
      case _ =>
    }
  }

  /** An issued handle that was not redeemed is in exactly one place; any other in none. */
  lemma OnePlace(s: Pipeline, h: Handle)
    requires Reachable(s)
    ensures Sizes(s)
    ensures S.IsLive(s.store, h) ==>
      h in s.place && forall w :: FoundAt(s, h, w) <==> w == s.place[h]
    ensures !S.IsLive(s.store, h) ==> forall w :: !FoundAt(s, h, w)
  {
    ReachableInv(s);
    forall w ensures FoundAt(s, h, w) <==> h in View(s).live && View(s).place[h] == w {
      FoundWhereRecorded(View(s), s, h, w);
    }
  }

  /** Every storage slot has exactly one owner: the free list, an agent installing an action,
      an agent returning the slot, or the one live handle, which is in exactly one place. */
  lemma OneOwner(s: Pipeline, i: nat)
    requires Reachable(s) && i < |s.store.next|
    ensures Sizes(s) && S.Sizes(s.store)
    ensures s.store.place[i] == S.Free <==> i in R.Walk(s.store.next, s.store.head.index, |s.store.next|)
    ensures forall t :: s.store.place[i] == S.Installing(t) <==> R.InstalledBy(s.store, i, t)
    ensures forall t :: s.store.place[i] == S.Returning(t) <==> R.ReturnedBy(s.store, i, t)
    ensures s.store.place[i] == S.Live <==> S.IsLive(s.store, Handle(i, s.store.generation[i]))
    ensures s.store.place[i] == S.Live ==>
      exists w :: FoundAt(s, Handle(i, s.store.generation[i]), w)
  {
    ReachableInv(s);
    R.WalkIsFree(s.store);
    R.ThreadOwners(s.store, i);
    var h := Handle(i, s.store.generation[i]);
    OnePlace(s, h);
    if S.IsLive(s.store, h) { assert FoundAt(s, h, s.place[h]); }
  }

  /** A claimed position is the slot's own handle once it is announced, and until then the
      handle is with the producer that claimed it. */
  lemma QueuedInMemory(s: Pipeline, p: nat)
    requires Reachable(s) && Q.Front(s.pre) <= p < |s.pre.claimed|
    ensures p < s.pre.enqueue && p < |s.pre.claimant| && Q.Sizes(s.pre)
    ensures var i, t := RingSlots.Slot(p, |s.pre.sequence|), s.pre.claimant[p];
      || (s.pre.sequence[i] == p + 1 && s.pre.handle[i] == s.pre.claimed[p])
      || (&& s.pre.sequence[i] == p && Q.WritingAt(s.pre, t, p)
          && s.pre.producer[t].h == s.pre.claimed[p])
  {
    hide Coupled, S.Inv, P.Inv;
    ReachableInv(s);
    assert Q.MarkOk(s.pre, p);
    if Q.Mark(s.pre, p) == p { assert Q.ProducerOk(s.pre, s.pre.claimant[p]); }
  }

  /** A posted position is flagged, and the slot holds the handle. */
  lemma PostedInMemory(s: Pipeline, e: nat, p: nat)
    requires Reachable(s) && e < |s.posts| && P.Front(s.posts[e]) <= p < |s.posts[e].pushed|
    ensures P.Sizes(s.posts[e])
    ensures var ring := s.posts[e];
      var i := RingSlots.Slot(p, |ring.active|);
      ring.active[i] && ring.handle[i] == ring.pushed[p]
  {
    ReachableInv(s);
    assert P.FlagOk(s.posts[e], p);
  }

  // ----- what the executors run -----

  /** The positions dispatched to executor e, in increasing order. */
  function Positions(to: seq<nat>, e: nat): seq<nat>
  {
    if to == [] then []
    else
      var n := |to| - 1;
      Positions(to[..n], e) + (if to[n] == e then [n] else [])
  }

  lemma {:induction false} PositionsRise(to: seq<nat>, e: nat)
    ensures forall j :: 0 <= j < |Positions(to, e)| ==>
      Positions(to, e)[j] < |to| && to[Positions(to, e)[j]] == e
    ensures forall i, j :: 0 <= i < j < |Positions(to, e)| ==> Positions(to, e)[i] < Positions(to, e)[j]
    decreases |to|
  {
    if to != [] {
      PositionsRise(to[..|to| - 1], e);
    }
  }

  lemma {:induction false} SelectByPositions(list: seq<Handle>, to: seq<nat>, e: nat)
    requires |to| <= |list|
    ensures |L.Select(list, to, e)| == |Positions(to, e)|
    ensures forall j :: 0 <= j < |Positions(to, e)| ==>
      Positions(to, e)[j] < |list| && L.Select(list, to, e)[j] == list[Positions(to, e)[j]]
    decreases |to|
  {
    if to != [] {
      SelectByPositions(list, to[..|to| - 1], e);
    }
  }

  /** What executor e ran, in the order it ran, is what was registered for an increasing
      sequence of claim positions, all of them dispatched to e. */
  lemma RunsInClaimOrder(s: Pipeline, e: nat)
    requires Reachable(s) && e < |s.executed|
    ensures var at := Positions(s.dispatched, e);
      && |s.executed[e]| <= |at|
      && (forall i, j :: 0 <= i < j < |at| ==> at[i] < at[j])
      && (forall j :: 0 <= j < |at| ==> at[j] < |s.dispatched| && s.dispatched[at[j]] == e)
      && (forall j :: 0 <= j < |s.executed[e]| ==>
            && at[j] < |s.pre.claimed| && s.pre.claimed[at[j]] in s.store.issued
            && s.executed[e][j] == s.store.issued[s.pre.claimed[at[j]]])
  {
    ReachableInv(s);
    PositionsRise(s.dispatched, e);
    SelectByPositions(s.pre.claimed, s.dispatched, e);
    assert View(s).lanes[e] == LaneOf(s, e);
    assert ExecutedOk(s, e);
  }

  /** The claim position behind the j-th action of executor e. */
  function PositionOf(s: Pipeline, e: nat, j: nat): nat
    requires j < |Positions(s.dispatched, e)|
  {
    Positions(s.dispatched, e)[j]
  }

  /** At most once: two different executions, on whatever executors, come from two different
      claims, and these are claims of two different handles. */
  lemma AtMostOnce(s: Pipeline, e: nat, i: nat, f: nat, j: nat)
    requires Reachable(s) && e < |s.executed| && f < |s.executed|
    requires i < |s.executed[e]| && j < |s.executed[f]| && (e, i) != (f, j)
    ensures i < |Positions(s.dispatched, e)| && j < |Positions(s.dispatched, f)|
    ensures var p, q := PositionOf(s, e, i), PositionOf(s, f, j);
      && p != q && p < |s.pre.claimed| && q < |s.pre.claimed|
      && s.pre.claimed[p] != s.pre.claimed[q]
  {
    hide AgentsOk, SchedulerOk, ComponentsOk;
    RunsInClaimOrder(s, e);
    RunsInClaimOrder(s, f);
    ReachableInv(s);
    assert Distinct(View(s).claimed);
    var p, q := PositionOf(s, e, i), PositionOf(s, f, j);
    assert p != q;
  }

  lemma {:induction false} AllToZero(to: seq<nat>)
    requires forall p :: 0 <= p < |to| ==> to[p] == 0
    ensures Positions(to, 0) == seq(|to|, p => p)
    decreases |to|
  {
    if to != [] {
      AllToZero(to[..|to| - 1]);
    }
  }

  /** With one executor the actions run are exactly those registered for the first claims. */
  lemma OneExecutorRunsThePrefix(s: Pipeline)
    requires Reachable(s) && |s.posts| == 1
    ensures |s.executed| == 1 && |s.executed[0]| <= |s.pre.claimed|
    ensures forall j :: 0 <= j < |s.executed[0]| ==>
      && s.pre.claimed[j] in s.store.issued
      && s.executed[0][j] == s.store.issued[s.pre.claimed[j]]
  {
    ReachableInv(s);
    AllToZero(s.dispatched);
    RunsInClaimOrder(s, 0);
  }

  // ----- nothing is lost -----

  lemma {:induction false} EveryPositionListed(to: seq<nat>, p: nat)
    requires p < |to|
    ensures exists j :: 0 <= j < |Positions(to, to[p])| && Positions(to, to[p])[j] == p
    decreases |to|
  {
    var n := |to| - 1;
    if p < n {
      EveryPositionListed(to[..n], p);
      var j :| 0 <= j < |Positions(to[..n], to[p])| && Positions(to[..n], to[p])[j] == p;
      assert Positions(to, to[p])[j] == p;
    } else {
      assert Positions(to, to[p])[|Positions(to[..n], to[p])|] == p;
    }
  }

  /** An executor has taken an action out of its ring and is about to run it. */
  predicate AboutToRun(s: Pipeline, e: nat)
    requires Sizes(s) && e < |s.posts|
  {
    var consumer := s.posts[e].consumer;
    s.agent[e].Running? || consumer.CountDown? || (consumer.Popped? && consumer.result.Some?)
  }

  /** The p-th claim is the j-th handle of executor e: run, about to be run, or in its ring. */
  ghost predicate HandedTo(s: Pipeline, p: nat, e: nat, j: nat)
    requires Sizes(s) && p < |s.pre.claimed|
  {
    && e < |s.posts| && j < |s.posts[e].pushed| && s.posts[e].pushed[j] == s.pre.claimed[p]
    && (j < |s.executed[e]|
        || (j == |s.executed[e]| && AboutToRun(s, e))
        || P.Front(s.posts[e]) <= j)
  }

  lemma LaneCovered(s: Pipeline, p: nat, e: nat, j: nat)
    requires Coupled(s) && e < |s.posts| && P.Inv(s.posts[e])
    requires p < |s.pre.claimed| && j < |s.posts[e].pushed| && s.posts[e].pushed[j] == s.pre.claimed[p]
    ensures HandedTo(s, p, e, j)
  {
    assert Local(s, e);
  }

  /** Every accepted action is somewhere: in the pre-scheduler ring, with the scheduler, or
      with the executor it went to, where it was run, is about to be run, or waits in the ring. */
  lemma NothingLost(s: Pipeline, p: nat)
    requires Reachable(s) && p < |s.pre.claimed|
    ensures Sizes(s)
    ensures p >= Q.Front(s.pre)
      || (p == |s.dispatched| && InHand(s) == Some(s.pre.claimed[p]))
      || (p < |s.dispatched| && exists j :: HandedTo(s, p, s.dispatched[p], j))
  {
    ReachableInv(s);
    assert L.OrderOk(View(s));
    if p < |s.dispatched| {
      var e := s.dispatched[p];
      assert View(s).lanes[e] == LaneOf(s, e);
      EveryPositionListed(s.dispatched, p);
      var j :| 0 <= j < |Positions(s.dispatched, e)| && Positions(s.dispatched, e)[j] == p;
      SelectByPositions(s.pre.claimed, s.dispatched, e);
      LaneCovered(s, p, e, j);
    }
  }

  // ----- the error branches are dead -----

  /** The branch that reports a failed redemption is never taken, no executor ever runs an
      empty action, and undoing a rejected push never fails. */
  lemma ErrorBranchesAreDead(s: Pipeline, t: nat)
    requires Reachable(s) && t < |s.agent|
    ensures Sizes(s) && !s.agent[t].Crashed?
    ensures s.agent[t].Running? ==> s.agent[t].cell.Some?
    ensures t < |s.posts| && s.posts[t].consumer.ClearActive? ==>
      && s.posts[t].dequeue < |s.posts[t].pushed|
      && IsAction(s, s.posts[t].pushed[s.posts[t].dequeue], s.posts[t].consumer.result)
    ensures s.store.pc[t].RemCas? ==> S.IsLive(s.store, s.store.pc[t].h)
  {
    ReachableInv(s);
    assert Local(s, t);
    if s.store.pc[t].RemCas? { RedeemableIsLive(s, t); }
  }
}
