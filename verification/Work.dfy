// How much work is left in the pipeline: every action still on its way weighs as much as the
// stages ahead of it and of its continuations.
module Work {
  import opened Base
  import opened Handles
  import S = StorageMachine
  import Q = PreQueueMachine
  import L = Ledger
  import opened PipelineMachine
  import opened PipelineInv

  // ----- sums -----

  function Sum(s: seq<nat>): nat
  {
    if s == [] then 0 else Sum(s[..|s| - 1]) + s[|s| - 1]
  }

  lemma {:induction false} SumUpdate(s: seq<nat>, i: nat, x: nat)
    requires i < |s|
    ensures Sum(s[i := x]) + s[i] == Sum(s) + x
    decreases |s|
  {
    var n := |s| - 1;
    if i < n {
      SumUpdate(s[..n], i, x);
      assert s[i := x][..n] == s[..n][i := x];
    } else {
      assert s[i := x][..n] == s[..n];
    }
  }

  lemma SumAppend(s: seq<nat>, x: nat)
    ensures Sum(s + [x]) == Sum(s) + x
  {
    assert (s + [x])[..|s|] == s;
  }

  // ----- the weight of an action on its way -----

  /** The length of the chain an action starts. */
  function Depth(a: Action): (d: nat)
    ensures d >= 1
  {
    match a.continuation
    case None => 1
    case Some(b) => 1 + Depth(b)
  }

  const STAGES: nat := 20

  function Weigh(a: Action, stage: nat): nat
    requires stage <= STAGES
  {
    STAGES * Depth(a) - stage
  }

  function WeighHandle(issued: map<Handle, Action>, h: Handle, stage: nat): nat
    requires stage <= STAGES
  {
    if h in issued then Weigh(issued[h], stage) else 0
  }

  /** An accepted action weighs less with every place it reaches, and nothing once redeemed:
      from then on the executor carries the weight. */
  function PlaceWork(issued: map<Handle, Action>, place: map<Handle, L.Where>, h: Handle): nat
  {
    if h !in place then 0
    else match place[h]
         case Held(_) => 0
         case Queued(_) => WeighHandle(issued, h, 4)
         case InHand => WeighHandle(issued, h, 5)
         case Posted(_, _) => WeighHandle(issued, h, 6)
         case Redeemed => 0
  }

  function QueueWork(v: L.Ledger, issued: map<Handle, Action>): seq<nat>
  {
    seq(|v.claimed|, p requires 0 <= p < |v.claimed| => PlaceWork(issued, v.place, v.claimed[p]))
  }

  lemma QueueUnmoved(v: L.Ledger, issued: map<Handle, Action>, h: Handle, w: L.Where, issued': map<Handle, Action>)
    requires h !in v.claimed && Grows(issued, issued')
    requires forall g :: g in issued' && g !in issued ==> g == h
    ensures QueueWork(L.Move(v, h, w), issued') == QueueWork(v, issued)
  {
  }

  lemma QueueMoved(v: L.Ledger, issued: map<Handle, Action>, p: nat, w: L.Where)
    requires Distinct(v.claimed) && p < |v.claimed|
    ensures QueueWork(L.Move(v, v.claimed[p], w), issued)
      == QueueWork(v, issued)[p := PlaceWork(issued, v.place[v.claimed[p] := w], v.claimed[p])]
  {
  }

  lemma {:induction false} SelectedFrom(list: seq<Handle>, to: seq<nat>, e: nat, j: nat)
    requires |to| <= |list| && j < |L.Select(list, to, e)|
    ensures L.Select(list, to, e)[j] in list
    decreases |to|
  {
    var n := |to| - 1;
    if j < |L.Select(list, to[..n], e)| {
      SelectedFrom(list, to[..n], e, j);
    }
  }

  function TotalQueueWork(v: L.Ledger, issued: map<Handle, Action>): nat
  {
    Sum(QueueWork(v, issued))
  }

  /** What an event of the ledger does to the weight of the accepted actions. */
  lemma EventWork(v: L.Ledger, x: L.Event, issued: map<Handle, Action>)
    requires L.Inv(v) && L.Allowed(v, x) && !x.Issue?
    requires forall h :: h in v.place ==> h in issued
    ensures var v' := L.Do(v, x);
      match x
      case Cancel(t) => TotalQueueWork(v', issued) == TotalQueueWork(v, issued)
      case Claim(t) =>
        TotalQueueWork(v', issued) == TotalQueueWork(v, issued) + WeighHandle(issued, v.held[t].value, 4)
      case Take => TotalQueueWork(v', issued) < TotalQueueWork(v, issued)
      case Deliver(e) => TotalQueueWork(v', issued) < TotalQueueWork(v, issued)
      case Redeem(e) =>
        TotalQueueWork(v', issued) + WeighHandle(issued, v.lanes[e].pushed[v.lanes[e].front], 6)
          == TotalQueueWork(v, issued)
      case Retire(e) => TotalQueueWork(v', issued) == TotalQueueWork(v, issued)
  {
    var v' := L.Do(v, x);
    match x
    case Cancel(t) =>
      var h := v.held[t].value;
      assert L.At(v, h, L.Held(t));
      QueueUnmoved(v, issued, h, L.Redeemed, issued);
      assert QueueWork(v', issued) == QueueWork(L.Move(v, h, L.Redeemed), issued);
    case Claim(t) =>
      var h := v.held[t].value;
      assert L.At(v, h, L.Held(t));
      QueueUnmoved(v, issued, h, L.Queued(|v.claimed|), issued);
      assert QueueWork(v', issued) == QueueWork(v, issued) + [WeighHandle(issued, h, 4)];
      SumAppend(QueueWork(v, issued), WeighHandle(issued, h, 4));
    case Take =>
      assert L.At(v, v.claimed[v.front], L.Queued(v.front));
      QueueMoved(v, issued, v.front, L.InHand);
      SumUpdate(QueueWork(v, issued), v.front, WeighHandle(issued, v.claimed[v.front], 5));
      assert QueueWork(v', issued) == QueueWork(L.Move(v, v.claimed[v.front], L.InHand), issued);
    case Deliver(e) =>
      DeliverWork(v, e, issued);
    case Redeem(e) =>
      RedeemWork(v, e, issued);
    case Retire(e) =>
      assert QueueWork(v', issued) == QueueWork(v, issued);
  }

  lemma DeliverWork(v: L.Ledger, e: nat, issued: map<Handle, Action>)
    requires L.HandOk(v) && L.ClaimsOk(v) && L.OrderOk(v) && L.Allowed(v, L.Deliver(e))
    requires forall h :: h in v.place ==> h in issued
    ensures TotalQueueWork(L.Do(v, L.Deliver(e)), issued) < TotalQueueWork(v, issued)
  {
    var v' := L.Do(v, L.Deliver(e));
    var p := |v.dispatched|;
    var w := L.Posted(e, |v.lanes[e].pushed|);
    QueueMoved(v, issued, p, w);
    SumUpdate(QueueWork(v, issued), p, WeighHandle(issued, v.claimed[p], 6));
    assert QueueWork(v', issued) == QueueWork(L.Move(v, v.claimed[p], w), issued);
  }

  lemma RedeemWork(v: L.Ledger, e: nat, issued: map<Handle, Action>)
    requires L.LanesOk(v) && L.ClaimsOk(v) && L.OrderOk(v) && L.Allowed(v, L.Redeem(e))
    requires forall h :: h in v.place ==> h in issued
    ensures TotalQueueWork(L.Do(v, L.Redeem(e)), issued)
      + WeighHandle(issued, v.lanes[e].pushed[v.lanes[e].front], 6) == TotalQueueWork(v, issued)
  {
    var v' := L.Do(v, L.Redeem(e));
    var lane := v.lanes[e];
    var h := lane.pushed[lane.front];
    assert L.LaneOk(v, e);
    SelectedFrom(v.claimed, v.dispatched, e, lane.front);
    var p :| 0 <= p < |v.claimed| && v.claimed[p] == h;
    QueueMoved(v, issued, p, L.Redeemed);
    SumUpdate(QueueWork(v, issued), p, 0);
    assert QueueWork(v', issued) == QueueWork(L.Move(v, h, L.Redeemed), issued);
  }

  // ----- the weight an agent carries -----

  function CellWork(result: Option<Option<Action>>): nat
  {
    if result.Some? && result.value.Some? then Weigh(result.value.value, 8) else 0
  }

  /** Inside register_action: less once a slot was taken, less again once the handle is issued. */
  function RegisterWork(store: S.Storage, pc: S.Pc): nat
  {
    match pc
    case RegLoad(a) => Weigh(a, 1)
    case RegNext(a, _) => Weigh(a, 1)
    case RegCas(a, _, _) => Weigh(a, 1)
    case RegStore(a, _) => Weigh(a, 2)
    case RegGen(a, _) => Weigh(a, 2)
    case RegDone(Some(h)) => WeighHandle(store.issued, h, 3)
    case _ => 0
  }

  /** How many steps the thread takes inside the allocator until it next changes m_head, issues
      or redeems a handle, or gives up, if no one else changes m_head. */
  function Fuel(store: S.Storage, pc: S.Pc): nat
  {
    match pc
    case RegLoad(_) => 5
    case RegNext(_, seen) => if seen == store.head then 4 else 6
    case RegCas(_, seen, _) => if seen == store.head then 3 else 5
    case RegStore(_, _) => 2
    case RegGen(_, _) => 1
    case RemMove(_) => 4
    case RemLoad(_, _) => 3
    case RemNext(_, _, seen) => if seen == store.head then 2 else 4
    case RemPush(_, _, seen) => if seen == store.head then 1 else 3
    case _ => 0
  }

  /** A step inside register_action: progress, or a lighter burden. */
  lemma RegisterFuel(s: S.Storage, t: nat, spurious: bool)
    requires S.Inv(s) && S.Enabled(s, S.Internally(t, spurious)) && S.Registering(s.pc[t])
    ensures var s' := S.Apply(s, S.Internally(t, spurious));
      && (RegisterWork(s', s'.pc[t]) < RegisterWork(s, s.pc[t])
          || (&& RegisterWork(s', s'.pc[t]) == RegisterWork(s, s.pc[t])
              && s'.head == s.head && s'.issued == s.issued
              && S.Registering(s'.pc[t])
              && (!spurious ==> Fuel(s', s'.pc[t]) < Fuel(s, s.pc[t]))))
  {
    assert S.ThreadOk(s, t);
  }

  /** A step inside remove_action after the handle was redeemed. */
  lemma ReturnFuel(s: S.Storage, t: nat, spurious: bool)
    requires S.Inv(s) && S.Enabled(s, S.Internally(t, spurious)) && S.ReturningPc(s.pc[t])
    ensures var s' := S.Apply(s, S.Internally(t, spurious));
      && s'.issued == s.issued && s.pc[t].h in s.issued
      && (s'.pc[t] == S.RemDone(Some(Some(s.issued[s.pc[t].h])))
          || (&& S.ReturningPc(s'.pc[t]) && s'.pc[t].h == s.pc[t].h
              && s'.head == s.head
              && (!spurious ==> Fuel(s', s'.pc[t]) < Fuel(s, s.pc[t]))))
  {
    assert S.ThreadOk(s, t);
  }

  /** The same inside push of the pre-scheduler ring, for a handle not claimed yet. */
  function RingFuel(ring: Q.Ring, pc: Q.PushPc): nat
  {
    match pc
    case LoadPos(_) => 3
    case LoadSeq(_, pos) => if pos == ring.enqueue then 2 else 4
    case ClaimPos(_, pos) => if pos == ring.enqueue then 1 else 3
    case Rejected(_) => 1
    case WriteHandle(_, _) => 8
    case Publish(_, _) => 7
    case Accepted => 6
    case _ => 0
  }

  lemma RingFuelFalls(s: Q.Ring, t: nat, spurious: bool)
    requires Q.Inv(s) && Q.Enabled(s, Q.Produce(t, spurious))
    ensures var s' := Q.Apply(s, Q.Produce(t, spurious));
      || (s.producer[t].ClaimPos? && s'.enqueue != s.enqueue)
      || (s'.enqueue == s.enqueue && (!spurious ==> RingFuel(s', s'.producer[t]) < RingFuel(s, s.producer[t])))
  {
    assert Q.ProducerOk(s, t);
    if s.producer[t].LoadSeq? { Q.MarkTells(s, s.producer[t].pos); }
  }

  function AgentWork(s: Pipeline, t: nat): nat
    requires Sizes(s) && t < |s.agent|
  {
    var inStore, inRing := s.store.pc[t], s.pre.producer[t];
    match s.agent[t]
    case Checking(a) => Weigh(a, 0)
    case Registering =>
      RegisterWork(s.store, inStore)
    case Enqueueing => if Q.Unclaimed(inRing) then WeighHandle(s.store.issued, inRing.h, 3) else 0
    case Undoing =>
      if inStore.RemCas? then WeighHandle(s.store.issued, inStore.h, 3)
      else if S.ReturningPc(inStore) then 1
      else 0
    case Popping =>
      if t >= |s.posts| then 0
      else (match s.posts[t].consumer
            case ClearActive(result) => CellWork(result)
            case CountDown(result) => CellWork(result)
            case Popped(result) => CellWork(result)
            case _ => 0)
    case Redeeming =>
      if inStore.RemDone? then CellWork(inStore.result)
      else if S.ReturningPc(inStore) then WeighHandle(s.store.issued, inStore.h, 7)
      else 0
    case Running(cell) => CellWork(Some(cell))
    case Deciding(next) => if next.Some? then Weigh(next.value, 0) else 0
    case _ => 0
  }

  function AgentsWork(s: Pipeline): seq<nat>
    requires Sizes(s)
  {
    seq(|s.agent|, t requires 0 <= t < |s.agent| => AgentWork(s, t))
  }

  /** The weight of everything still on its way. */
  function TotalWork(s: Pipeline): nat
    requires Sizes(s)
  {
    Sum(AgentsWork(s)) + TotalQueueWork(View(s), s.store.issued)
  }
}
