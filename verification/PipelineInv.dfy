// The pipeline machine refines the ledger: every atomic step is one whole event of the
// ledger, or invisible there.
module PipelineInv {
  import opened Base
  import opened Handles
  import S = StorageMachine
  import Q = PreQueueMachine
  import P = PostQueueMachine
  import L = Ledger
  import opened PipelineMachine

  // ----- the abstraction -----

  /** The handle an agent carries in the middle of a push. */
  function Holding(s: Pipeline, t: nat): Option<Handle>
    requires Sizes(s) && t < |s.agent|
  {
    match s.agent[t]
    case Registering => if s.store.pc[t].RegDone? then s.store.pc[t].handle else None
    case Enqueueing => if Q.Unclaimed(s.pre.producer[t]) then Some(s.pre.producer[t].h) else None
    case Undoing => if s.store.pc[t].RemCas? then Some(s.store.pc[t].h) else None
    case _ => None
  }

  /** The pending handle was already made visible to an executor. */
  predicate Delivered(s: Pipeline)
    requires Sizes(s)
  {
    s.sched.Offering? && (s.posts[s.index].producer.CountUp? || s.posts[s.index].producer == P.Pushed(true))
  }

  /** The handle the scheduler has taken out of one ring and not yet put into another. */
  function InHand(s: Pipeline): Option<Handle>
    requires Sizes(s)
  {
    if Q.Taken(s.pre.consumer).Some? then Q.Taken(s.pre.consumer)
    else if Delivered(s) then None
    else s.pending
  }

  /** The executor has redeemed the handle at the front of its ring, whose flag is still set. */
  predicate Gone(s: Pipeline, e: nat)
    requires Sizes(s) && e < |s.posts|
  {
    s.posts[e].consumer.ClearActive? || (s.agent[e].Redeeming? && !s.store.pc[e].RemCas?)
  }

  function LaneOf(s: Pipeline, e: nat): L.Lane
    requires Sizes(s) && e < |s.posts|
  {
    L.Lane(s.posts[e].pushed, P.Front(s.posts[e]), Gone(s, e))
  }

  function View(s: Pipeline): L.Ledger
    requires Sizes(s)
  {
    L.Ledger(
      seq(|s.agent|, t requires 0 <= t < |s.agent| => Holding(s, t)),
      s.pre.claimed,
      Q.Front(s.pre),
      InHand(s),
      seq(|s.posts|, e requires 0 <= e < |s.posts| => LaneOf(s, e)),
      S.LiveHandles(s.store),
      s.place,
      s.dispatched)
  }

  // ----- program counters fit together -----

  ghost predicate AgentOk(s: Pipeline, t: nat)
    requires Sizes(s) && t < |s.agent|
  {
    var inStore, inRing := s.store.pc[t], s.pre.producer[t];
    match s.agent[t]
    case Outside => t >= |s.posts| && inStore.Idle? && inRing.Away?
    case Checking(_) => t >= |s.posts| && inStore.Idle? && inRing.Away?
    case Registering => (S.Registering(inStore) || inStore.RegDone?) && inRing.Away?
    case Enqueueing => inStore.Idle? && !inRing.Away?
    case Undoing => S.Removing(inStore) && inRing.Away?
    case Redeeming => t < |s.posts| && S.Removing(inStore) && inRing.Away?
    case Crashed => false
    case _ => t < |s.posts| && inStore.Idle? && inRing.Away?
  }

  /** The result of redeeming h: not refused, and the very action registered for h. */
  predicate IsAction(s: Pipeline, h: Handle, result: Option<Option<Action>>)
  {
    h in s.store.issued && result == Some(Some(s.store.issued[h]))
  }

  /** What an executor's ring says about the executor, and what it is about to run. */
  ghost predicate ExecutorOk(s: Pipeline, e: nat)
    requires Sizes(s) && e < |s.posts|
  {
    var ring := s.posts[e];
    match s.agent[e]
    case Popping =>
      (match ring.consumer
       case Idle => false
       case ClearActive(result) => ring.dequeue < |ring.pushed| && IsAction(s, ring.pushed[ring.dequeue], result)
       case CountDown(result) => ring.dequeue < |ring.pushed| && IsAction(s, ring.pushed[ring.dequeue], result)
       case Popped(result) =>
         result.Some? ==> 0 < ring.dequeue <= |ring.pushed| && IsAction(s, ring.pushed[ring.dequeue - 1], result)
       case _ => true)
    case Redeeming =>
      && ring.consumer.Redeeming?
      && (if s.store.pc[e].RemDone? then IsAction(s, ring.consumer.h, s.store.pc[e].result)
          else S.Removing(s.store.pc[e]) && s.store.pc[e].h == ring.consumer.h)
    case Running(cell) =>
      && ring.consumer == P.PopPc.Idle
      && 0 < ring.dequeue <= |ring.pushed|
      && IsAction(s, ring.pushed[ring.dequeue - 1], Some(cell))
    case _ => ring.consumer == P.PopPc.Idle
  }

  /** How many of its handles an executor has run. */
  function Ran(s: Pipeline, e: nat): int
    requires Sizes(s) && e < |s.posts|
  {
    var consumer := s.posts[e].consumer;
    s.posts[e].dequeue - Count(s.agent[e].Running? || (consumer.Popped? && consumer.result.Some?))
  }

  /** An executor ran the actions registered for its first handles, in order. */
  ghost predicate ExecutedOk(s: Pipeline, e: nat)
    requires Sizes(s) && e < |s.posts|
  {
    && |s.executed[e]| == Ran(s, e) <= |s.posts[e].pushed|
    && (forall j :: 0 <= j < |s.executed[e]| ==>
          && s.posts[e].pushed[j] in s.store.issued
          && s.executed[e][j] == s.store.issued[s.posts[e].pushed[j]])
  }

  ghost predicate SchedulerOk(s: Pipeline)
    requires Sizes(s)
  {
    && (s.sched == SchedPc.Popping <==> !s.pre.consumer.Resting?)
    && (s.sched == SchedPc.Popping ==> s.pending == None)
    && (forall e :: 0 <= e < |s.posts| ==>
          (s.posts[e].producer != P.PushPc.Idle <==> s.sched.Offering? && e == s.index))
    && (s.sched.Offering? ==> s.pending.Some? && OfferOk(s.posts[s.index].producer, s.pending.value))
  }

  predicate OfferOk(pc: P.PushPc, h: Handle)
  {
    match pc
    case TestFree(g) => g == h
    case WriteHandle(g) => g == h
    case SetActive(g) => g == h
    case _ => true
  }

  ghost predicate ComponentsOk(s: Pipeline)
  {
    && S.Inv(s.store) && Q.Inv(s.pre)
    && (forall e :: 0 <= e < |s.posts| ==> P.Inv(s.posts[e]))
  }

  ghost predicate AgentsOk(s: Pipeline)
    requires Sizes(s)
  {
    && (forall t :: 0 <= t < |s.agent| ==> AgentOk(s, t))
    && (forall e :: 0 <= e < |s.posts| ==> ExecutorOk(s, e) && ExecutedOk(s, e))
  }

  /** Program counters fit together, and exactly the issued handles have a place. */
  ghost predicate Coupled(s: Pipeline)
  {
    Sizes(s) && AgentsOk(s) && SchedulerOk(s) && s.place.Keys == s.store.issued.Keys
  }

  ghost predicate Inv(s: Pipeline)
  {
    Coupled(s) && ComponentsOk(s) && L.Inv(View(s))
  }

  /** From s to s' the ledger does this event, or nothing. */
  ghost predicate Follows(s: Pipeline, s': Pipeline, x: Option<L.Event>)
    requires Sizes(s) && Sizes(s')
  {
    match x
    case None => View(s') == View(s)
    case Some(event) => L.Allowed(View(s), event) && View(s') == L.Do(View(s), event)
  }

  ghost predicate Refines(s: Pipeline, s': Pipeline, x: Option<L.Event>)
    requires Sizes(s)
  {
    Coupled(s') && Follows(s, s', x)
  }

  lemma RefinesInv(s: Pipeline, s': Pipeline, x: Option<L.Event>)
    requires Sizes(s) && L.Inv(View(s)) && Refines(s, s', x) && ComponentsOk(s')
    ensures Inv(s') && Follows(s, s', x)
  {
    if x.Some? { L.DoInv(View(s), x.value); }
  }

  // ----- frames -----

  ghost predicate Grows(a: map<Handle, Action>, b: map<Handle, Action>)
  {
    forall h :: h in a ==> h in b && b[h] == a[h]
  }

  /** Agent t's own part of the invariant. */
  ghost predicate Local(s: Pipeline, t: nat)
    requires Sizes(s) && t < |s.agent|
  {
    AgentOk(s, t) && (t < |s.posts| ==> ExecutorOk(s, t) && ExecutedOk(s, t))
  }

  /** A step of agent t leaves the other agents, the other lanes and the scheduler alone. */
  ghost predicate AgentFrame(s: Pipeline, s': Pipeline, t: nat)
    requires Sizes(s) && t < |s.agent|
  {
    && Sizes(s') && |s'.agent| == |s.agent| && |s'.posts| == |s.posts|
    && (forall u :: 0 <= u < |s.agent| && u != t ==>
          s'.agent[u] == s.agent[u] && s'.store.pc[u] == s.store.pc[u] && s'.pre.producer[u] == s.pre.producer[u])
    && (forall e :: 0 <= e < |s.posts| && e != t ==>
          s'.posts[e] == s.posts[e] && s'.executed[e] == s.executed[e])
    && (t < |s.posts| ==> s'.posts[t].producer == s.posts[t].producer)
    && s'.sched == s.sched && s'.pending == s.pending && s'.index == s.index
    && s'.pre.consumer == s.pre.consumer
    && s'.dispatched == s.dispatched
    && Q.Front(s'.pre) == Q.Front(s.pre)
    && Grows(s.store.issued, s'.store.issued)
  }

  lemma OthersOk(s: Pipeline, s': Pipeline, t: nat)
    requires Sizes(s) && AgentsOk(s) && t < |s.agent| && AgentFrame(s, s', t)
    requires Local(s', t)
    ensures AgentsOk(s')
  {
    forall u | 0 <= u < |s.agent| ensures AgentOk(s', u) {
      assert AgentOk(s, u);
    }
    forall e | 0 <= e < |s.posts| ensures ExecutorOk(s', e) && ExecutedOk(s', e) {
      assert ExecutorOk(s, e) && ExecutedOk(s, e);
    }
  }

  lemma ViewOfAgentStep(s: Pipeline, s': Pipeline, t: nat)
    requires Sizes(s) && t < |s.agent| && AgentFrame(s, s', t)
    ensures View(s') == View(s).(
      held := View(s).held[t := Holding(s', t)],
      claimed := s'.pre.claimed,
      lanes := if t < |s.posts| then View(s).lanes[t := LaneOf(s', t)] else View(s).lanes,
      live := S.LiveHandles(s'.store),
      place := s'.place)
  {
    assert View(s').held == View(s).held[t := Holding(s', t)];
    if t < |s.posts| {
      assert View(s').lanes == View(s).lanes[t := LaneOf(s', t)];
    } else {
      assert View(s').lanes == View(s).lanes;
    }
  }

  predicate Quiet(s: Pipeline, s': Pipeline, t: nat)
    requires Sizes(s) && Sizes(s') && |s'.agent| == |s.agent| && |s'.posts| == |s.posts| && t < |s.agent|
  {
    && Holding(s', t) == Holding(s, t)
    && s'.pre.claimed == s.pre.claimed
    && (t < |s.posts| ==> LaneOf(s', t) == LaneOf(s, t))
    && S.LiveHandles(s'.store) == S.LiveHandles(s.store)
    && s'.place == s.place
  }

  lemma SchedulerUntouched(s: Pipeline, s': Pipeline, t: nat)
    requires Sizes(s) && SchedulerOk(s) && t < |s.agent| && AgentFrame(s, s', t)
    ensures SchedulerOk(s')
  {
    forall e | 0 <= e < |s.posts| ensures s'.posts[e].producer == s.posts[e].producer {}
  }

  lemma StillCoupled(s: Pipeline, s': Pipeline, t: nat)
    requires Coupled(s) && t < |s.agent| && AgentFrame(s, s', t) && Local(s', t)
    requires s'.place.Keys == s'.store.issued.Keys
    ensures Coupled(s')
  {
    OthersOk(s, s', t);
    SchedulerUntouched(s, s', t);
  }

  lemma QuietStep(s: Pipeline, s': Pipeline, t: nat)
    requires Coupled(s) && t < |s.agent| && AgentFrame(s, s', t) && Local(s', t) && Quiet(s, s', t)
    requires s'.place.Keys == s'.store.issued.Keys
    ensures Refines(s, s', None)
  {
    ViewOfAgentStep(s, s', t);
    assert View(s').held == View(s).held;
    assert View(s').lanes == View(s).lanes;
    StillCoupled(s, s', t);
  }

  // ----- the event a step stands for -----

  function AgentEvent(s: Pipeline, t: nat, spurious: bool): Option<L.Event>
    requires Sizes(s) && t < |s.agent|
  {
    match s.agent[t]
    case Registering =>
      (match s.store.pc[t]
       case RegGen(_, i) =>
         if i < |s.store.generation| then Some(L.Issue(t, Handle(i, s.store.generation[i]))) else None
       case _ => None)
    case Enqueueing =>
      (match s.pre.producer[t]
       case ClaimPos(_, pos) => if s.pre.enqueue == pos && !spurious then Some(L.Claim(t)) else None
       case _ => None)
    case Undoing => if s.store.pc[t].RemCas? then Some(L.Cancel(t)) else None
    case Redeeming => if s.store.pc[t].RemCas? then Some(L.Redeem(t)) else None
    case Popping => if t < |s.posts| && s.posts[t].consumer.ClearActive? then Some(L.Retire(t)) else None
    case _ => None
  }

  function EventOf(s: Pipeline, l: Label): Option<L.Event>
    requires Enabled(s, l)
  {
    match l
    case Agent(t, spurious) => AgentEvent(s, t, spurious)
    case Sched =>
      if s.sched == SchedPc.Popping && s.pre.consumer.FreeSlot? then Some(L.Take)
      else if s.sched.Offering? && s.posts[s.index].producer.SetActive? then Some(L.Deliver(s.index))
      else None
    case _ => None
  }

  // ----- steps inside the slot allocator -----

  predicate InStore(pc: AgentPc) { pc.Registering? || pc.Undoing? || pc.Redeeming? }

  /** A step inside the allocator by an agent that is inside it. */
  predicate StoreOnly(s: Pipeline, s': Pipeline, t: nat, place: map<Handle, L.Where>)
  {
    && Sizes(s) && t < |s.agent| && InStore(s.agent[t])
    && s' == s.(store := s'.store, place := place)
  }

  lemma StoreQuietLocal(s: Pipeline, s': Pipeline, t: nat)
    requires StoreOnly(s, s', t, s.place) && Local(s, t) && S.Effect(s.store, s'.store, t)
    requires S.Registering(s.store.pc[t]) || S.ReturningPc(s.store.pc[t])
    requires !s.store.pc[t].RegGen?
    ensures AgentFrame(s, s', t) && Local(s', t) && Quiet(s, s', t)
    ensures s'.store.issued == s.store.issued
  {
  }

  lemma StoreIssueLocal(s: Pipeline, s': Pipeline, t: nat, h: Handle)
    requires StoreOnly(s, s', t, s.place[h := L.Held(t)]) && Local(s, t) && S.Effect(s.store, s'.store, t)
    requires s.agent[t].Registering? && s.store.pc[t].RegGen? && s'.store.pc[t] == S.RegDone(Some(h))
    ensures AgentFrame(s, s', t) && Local(s', t)
    ensures h !in s.store.issued && s'.store.issued.Keys == s.store.issued.Keys + {h}
    ensures View(s).held[t] == None
    ensures View(s') == View(s).(
      held := View(s).held[t := Some(h)], live := View(s).live + {h}, place := s'.place)
  {
    ViewOfAgentStep(s, s', t);
    assert t < |s.posts| ==> View(s).lanes[t := LaneOf(s', t)] == View(s).lanes;
  }

  lemma StoreCancelLocal(s: Pipeline, s': Pipeline, t: nat, h: Handle)
    requires StoreOnly(s, s', t, s.place[h := L.Redeemed]) && Local(s, t) && S.Effect(s.store, s'.store, t)
    requires s.agent[t].Undoing? && s.store.pc[t] == S.RemCas(h) && S.IsLive(s.store, h)
    ensures AgentFrame(s, s', t) && Local(s', t)
    ensures s'.store.issued == s.store.issued
    ensures View(s).held[t] == Some(h)
    ensures View(s') == View(s).(
      held := View(s).held[t := None], live := View(s).live - {h}, place := s'.place)
  {
    ViewOfAgentStep(s, s', t);
    assert t < |s.posts| ==> View(s).lanes[t := LaneOf(s', t)] == View(s).lanes;
  }

  lemma StoreRedeemLocal(s: Pipeline, s': Pipeline, t: nat, h: Handle)
    requires StoreOnly(s, s', t, s.place[h := L.Redeemed]) && Local(s, t) && S.Effect(s.store, s'.store, t)
    requires s.agent[t].Redeeming? && s.store.pc[t] == S.RemCas(h) && S.IsLive(s.store, h)
    ensures AgentFrame(s, s', t) && Local(s', t)
    ensures s'.store.issued == s.store.issued
    ensures View(s).lanes[t] == LaneOf(s, t) && !LaneOf(s, t).gone
    ensures View(s') == View(s).(
      lanes := View(s).lanes[t := LaneOf(s, t).(gone := true)], live := View(s).live - {h}, place := s'.place)
  {
    ViewOfAgentStep(s, s', t);
    assert View(s).held[t := Holding(s', t)] == View(s).held;
  }

  /** A handle about to be redeemed, by the agent that carries it or by its executor, is live. */
  lemma RedeemableIsLive(s: Pipeline, t: nat)
    requires Sizes(s) && t < |s.agent| && Local(s, t) && s.store.pc[t].RemCas?
    requires L.Inv(View(s)) && (t < |s.posts| ==> P.Inv(s.posts[t]))
    ensures S.IsLive(s.store, s.store.pc[t].h)
    ensures s.agent[t].Undoing? || s.agent[t].Redeeming?
    ensures s.agent[t].Redeeming? ==>
      var ring := s.posts[t];
      P.Front(ring) < |ring.pushed| && ring.pushed[P.Front(ring)] == s.store.pc[t].h
  {
    var h := s.store.pc[t].h;
    assert h in View(s).live by {
      if s.agent[t].Undoing? {
        assert View(s).held[t] == Some(h);
      } else {
        assert L.LaneOk(View(s), t);
        assert View(s).lanes[t] == LaneOf(s, t);
      }
    }
  }

  /** The step seen through the allocator's own contract. */
  lemma StoreStepShape(s: Pipeline, t: nat, spurious: bool)
    requires Sizes(s) && t < |s.agent| && S.Inv(s.store) && S.Enabled(s.store, S.Internally(t, spurious))
    requires InStore(s.agent[t]) && (s.store.pc[t].RemCas? ==> S.IsLive(s.store, s.store.pc[t].h))
    ensures var s' := StoreStep(s, t, spurious);
      && S.Inv(s'.store) && S.Effect(s.store, s'.store, t)
      && StoreOnly(s, s', t, s'.place)
      && (match s.store.pc[t]
          case RemCas(h) => s'.place == s.place[h := L.Redeemed]
          case RegGen(_, i) =>
            && i < |s.store.generation|
            && var h := Handle(i, s.store.generation[i]);
               s'.store.pc[t] == S.RegDone(Some(h)) && s'.place == s.place[h := L.Held(t)]
          case _ => s'.place == s.place)
  {
    S.StepEffect(s.store, t, spurious);
  }

  lemma CancelStep(s: Pipeline, s': Pipeline, t: nat, h: Handle)
    requires Coupled(s) && StoreOnly(s, s', t, s.place[h := L.Redeemed])
    requires S.Effect(s.store, s'.store, t) && h in s.store.issued
    requires s.agent[t].Undoing? && s.store.pc[t] == S.RemCas(h) && S.IsLive(s.store, h)
    ensures Refines(s, s', Some(L.Cancel(t)))
  {
    assert Local(s, t);
    StoreCancelLocal(s, s', t, h);
    StillCoupled(s, s', t);
  }

  lemma RedeemStep(s: Pipeline, s': Pipeline, t: nat, h: Handle)
    requires Coupled(s) && StoreOnly(s, s', t, s.place[h := L.Redeemed])
    requires S.Effect(s.store, s'.store, t) && h in s.store.issued
    requires s.agent[t].Redeeming? && s.store.pc[t] == S.RemCas(h) && S.IsLive(s.store, h)
    requires t < |s.posts|
    requires var ring := s.posts[t];
      P.Front(ring) < |ring.pushed| && ring.pushed[P.Front(ring)] == h
    ensures Refines(s, s', Some(L.Redeem(t)))
  {
    assert Local(s, t);
    StoreRedeemLocal(s, s', t, h);
    StillCoupled(s, s', t);
  }

  lemma IssueStep(s: Pipeline, s': Pipeline, t: nat, h: Handle)
    requires Coupled(s) && StoreOnly(s, s', t, s.place[h := L.Held(t)])
    requires S.Effect(s.store, s'.store, t)
    requires s.agent[t].Registering? && s.store.pc[t].RegGen? && s'.store.pc[t] == S.RegDone(Some(h))
    ensures Refines(s, s', Some(L.Issue(t, h)))
  {
    assert Local(s, t);
    StoreIssueLocal(s, s', t, h);
    StillCoupled(s, s', t);
  }

  lemma StoreQuietStep(s: Pipeline, s': Pipeline, t: nat)
    requires Coupled(s) && StoreOnly(s, s', t, s.place)
    requires S.Effect(s.store, s'.store, t)
    requires S.Registering(s.store.pc[t]) || S.ReturningPc(s.store.pc[t])
    requires !s.store.pc[t].RegGen?
    ensures Refines(s, s', None)
  {
    assert Local(s, t);
    StoreQuietLocal(s, s', t);
    QuietStep(s, s', t);
  }

  lemma InStoreRedemption(s: Pipeline, t: nat, spurious: bool)
    requires Coupled(s) && S.Inv(s.store) && L.Inv(View(s))
    requires t < |s.agent| && InStore(s.agent[t]) && s.store.pc[t].RemCas?
    requires t < |s.posts| ==> P.Inv(s.posts[t])
    requires S.Enabled(s.store, S.Internally(t, spurious))
    ensures Refines(s, StoreStep(s, t, spurious), AgentEvent(s, t, spurious))
  {
    assert Local(s, t);
    var h := s.store.pc[t].h;
    RedeemableIsLive(s, t);
    StoreStepShape(s, t, spurious);
    if s.agent[t].Undoing? { CancelStep(s, StoreStep(s, t, spurious), t, h); }
    else { RedeemStep(s, StoreStep(s, t, spurious), t, h); }
  }

  lemma InStoreOther(s: Pipeline, t: nat, spurious: bool)
    requires Coupled(s) && S.Inv(s.store)
    requires t < |s.agent| && InStore(s.agent[t]) && S.Internal(s.store.pc[t]) && !s.store.pc[t].RemCas?
    requires S.Enabled(s.store, S.Internally(t, spurious))
    ensures Refines(s, StoreStep(s, t, spurious), AgentEvent(s, t, spurious))
  {
    assert Local(s, t);
    var pc := s.store.pc[t];
    StoreStepShape(s, t, spurious);
    if pc.RegGen? { IssueStep(s, StoreStep(s, t, spurious), t, Handle(pc.index, s.store.generation[pc.index])); }
    else { StoreQuietStep(s, StoreStep(s, t, spurious), t); }
  }

  lemma StoreStepInv(s: Pipeline, t: nat, spurious: bool)
    requires Inv(s) && t < |s.agent| && InStore(s.agent[t]) && S.Internal(s.store.pc[t])
    requires S.Enabled(s.store, S.Internally(t, spurious))
    ensures Refines(s, StoreStep(s, t, spurious), AgentEvent(s, t, spurious))
    ensures ComponentsOk(StoreStep(s, t, spurious))
  {
    if s.store.pc[t].RemCas? { InStoreRedemption(s, t, spurious); } else { InStoreOther(s, t, spurious); }
    S.StepEffect(s.store, t, spurious);
  }

  // ----- steps that only move agent t's program counters -----

  /** The state with new program counters for agent t, here and in the components. */
  function Counters(s: Pipeline, t: nat, pc: AgentPc, inStore: S.Pc, inRing: Q.PushPc): Pipeline
    requires Sizes(s) && t < |s.agent|
  {
    s.(agent := s.agent[t := pc],
       store := s.store.(pc := s.store.pc[t := inStore]),
       pre := s.pre.(producer := s.pre.producer[t := inRing]))
  }

  function Consuming(s: Pipeline, e: nat, consumer: P.PopPc): Pipeline
    requires e < |s.posts|
  {
    s.(posts := s.posts[e := s.posts[e].(consumer := consumer)])
  }

  lemma CountersStep(s: Pipeline, s': Pipeline, t: nat, pc: AgentPc, inStore: S.Pc, inRing: Q.PushPc)
    requires Coupled(s) && t < |s.agent| && s' == Counters(s, t, pc, inStore, inRing)
    requires Local(s', t) && Holding(s', t) == Holding(s, t)
    requires t < |s.posts| ==> Gone(s', t) == Gone(s, t)
    ensures Refines(s, s', None)
  {
    assert S.LiveHandles(s'.store) == S.LiveHandles(s.store);
    QuietStep(s, s', t);
  }

  lemma ConsumerStep(s: Pipeline, s': Pipeline, e: nat, pc: AgentPc, inStore: S.Pc, consumer: P.PopPc)
    requires Coupled(s) && e < |s.posts|
    requires s' == Consuming(Counters(s, e, pc, inStore, s.pre.producer[e]), e, consumer)
    requires Local(s', e) && Holding(s', e) == Holding(s, e)
    requires Gone(s', e) == Gone(s, e) && P.Front(s'.posts[e]) == P.Front(s.posts[e])
    ensures Refines(s, s', None)
  {
    assert S.LiveHandles(s'.store) == S.LiveHandles(s.store);
    QuietStep(s, s', e);
  }

  /** register_action returns inside push: give up, or go on to the ring with the handle. */
  lemma RegisteringReturn(s: Pipeline, t: nat)
    requires Coupled(s) && t < |s.agent| && s.agent[t].Registering? && s.store.pc[t].RegDone?
    ensures match s.store.pc[t].handle
            case None => Refines(s, Counters(s, t, Home(s, t), S.Idle, Q.Away), None)
            case Some(h) => Refines(s, Counters(s, t, Enqueueing, S.Idle, Q.LoadPos(h)), None)
  {
    hide Refines, SchedulerOk;
    assert Local(s, t);
    match s.store.pc[t].handle
    case None => CountersStep(s, Counters(s, t, Home(s, t), S.Idle, Q.Away), t, Home(s, t), S.Idle, Q.Away);
    case Some(h) =>
      CountersStep(s, Counters(s, t, Enqueueing, S.Idle, Q.LoadPos(h)), t, Enqueueing, S.Idle, Q.LoadPos(h));
  }

  /** The ring was full: the registration is undone. */
  lemma EnqueueingRejected(s: Pipeline, t: nat, h: Handle)
    requires Coupled(s) && t < |s.agent| && s.agent[t].Enqueueing? && s.pre.producer[t] == Q.Rejected(h)
    ensures Refines(s, Counters(s, t, Undoing, S.RemCas(h), Q.Away), None)
  {
    assert Local(s, t);
    CountersStep(s, Counters(s, t, Undoing, S.RemCas(h), Q.Away), t, Undoing, S.RemCas(h), Q.Away);
  }

  lemma EnqueueingAccepted(s: Pipeline, t: nat)
    requires Coupled(s) && t < |s.agent| && s.agent[t].Enqueueing? && s.pre.producer[t] == Q.Accepted
    ensures Refines(s, Counters(s, t, Home(s, t), S.Idle, Q.Away), None)
  {
    assert Local(s, t);
    CountersStep(s, Counters(s, t, Home(s, t), S.Idle, Q.Away), t, Home(s, t), S.Idle, Q.Away);
  }

  lemma UndoingReturn(s: Pipeline, t: nat)
    requires Coupled(s) && t < |s.agent| && s.agent[t].Undoing? && s.store.pc[t].RemDone?
    ensures Refines(s, Counters(s, t, Home(s, t), S.Idle, Q.Away), None)
  {
    assert Local(s, t);
    CountersStep(s, Counters(s, t, Home(s, t), S.Idle, Q.Away), t, Home(s, t), S.Idle, Q.Away);
  }

  lemma StartPushStep(s: Pipeline, t: nat, a: Action)
    requires Coupled(s) && t < |s.agent| && (s.agent[t].Checking? || s.agent[t].Deciding?)
    ensures Refines(s, Counters(s, t, Registering, S.RegLoad(a), Q.Away), None)
  {
    assert Local(s, t);
    CountersStep(s, Counters(s, t, Registering, S.RegLoad(a), Q.Away), t, Registering, S.RegLoad(a), Q.Away);
  }

  /** Steps between the calls: the checks of the flags. */
  lemma ControlStep(s: Pipeline, t: nat, pc: AgentPc)
    requires Coupled(s) && t < |s.agent|
    requires match s.agent[t]
             case Outside => pc.Checking?
             case Checking(_) => pc == Outside
             case Testing => pc == Stopped
             case Deciding(_) => pc == AgentPc.Testing
             case _ => false
    ensures Refines(s, Counters(s, t, pc, S.Idle, Q.Away), None)
  {
    assert Local(s, t);
    CountersStep(s, Counters(s, t, pc, S.Idle, Q.Away), t, pc, S.Idle, Q.Away);
  }

  /** Executor e starts to pop. */
  lemma StartPopStep(s: Pipeline, e: nat)
    requires Coupled(s) && e < |s.posts| && s.agent[e] == AgentPc.Testing
    ensures Refines(s, Consuming(Counters(s, e, AgentPc.Popping, S.Idle, Q.Away), e, P.TestActive), None)
  {
    assert Local(s, e);
    var s' := Consuming(Counters(s, e, AgentPc.Popping, S.Idle, Q.Away), e, P.TestActive);
    ConsumerStep(s, s', e, AgentPc.Popping, S.Idle, P.TestActive);
  }

  lemma StartRedeemStep(s: Pipeline, e: nat, h: Handle)
    requires Coupled(s) && e < |s.posts| && s.agent[e] == AgentPc.Popping && s.posts[e].consumer == P.Redeeming(h)
    ensures Refines(s, Counters(s, e, Redeeming, S.RemCas(h), Q.Away), None)
  {
    assert Local(s, e);
    CountersStep(s, Counters(s, e, Redeeming, S.RemCas(h), Q.Away), e, Redeeming, S.RemCas(h), Q.Away);
  }

  lemma RedeemingReturn(s: Pipeline, e: nat)
    requires Coupled(s) && e < |s.posts| && P.Inv(s.posts[e])
    requires s.agent[e].Redeeming? && s.store.pc[e].RemDone?
    ensures Refines(s, Consuming(Counters(s, e, AgentPc.Popping, S.Idle, Q.Away), e,
                                 P.ClearActive(s.store.pc[e].result)), None)
  {
    assert Local(s, e);
    var consumer := P.ClearActive(s.store.pc[e].result);
    var s' := Consuming(Counters(s, e, AgentPc.Popping, S.Idle, Q.Away), e, consumer);
    ConsumerStep(s, s', e, AgentPc.Popping, S.Idle, consumer);
  }

  /** pop returns: nothing there, or an action to run. */
  lemma PoppingReturn(s: Pipeline, e: nat, result: Option<Option<Action>>)
    requires Coupled(s) && e < |s.posts| && s.agent[e] == AgentPc.Popping && s.posts[e].consumer == P.Popped(result)
    ensures var pc := if result.None? then AgentPc.Testing else Running(result.value);
      Refines(s, Consuming(Counters(s, e, pc, S.Idle, Q.Away), e, P.PopPc.Idle), None)
  {
    assert Local(s, e);
    var pc := if result.None? then AgentPc.Testing else Running(result.value);
    var s' := Consuming(Counters(s, e, pc, S.Idle, Q.Away), e, P.PopPc.Idle);
    ConsumerStep(s, s', e, pc, S.Idle, P.PopPc.Idle);
  }

  /** Running the action: what is run is what was registered for the next handle in order. */
  lemma RunStep(s: Pipeline, e: nat)
    requires Coupled(s) && e < |s.posts| && s.agent[e].Running?
    ensures s.agent[e].cell.Some? && Refines(s, RunningStep(s, e), None)
  {
    assert Local(s, e);
    QuietStep(s, RunningStep(s, e), e);
  }

  // ----- steps inside the rings -----

  /** A step of agent t inside the pre-scheduler ring. */
  ghost predicate RingOnly(s: Pipeline, s': Pipeline, t: nat, place: map<Handle, L.Where>)
  {
    && Sizes(s) && t < |s.agent| && s.agent[t].Enqueueing?
    && s' == s.(pre := s'.pre, place := place)
    && Q.ProducerEffect(s.pre, s'.pre, t)
  }

  lemma RingQuiet(s: Pipeline, s': Pipeline, t: nat)
    requires Coupled(s) && RingOnly(s, s', t, s.place)
    requires !(s.pre.producer[t].ClaimPos? && s'.pre.enqueue != s.pre.enqueue)
    ensures Refines(s, s', None)
  {
    assert Local(s, t);
    QuietStep(s, s', t);
  }

  lemma RingClaim(s: Pipeline, s': Pipeline, t: nat, h: Handle)
    requires Coupled(s) && RingOnly(s, s', t, s.place[h := L.Queued(|s.pre.claimed|)])
    requires s.pre.producer[t].ClaimPos? && s.pre.producer[t].h == h && s'.pre.enqueue != s.pre.enqueue
    requires h in s.place
    ensures Refines(s, s', Some(L.Claim(t)))
  {
    assert Local(s, t);
    ViewOfAgentStep(s, s', t);
    assert t < |s.posts| ==> View(s).lanes[t := LaneOf(s', t)] == View(s).lanes;
    assert View(s).held[t] == Some(h);
    StillCoupled(s, s', t);
  }

  lemma RingStepInv(s: Pipeline, t: nat, spurious: bool)
    requires Coupled(s) && Q.Inv(s.pre) && L.HeldOk(View(s)) && t < |s.agent| && s.agent[t].Enqueueing?
    requires Q.Enabled(s.pre, Q.Produce(t, spurious))
    ensures Refines(s, RingStep(s, t, spurious), AgentEvent(s, t, spurious))
    ensures Q.Inv(RingStep(s, t, spurious).pre)
  {
    var s' := RingStep(s, t, spurious);
    Q.ProduceEffect(s.pre, t, spurious);
    if s.pre.producer[t].ClaimPos? && s'.pre.enqueue != s.pre.enqueue {
      assert View(s).held[t] == Some(s.pre.producer[t].h);
      RingClaim(s, s', t, s.pre.producer[t].h);
    } else {
      RingQuiet(s, s', t);
    }
  }

  /** A step of executor e inside its own ring. */
  ghost predicate LaneOnly(s: Pipeline, s': Pipeline, e: nat)
  {
    && Sizes(s) && e < |s.posts| && s.agent[e] == AgentPc.Popping
    && |s'.posts| == |s.posts| && s' == s.(posts := s.posts[e := s'.posts[e]])
    && s'.posts[e].producer == s.posts[e].producer && s'.posts[e].pushed == s.posts[e].pushed
    && s'.posts[e].consumer != P.PopPc.Idle
  }

  /** How the ring's consumer moves between two calls of the allocator. */
  predicate ConsumerMoves(a: P.Ring, b: P.Ring)
  {
    match a.consumer
    case TestActive => (b.consumer.ReadHandle? || b.consumer == P.Popped(None)) && b.dequeue == a.dequeue
    case ReadHandle => b.consumer.Redeeming? && b.dequeue == a.dequeue
    case ClearActive(result) => b.consumer == P.CountDown(result) && b.dequeue == a.dequeue
    case CountDown(result) => b.consumer == P.Popped(result) && b.dequeue == a.dequeue + 1
    case _ => false
  }

  lemma LaneQuiet(s: Pipeline, s': Pipeline, e: nat)
    requires Coupled(s) && LaneOnly(s, s', e) && ConsumerMoves(s.posts[e], s'.posts[e])
    requires !s.posts[e].consumer.ClearActive?
    ensures Refines(s, s', None)
  {
    assert Local(s, e);
    QuietStep(s, s', e);
  }

  lemma LaneRetire(s: Pipeline, s': Pipeline, e: nat)
    requires Coupled(s) && LaneOnly(s, s', e) && ConsumerMoves(s.posts[e], s'.posts[e])
    requires s.posts[e].consumer.ClearActive?
    ensures Refines(s, s', Some(L.Retire(e)))
  {
    assert Local(s, e);
    ViewOfAgentStep(s, s', e);
    assert View(s).held[e := Holding(s', e)] == View(s).held;
    assert View(s).lanes[e] == LaneOf(s, e);
    StillCoupled(s, s', e);
  }

  lemma LaneStepInv(s: Pipeline, e: nat)
    requires Coupled(s) && e < |s.posts| && s.agent[e] == AgentPc.Popping && P.Inv(s.posts[e])
    requires P.Enabled(s.posts[e], P.Consume)
    ensures Refines(s, PostApply(s, e, P.Consume), AgentEvent(s, e, false))
    ensures P.Inv(PostApply(s, e, P.Consume).posts[e])
  {
    var s' := PostApply(s, e, P.Consume);
    P.ConsumeEffect(s.posts[e]);
    if s.posts[e].consumer.ClearActive? { LaneRetire(s, s', e); } else { LaneQuiet(s, s', e); }
  }

  // ----- steps of the scheduler -----

  ghost predicate SchedFrame(s: Pipeline, s': Pipeline)
    requires Sizes(s)
  {
    && Sizes(s') && |s'.posts| == |s.posts|
    && s'.agent == s.agent && s'.store == s.store && s'.executed == s.executed
    && s'.pre.producer == s.pre.producer && s'.pre.claimed == s.pre.claimed
    && (forall e :: 0 <= e < |s.posts| ==>
          && s'.posts[e].consumer == s.posts[e].consumer && s'.posts[e].dequeue == s.posts[e].dequeue
          && s.posts[e].pushed <= s'.posts[e].pushed)
  }

  lemma SchedKeepsAgents(s: Pipeline, s': Pipeline)
    requires Sizes(s) && AgentsOk(s) && SchedFrame(s, s')
    ensures AgentsOk(s')
  {
    forall t | 0 <= t < |s.agent| ensures AgentOk(s', t) { assert AgentOk(s, t); }
    forall e | 0 <= e < |s.posts| ensures ExecutorOk(s', e) && ExecutedOk(s', e) {
      assert ExecutorOk(s, e) && ExecutedOk(s, e);
    }
  }

  lemma ViewOfSchedStep(s: Pipeline, s': Pipeline, e: nat)
    requires Sizes(s) && SchedFrame(s, s') && e < |s.posts|
    requires forall u :: 0 <= u < |s.posts| && u != e ==> s'.posts[u].pushed == s.posts[u].pushed
    ensures View(s') == View(s).(
      front := Q.Front(s'.pre), hand := InHand(s'), place := s'.place, dispatched := s'.dispatched,
      lanes := View(s).lanes[e := LaneOf(s, e).(pushed := s'.posts[e].pushed)])
  {
    assert View(s').held == View(s).held;
    assert View(s').lanes == View(s).lanes[e := LaneOf(s, e).(pushed := s'.posts[e].pushed)];
  }

  /** A step of the scheduler that moves no handle from one place to another. */
  lemma SchedQuiet(s: Pipeline, s': Pipeline)
    requires Coupled(s) && SchedFrame(s, s') && SchedulerOk(s')
    requires Q.Front(s'.pre) == Q.Front(s.pre) && InHand(s') == InHand(s)
    requires s'.place == s.place && s'.dispatched == s.dispatched
    requires forall u :: 0 <= u < |s.posts| ==> s'.posts[u].pushed == s.posts[u].pushed
    ensures Refines(s, s', None)
  {
    SchedKeepsAgents(s, s');
    ViewOfSchedStep(s, s', 0);
    assert View(s').lanes == View(s).lanes;
  }

  /** A step of the scheduler inside the pre-scheduler ring. */
  lemma SchedConsume(s: Pipeline, s': Pipeline, h: Option<Handle>)
    requires Coupled(s) && s.sched == SchedPc.Popping && !s'.pre.consumer.Resting?
    requires s' == s.(pre := s'.pre, place := if h.Some? then s.place[h.value := L.InHand] else s.place)
    requires s'.pre.producer == s.pre.producer && s'.pre.claimed == s.pre.claimed
    requires if h.Some? then
        && Q.Front(s.pre) < |s.pre.claimed| && h.value == s.pre.claimed[Q.Front(s.pre)]
        && Q.Front(s'.pre) == Q.Front(s.pre) + 1 && h.value in s.place
        && Q.Taken(s.pre.consumer) == None && Q.Taken(s'.pre.consumer) == h
      else
        Q.Front(s'.pre) == Q.Front(s.pre) && Q.Taken(s'.pre.consumer) == Q.Taken(s.pre.consumer)
    ensures Refines(s, s', if h.Some? then Some(L.Take) else None)
  {
    if h.None? {
      SchedQuiet(s, s');
    } else {
      SchedKeepsAgents(s, s');
      ViewOfSchedStep(s, s', 0);
      assert View(s').lanes == View(s).lanes;
    }
  }

  lemma SchedConsumeInv(s: Pipeline)
    requires Coupled(s) && Q.Inv(s.pre) && L.QueuedOk(View(s))
    requires s.sched == SchedPc.Popping && Q.Enabled(s.pre, Q.Consume)
    ensures Enabled(s, Sched) && Q.Inv(SchedStep(s).pre)
    ensures Refines(s, SchedStep(s), EventOf(s, Sched))
  {
    Q.ConsumeEffect(s.pre);
    if s.pre.consumer.FreeSlot? {
      assert L.At(View(s), s.pre.consumer.h, L.Queued(Q.Front(s.pre)));
      SchedConsume(s, SchedStep(s), Some(s.pre.consumer.h));
    } else {
      SchedConsume(s, SchedStep(s), None);
    }
  }

  /** A step of the scheduler inside the push of the chosen executor. */
  lemma SchedProduce(s: Pipeline, s': Pipeline)
    requires Coupled(s) && s.sched.Offering? && |s'.posts| == |s.posts|
    requires s' == s.(posts := s.posts[s.index := s'.posts[s.index]])
    requires !s.posts[s.index].producer.SetActive? && !s.posts[s.index].producer.Pushed?
    requires var a, b := s.posts[s.index], s'.posts[s.index];
      && b.consumer == a.consumer && b.dequeue == a.dequeue && b.pushed == a.pushed
      && b.producer != P.PushPc.Idle && OfferOk(b.producer, s.pending.value)
      && ((b.producer.CountUp? || b.producer == P.Pushed(true))
          <==> (a.producer.CountUp? || a.producer == P.Pushed(true)))
    ensures Refines(s, s', None)
  {
    SchedQuiet(s, s');
  }

  lemma SchedDeliver(s: Pipeline, s': Pipeline, h: Handle)
    requires Coupled(s) && s.sched.Offering? && |s'.posts| == |s.posts|
    requires s' == s.(posts := s.posts[s.index := s'.posts[s.index]],
                      place := s.place[h := L.Posted(s.index, |s.posts[s.index].pushed|)],
                      dispatched := s.dispatched + [s.index])
    requires s.posts[s.index].producer == P.SetActive(h) && h in s.place
    requires var a, b := s.posts[s.index], s'.posts[s.index];
      && b.consumer == a.consumer && b.dequeue == a.dequeue && b.pushed == a.pushed + [h]
      && b.producer.CountUp?
    ensures Refines(s, s', Some(L.Deliver(s.index)))
  {
    SchedKeepsAgents(s, s');
    ViewOfSchedStep(s, s', s.index);
    assert View(s).lanes[s.index] == LaneOf(s, s.index);
    assert s'.place.Keys == s'.store.issued.Keys;
  }

  /** Both steps together: inside push the pending handle stays the pending handle. */
  lemma SchedProduceInv(s: Pipeline)
    requires Coupled(s) && P.Inv(s.posts[s.index]) && L.HandOk(View(s))
    requires s.sched.Offering? && P.Enabled(s.posts[s.index], P.Produce)
    ensures Enabled(s, Sched) && P.Inv(SchedStep(s).posts[s.index])
    ensures Refines(s, SchedStep(s), EventOf(s, Sched))
  {
    P.ProduceEffect(s.posts[s.index]);
    if s.posts[s.index].producer.SetActive? {
      var h := s.posts[s.index].producer.h;
      assert View(s).hand == Some(h);
      SchedDeliver(s, SchedStep(s), h);
    } else {
      SchedProduce(s, SchedStep(s));
    }
  }

  /** Calling push of the next executor in turn. */
  lemma OfferStep(s: Pipeline, mid: Pipeline, h: Handle)
    requires Coupled(s) && InHand(s) == Some(h) && !s.sched.Offering?
    requires mid == s.(pre := s.pre.(consumer := Q.Resting))
    requires s.pre.consumer.Resting? || s.pre.consumer == Q.Popped(Some(h))
    ensures Refines(s, Offer(mid, h), None)
    ensures var index := (s.index + 1) % |s.posts|;
      Offer(mid, h).posts == s.posts[index := s.posts[index].(producer := P.TestFree(h))]
      && s.posts[index].producer == P.PushPc.Idle
  {
    SchedQuiet(s, Offer(mid, h));
  }

  /** push of an executor returns: the handle was delivered, or stays pending. */
  lemma OfferReturn(s: Pipeline, ok: bool)
    requires Coupled(s) && s.sched.Offering? && s.posts[s.index].producer == P.Pushed(ok)
    ensures Refines(s, s.(posts := s.posts[s.index := s.posts[s.index].(producer := P.PushPc.Idle)],
                          pending := if ok then None else s.pending,
                          sched := SchedPc.Testing), None)
  {
    SchedQuiet(s, s.(posts := s.posts[s.index := s.posts[s.index].(producer := P.PushPc.Idle)],
                     pending := if ok then None else s.pending,
                     sched := SchedPc.Testing));
  }

  lemma SchedCall(s: Pipeline)
    requires Coupled(s) && s.sched == SchedPc.Testing && s.pending == None
    ensures Refines(s, s.(pre := s.pre.(consumer := Q.TestSeq), sched := SchedPc.Popping), None)
  {
    SchedQuiet(s, s.(pre := s.pre.(consumer := Q.TestSeq), sched := SchedPc.Popping));
  }

  lemma SchedNothing(s: Pipeline)
    requires Coupled(s) && s.sched == SchedPc.Popping && s.pre.consumer == Q.Popped(None)
    ensures Refines(s, s.(pre := s.pre.(consumer := Q.Resting), sched := SchedPc.Testing), None)
  {
    SchedQuiet(s, s.(pre := s.pre.(consumer := Q.Resting), sched := SchedPc.Testing));
  }

  lemma SchedExit(s: Pipeline)
    requires Coupled(s) && s.sched == SchedPc.Testing
    ensures Refines(s, s.(sched := Exited), None)
  {
    SchedQuiet(s, s.(sched := Exited));
  }

  lemma SchedTestingInv(s: Pipeline)
    requires Coupled(s) && Q.Inv(s.pre) && s.sched == SchedPc.Testing && Enabled(s, Sched)
    requires forall e :: 0 <= e < |s.posts| ==> P.Inv(s.posts[e])
    ensures var s' := SchedStep(s);
      && Refines(s, s', None) && Q.Inv(s'.pre)
      && (forall e :: 0 <= e < |s'.posts| ==> P.Inv(s'.posts[e]))
  {
    if !s.scheduling {
      SchedExit(s);
    } else if s.pending.Some? {
      var index := (s.index + 1) % |s.posts|;
      OfferStep(s, s, s.pending.value);
      P.ApplyInv(s.posts[index], P.CallPush(s.pending.value));
    } else {
      SchedCall(s);
      Q.ApplyInv(s.pre, Q.CallPop);
    }
  }

  lemma SchedReturnInv(s: Pipeline)
    requires Coupled(s) && Q.Inv(s.pre) && s.sched == SchedPc.Popping && s.pre.consumer.Popped?
    requires forall e :: 0 <= e < |s.posts| ==> P.Inv(s.posts[e])
    ensures Enabled(s, Sched)
    ensures var s' := SchedStep(s);
      && Refines(s, s', None) && Q.Inv(s'.pre)
      && (forall e :: 0 <= e < |s'.posts| ==> P.Inv(s'.posts[e]))
  {
    Q.ApplyInv(s.pre, Q.ReturnPop);
    match s.pre.consumer.result
    case None => SchedNothing(s);
    case Some(h) =>
      OfferStep(s, s.(pre := Q.Apply(s.pre, Q.ReturnPop)), h);
      P.ApplyInv(s.posts[(s.index + 1) % |s.posts|], P.CallPush(h));
  }

  lemma SchedOfferingInv(s: Pipeline)
    requires Coupled(s) && L.HandOk(View(s)) && s.sched.Offering? && Enabled(s, Sched)
    requires forall e :: 0 <= e < |s.posts| ==> P.Inv(s.posts[e])
    ensures var s' := SchedStep(s);
      && Refines(s, s', EventOf(s, Sched)) && s'.pre == s.pre
      && (forall e :: 0 <= e < |s'.posts| ==> P.Inv(s'.posts[e]))
  {
    if s.posts[s.index].producer.Pushed? {
      OfferReturn(s, s.posts[s.index].producer.ok);
      P.ApplyInv(s.posts[s.index], P.ReturnPush);
    } else {
      SchedProduceInv(s);
    }
  }

  // ----- every step -----

  lemma RegisteringReturnInv(s: Pipeline, t: nat)
    requires Coupled(s) && S.Inv(s.store) && Q.Inv(s.pre)
    requires t < |s.agent| && s.agent[t].Registering? && s.store.pc[t].RegDone?
    ensures Enabled(s, Agent(t, false))
    ensures var s' := RegisteringStep(s, t, false);
      Refines(s, s', None) && S.Inv(s'.store) && Q.Inv(s'.pre) && s'.posts == s.posts
  {
    assert Local(s, t);
    RegisteringReturn(s, t);
    NoChange(s.pre.producer, t);
    S.ApplyInv(s.store, S.Return(t));
    if s.store.pc[t].handle.Some? { Q.ApplyInv(s.pre, Q.CallPush(t, s.store.pc[t].handle.value)); }
  }

  lemma EnqueueingAcceptedInv(s: Pipeline, t: nat)
    requires Coupled(s) && Q.Inv(s.pre)
    requires t < |s.agent| && s.agent[t].Enqueueing? && s.pre.producer[t].Accepted?
    ensures Enabled(s, Agent(t, false))
    ensures var s' := EnqueueingStep(s, t, false);
      Refines(s, s', None) && s'.store == s.store && Q.Inv(s'.pre) && s'.posts == s.posts
  {
    assert Local(s, t);
    EnqueueingAccepted(s, t);
    NoChange(s.store.pc, t);
    Q.ApplyInv(s.pre, Q.ReturnPush(t));
  }

  lemma HeldIsIssued(s: Pipeline, t: nat)
    requires Coupled(s) && L.HeldOk(View(s)) && t < |s.agent| && Holding(s, t).Some?
    ensures Holding(s, t).value in s.store.issued
  {
    assert View(s).held[t] == Holding(s, t) && Holding(s, t).value in s.place.Keys;
  }

  lemma EnqueueingRejectedInv(s: Pipeline, t: nat)
    requires Coupled(s) && S.Inv(s.store) && Q.Inv(s.pre)
    requires t < |s.agent| && s.agent[t].Enqueueing? && s.pre.producer[t].Rejected?
    requires s.pre.producer[t].h in s.store.issued
    ensures Enabled(s, Agent(t, false))
    ensures var s' := EnqueueingStep(s, t, false);
      Refines(s, s', None) && S.Inv(s'.store) && Q.Inv(s'.pre) && s'.posts == s.posts
  {
    assert Local(s, t);
    var h := s.pre.producer[t].h;
    EnqueueingRejected(s, t, h);
    Q.ApplyInv(s.pre, Q.ReturnPush(t));
    S.ApplyInv(s.store, S.CallRemove(t, h));
  }

  lemma UndoingReturnInv(s: Pipeline, t: nat)
    requires Coupled(s) && S.Inv(s.store)
    requires t < |s.agent| && s.agent[t].Undoing? && s.store.pc[t].RemDone?
    ensures Enabled(s, Agent(t, false))
    ensures var s' := UndoingStep(s, t, false);
      Refines(s, s', None) && S.Inv(s'.store) && s'.pre == s.pre && s'.posts == s.posts
  {
    assert Local(s, t);
    UndoingReturn(s, t);
    NoChange(s.pre.producer, t);
    S.ApplyInv(s.store, S.Return(t));
  }

  lemma StartRedeemInv(s: Pipeline, e: nat)
    requires e < |s.posts|
    requires Coupled(s) && S.Inv(s.store) && P.Inv(s.posts[e]) && L.LanesOk(View(s))
    requires s.agent[e] == AgentPc.Popping && s.posts[e].consumer.Redeeming?
    ensures Enabled(s, Agent(e, false))
    ensures var s' := PoppingStep(s, e);
      Refines(s, s', None) && S.Inv(s'.store) && s'.pre == s.pre && s'.posts == s.posts
  {
    assert Local(s, e);
    var h := s.posts[e].consumer.h;
    StartRedeemStep(s, e, h);
    NoChange(s.pre.producer, e);
    assert L.LaneOk(View(s), e) && View(s).lanes[e] == LaneOf(s, e);
    assert h in s.place.Keys;
    S.ApplyInv(s.store, S.CallRemove(e, h));
  }

  lemma PoppingReturnInv(s: Pipeline, e: nat)
    requires Coupled(s) && e < |s.posts| && P.Inv(s.posts[e])
    requires s.agent[e] == AgentPc.Popping && s.posts[e].consumer.Popped?
    ensures Enabled(s, Agent(e, false))
    ensures var s' := PoppingStep(s, e);
      && Refines(s, s', None) && s'.store == s.store && s'.pre == s.pre
      && s'.posts == s.posts[e := s'.posts[e]] && P.Inv(s'.posts[e])
  {
    assert Local(s, e);
    PoppingReturn(s, e, s.posts[e].consumer.result);
    NoChange(s.pre.producer, e);
    NoChange(s.store.pc, e);
    P.ApplyInv(s.posts[e], P.ReturnPop);
  }

  lemma RedeemingReturnInv(s: Pipeline, e: nat)
    requires Coupled(s) && S.Inv(s.store) && e < |s.posts| && P.Inv(s.posts[e])
    requires s.agent[e].Redeeming? && s.store.pc[e].RemDone?
    ensures Enabled(s, Agent(e, false))
    ensures var s' := RedeemingStep(s, e, false);
      && Refines(s, s', None) && S.Inv(s'.store) && s'.pre == s.pre
      && s'.posts == s.posts[e := s'.posts[e]] && P.Inv(s'.posts[e])
  {
    assert Local(s, e);
    RedeemingReturn(s, e);
    NoChange(s.pre.producer, e);
    S.ApplyInv(s.store, S.Return(e));
    P.ApplyInv(s.posts[e], P.Redeemed(s.store.pc[e].result));
  }

  lemma StartPushInv(s: Pipeline, t: nat, a: Action)
    requires Coupled(s) && S.Inv(s.store) && t < |s.agent| && (s.agent[t].Checking? || s.agent[t].Deciding?)
    ensures S.Enabled(s.store, S.CallRegister(t, a))
    ensures var s' := StartPush(s, t, a);
      Refines(s, s', None) && S.Inv(s'.store) && s'.pre == s.pre && s'.posts == s.posts
  {
    assert Local(s, t);
    StartPushStep(s, t, a);
    NoChange(s.pre.producer, t);
    S.ApplyInv(s.store, S.CallRegister(t, a));
  }

  lemma ControlInv(s: Pipeline, t: nat, pc: AgentPc)
    requires Coupled(s) && t < |s.agent|
    requires match s.agent[t]
             case Outside => pc.Checking?
             case Checking(_) => pc == Outside
             case Testing => pc == Stopped
             case Deciding(_) => pc == AgentPc.Testing
             case _ => false
    ensures Refines(s, Goto(s, t, pc), None)
  {
    assert Local(s, t);
    ControlStep(s, t, pc);
    NoChange(s.pre.producer, t);
    NoChange(s.store.pc, t);
  }

  lemma StartPopInv(s: Pipeline, e: nat)
    requires Coupled(s) && e < |s.posts| && P.Inv(s.posts[e]) && s.agent[e] == AgentPc.Testing
    ensures P.Enabled(s.posts[e], P.CallPop)
    ensures var s' := Goto(PostApply(s, e, P.CallPop), e, AgentPc.Popping);
      Refines(s, s', None) && P.Inv(s'.posts[e])
  {
    assert Local(s, e);
    StartPopStep(s, e);
    NoChange(s.pre.producer, e);
    NoChange(s.store.pc, e);
    P.ApplyInv(s.posts[e], P.CallPop);
  }

  lemma PoppingInLane(s: Pipeline, e: nat)
    requires Coupled(s) && e < |s.posts| && P.Inv(s.posts[e])
    requires Enabled(s, Agent(e, false)) && s.agent[e] == AgentPc.Popping && !s.posts[e].consumer.Redeeming?
    ensures var s' := PoppingStep(s, e);
      && Refines(s, s', AgentEvent(s, e, false))
      && s'.store == s.store && s'.pre == s.pre
      && s'.posts == s.posts[e := s'.posts[e]] && P.Inv(s'.posts[e])
  {
    if s.posts[e].consumer.Popped? { PoppingReturnInv(s, e); }
    else { LaneStepInv(s, e); }
  }

  lemma PoppingInv(s: Pipeline, e: nat)
    requires Inv(s) && Enabled(s, Agent(e, false)) && s.agent[e] == AgentPc.Popping
    ensures var s' := PoppingStep(s, e);
      Refines(s, s', AgentEvent(s, e, false)) && ComponentsOk(s')
  {
    if s.posts[e].consumer.Redeeming? { StartRedeemInv(s, e); }
    else { PoppingInLane(s, e); }
  }

  lemma CheckingInv(s: Pipeline, t: nat)
    requires Inv(s) && Enabled(s, Agent(t, false)) && s.agent[t].Checking?
    ensures var s' := AgentStep(s, t, false); Refines(s, s', None) && ComponentsOk(s')
  {
    if s.open { StartPushInv(s, t, s.agent[t].a); } else { ControlInv(s, t, Outside); }
  }

  lemma TestingInv(s: Pipeline, t: nat)
    requires Inv(s) && Enabled(s, Agent(t, false)) && s.agent[t] == AgentPc.Testing
    ensures var s' := AgentStep(s, t, false); Refines(s, s', None) && ComponentsOk(s')
  {
    if s.running[t] { StartPopInv(s, t); } else { ControlInv(s, t, Stopped); }
  }

  lemma DecidingInv(s: Pipeline, t: nat)
    requires Inv(s) && Enabled(s, Agent(t, false)) && s.agent[t].Deciding?
    ensures var s' := AgentStep(s, t, false); Refines(s, s', None) && ComponentsOk(s')
  {
    var next := s.agent[t].next;
    if next.Some? && s.running[t] { StartPushInv(s, t, next.value); }
    else { ControlInv(s, t, AgentPc.Testing); }
  }

  lemma EnqueueingInv(s: Pipeline, t: nat, spurious: bool)
    requires Inv(s) && Enabled(s, Agent(t, spurious)) && s.agent[t].Enqueueing?
    ensures var s' := EnqueueingStep(s, t, spurious);
      Refines(s, s', AgentEvent(s, t, spurious)) && ComponentsOk(s')
  {
    hide S.Inv, P.Inv, S.LiveHandles;
    if s.pre.producer[t].Accepted? {
      EnqueueingAcceptedInv(s, t);
    } else if s.pre.producer[t].Rejected? {
      HeldIsIssued(s, t);
      EnqueueingRejectedInv(s, t);
    } else {
      assert Local(s, t);
      RingStepInv(s, t, spurious);
    }
  }

  lemma PushReturnInv(s: Pipeline, t: nat)
    requires Inv(s) && Enabled(s, Agent(t, false)) && !S.Internal(s.store.pc[t])
    requires s.agent[t].Registering? || s.agent[t].Undoing?
    ensures Inv(AgentStep(s, t, false)) && Follows(s, AgentStep(s, t, false), None)
  {
    assert Local(s, t);
    if s.agent[t].Registering? { RegisteringReturnInv(s, t); } else { UndoingReturnInv(s, t); }
    RefinesInv(s, AgentStep(s, t, false), None);
  }

  lemma LaneReplaced(s: Pipeline, s': Pipeline, e: nat)
    requires ComponentsOk(s) && S.Inv(s'.store) && s'.pre == s.pre
    requires e < |s.posts| == |s'.posts| && s'.posts == s.posts[e := s'.posts[e]] && P.Inv(s'.posts[e])
    ensures ComponentsOk(s')
  {
  }

  lemma BetweenCallsInv(s: Pipeline, t: nat)
    requires Inv(s) && Enabled(s, Agent(t, false))
    requires s.agent[t].Checking? || s.agent[t] == AgentPc.Testing || s.agent[t].Deciding? || s.agent[t].Running?
    ensures Refines(s, AgentStep(s, t, false), None) && ComponentsOk(AgentStep(s, t, false))
  {
    match s.agent[t]
    case Checking(_) => CheckingInv(s, t);
    case Testing => TestingInv(s, t);
    case Deciding(_) => DecidingInv(s, t);
    case Running(_) => RunStep(s, t);
  }

  lemma RedeemReturnInv(s: Pipeline, t: nat)
    requires Inv(s) && t < |s.posts| && s.agent[t].Redeeming? && s.store.pc[t].RemDone?
    ensures Enabled(s, Agent(t, false))
    ensures Inv(RedeemingStep(s, t, false)) && Follows(s, RedeemingStep(s, t, false), None)
  {
    RedeemingReturnInv(s, t);
    LaneReplaced(s, RedeemingStep(s, t, false), t);
    RefinesInv(s, RedeemingStep(s, t, false), None);
  }

  lemma InternalInv(s: Pipeline, t: nat, spurious: bool)
    requires Inv(s) && t < |s.agent| && InStore(s.agent[t]) && S.Internal(s.store.pc[t])
    requires S.Enabled(s.store, S.Internally(t, spurious))
    ensures Inv(StoreStep(s, t, spurious)) && Follows(s, StoreStep(s, t, spurious), AgentEvent(s, t, spurious))
  {
    StoreStepInv(s, t, spurious);
    RefinesInv(s, StoreStep(s, t, spurious), AgentEvent(s, t, spurious));
  }

  lemma InStoreInv(s: Pipeline, t: nat, spurious: bool)
    requires Inv(s) && Enabled(s, Agent(t, spurious)) && InStore(s.agent[t])
    ensures Inv(AgentStep(s, t, spurious)) && Follows(s, AgentStep(s, t, spurious), AgentEvent(s, t, spurious))
  {
    hide ComponentsOk, SchedulerOk, ExecutorOk, ExecutedOk, L.Inv, Follows;
    if S.Internal(s.store.pc[t]) {
      InternalInv(s, t, spurious);
    } else {
      assert AgentOk(s, t);
      if s.agent[t].Redeeming? {
        RedeemReturnInv(s, t);
      } else {
        PushReturnInv(s, t);
      }
    }
  }

  lemma InRingsInv(s: Pipeline, t: nat, spurious: bool)
    requires Inv(s) && Enabled(s, Agent(t, spurious))
    requires s.agent[t].Enqueueing? || s.agent[t] == AgentPc.Popping
    ensures Inv(AgentStep(s, t, spurious)) && Follows(s, AgentStep(s, t, spurious), AgentEvent(s, t, spurious))
  {
    if s.agent[t].Enqueueing? { EnqueueingInv(s, t, spurious); } else { PoppingInv(s, t); }
    RefinesInv(s, AgentStep(s, t, spurious), AgentEvent(s, t, spurious));
  }

  lemma SchedInRingInv(s: Pipeline)
    requires Inv(s) && Enabled(s, Sched) && s.sched == SchedPc.Popping
    ensures Refines(s, SchedStep(s), EventOf(s, Sched)) && ComponentsOk(SchedStep(s))
  {
    if s.pre.consumer.Popped? { SchedReturnInv(s); } else { SchedConsumeInv(s); }
  }

  lemma SchedInv(s: Pipeline)
    requires Inv(s) && Enabled(s, Sched)
    ensures Inv(SchedStep(s)) && Follows(s, SchedStep(s), EventOf(s, Sched))
  {
    match s.sched
    case Testing => SchedTestingInv(s); RefinesInv(s, SchedStep(s), None);
    case Popping => SchedInRingInv(s); RefinesInv(s, SchedStep(s), EventOf(s, Sched));
    case Offering => SchedOfferingInv(s); RefinesInv(s, SchedStep(s), EventOf(s, Sched));
  }

  lemma AgentStepInv(s: Pipeline, t: nat, spurious: bool)
    requires Inv(s) && Enabled(s, Agent(t, spurious))
    ensures Inv(AgentStep(s, t, spurious)) && Follows(s, AgentStep(s, t, spurious), AgentEvent(s, t, spurious))
  {
    if InStore(s.agent[t]) {
      InStoreInv(s, t, spurious);
    } else if s.agent[t].Enqueueing? || s.agent[t] == AgentPc.Popping {
      InRingsInv(s, t, spurious);
    } else {
      BetweenCallsInv(s, t);
      RefinesInv(s, AgentStep(s, t, spurious), None);
    }
  }

  /** The refinement: every atomic step of every thread keeps the invariant, and is one whole
      event of the ledger or invisible to it. */
  lemma StepRefines(s: Pipeline, l: Label)
    requires Inv(s) && Enabled(s, l)
    ensures Inv(Apply(s, l)) && Follows(s, Apply(s, l), EventOf(s, l))
  {
    match l
    case Agent(t, spurious) => AgentStepInv(s, t, spurious);
    case Sched => SchedInv(s);
    case Begin(t, a) =>
      ControlInv(s, t, Checking(a));
      RefinesInv(s, Apply(s, l), None);
    case SetOpen(_) => FlagStep(s, Apply(s, l));
    case SetScheduling(_) => FlagStep(s, Apply(s, l));
    case SetRunning(_, _) => FlagStep(s, Apply(s, l));
  }

  lemma FlagStep(s: Pipeline, s': Pipeline)
    requires Inv(s) && |s'.running| == |s.running|
    requires s' == s.(open := s'.open, scheduling := s'.scheduling, running := s'.running)
    ensures Inv(s') && Follows(s, s', None)
  {
    SchedQuiet(s, s');
    RefinesInv(s, s', None);
  }

  lemma {:induction false} RunInv(s: Pipeline, run: seq<Label>)
    requires Inv(s) && EnabledAll(s, run)
    ensures Inv(ApplyAll(s, run))
    decreases |run|
  {
    if run != [] {
      StepRefines(s, run[0]);
      RunInv(Apply(s, run[0]), run[1..]);
    }
  }

  lemma InitInv(c: Config)
    requires Sound(c)
    ensures Inv(Init(c))
  {
    var s := Init(c);
    S.InitInv(c.slots, c.executors + c.producers);
    Q.InitInv(c.ring, c.executors + c.producers);
    P.InitInv(c.queue);
    InitCoupled(c);
    assert S.LiveHandles(s.store) == {};
    forall e | 0 <= e < c.executors ensures L.LaneOk(View(s), e) {
      assert View(s).lanes[e] == LaneOf(s, e);
    }
    assert L.Inv(View(s));
  }

  lemma InitCoupled(c: Config)
    requires Sound(c)
    ensures Coupled(Init(c))
  {
  }
}
