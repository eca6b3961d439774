// How a step of an agent changes the work that is left: it lowers the total, or it brings the
// agent closer to its next event and disturbs no one.
module Advance {
  import opened Base
  import opened Handles
  import S = StorageMachine
  import Q = PreQueueMachine
  import P = PostQueueMachine
  import L = Ledger
  import opened PipelineMachine
  import opened PipelineInv
  import opened Work

  // ----- how a step of an agent changes the weights -----

  /** Everything the agents refer to by handle was issued. */
  ghost predicate Carried(s: Pipeline)
    requires Sizes(s)
  {
    forall t :: 0 <= t < |s.agent| ==>
      && (Holding(s, t).Some? ==> Holding(s, t).value in s.store.issued)
      && (S.ReturningPc(s.store.pc[t]) ==> s.store.pc[t].h in s.store.issued)
  }

  lemma InvCarried(s: Pipeline)
    requires Inv(s)
    ensures Carried(s)
  {
    forall t | 0 <= t < |s.agent|
      ensures Holding(s, t).Some? ==> Holding(s, t).value in s.store.issued
      ensures S.ReturningPc(s.store.pc[t]) ==> s.store.pc[t].h in s.store.issued
    {
      if Holding(s, t).Some? { HeldIsIssued(s, t); }
      assert S.ThreadOk(s.store, t);
    }
  }

  lemma OthersWork(s: Pipeline, s': Pipeline, t: nat)
    requires Sizes(s) && Carried(s) && t < |s.agent| && AgentFrame(s, s', t)
    ensures AgentsWork(s') == AgentsWork(s)[t := AgentWork(s', t)]
    ensures Sum(AgentsWork(s')) + AgentWork(s, t) == Sum(AgentsWork(s)) + AgentWork(s', t)
  {
    forall u | 0 <= u < |s.agent| && u != t ensures AgentWork(s', u) == AgentWork(s, u) {
      var h := Holding(s, u);
    }
    assert AgentsWork(s') == AgentsWork(s)[t := AgentWork(s', t)];
    SumUpdate(AgentsWork(s), t, AgentWork(s', t));
  }

  /** Where an agent stands on its way to the next event, if no one changes m_head or
      m_enqueue_pos in between. */
  function Fine(s: Pipeline, t: nat): nat
    requires Sizes(s) && t < |s.agent|
  {
    var inStore, inRing := s.store.pc[t], s.pre.producer[t];
    match s.agent[t]
    case Registering => if inStore.RegDone? then 6 else Fuel(s.store, inStore)
    case Enqueueing => RingFuel(s.pre, inRing)
    case Undoing => if inStore.RemDone? then 6 else Fuel(s.store, inStore)
    case Redeeming => if inStore.RemDone? then 5 else Fuel(s.store, inStore)
    case Testing => 4
    case Popping =>
      if t >= |s.posts| then 0
      else (match s.posts[t].consumer
            case TestActive => 3
            case ReadHandle => 2
            case Redeeming(_) => 1
            case ClearActive(_) => 4
            case CountDown(_) => 3
            case Popped(result) => if result.None? then 5 else 2
            case Idle => 0)
    case Running(_) => 1
    case Deciding(_) => 6
    case _ => 0
  }

  /** An executor with nothing in hand that is looking whether there is something to do. */
  predicate Polling(s: Pipeline, t: nat)
    requires Sizes(s) && t < |s.agent|
  {
    && t < |s.posts|
    && (s.agent[t] == AgentPc.Testing
        || (s.agent[t] == AgentPc.Popping
            && (s.posts[t].consumer.TestActive? || s.posts[t].consumer == P.Popped(None))))
  }

  predicate AtRest(s: Pipeline, t: nat)
    requires Sizes(s) && t < |s.agent|
  {
    s.agent[t].Outside? || s.agent[t].Stopped? || Polling(s, t)
  }

  predicate RingEmpty(s: Pipeline, e: nat)
    requires Sizes(s) && e < |s.posts|
  {
    P.Front(s.posts[e]) == |s.posts[e].pushed|
  }

  /** The step is sure to bring agent t closer to its next event: it does not just look into an
      empty ring. */
  predicate Productive(s: Pipeline, t: nat)
    requires Sizes(s) && t < |s.agent|
  {
    if Polling(s, t) then !RingEmpty(s, t) else !AtRest(s, t)
  }

  /** What every step of agent t leaves alone, for the draining argument. */
  ghost predicate Spares(s: Pipeline, s': Pipeline, t: nat)
    requires Sizes(s) && t < |s.agent|
  {
    && AgentFrame(s, s', t)
    && s'.running == s.running && s'.scheduling == s.scheduling
    && (s'.agent[t].Stopped? ==> t < |s.posts| && !s.running[t])
  }

  /** What the step of agent t does: the total weight falls, or nothing that others count on
      changes and, for a productive step, agent t comes closer to its next event. */
  ghost predicate Advances(s: Pipeline, s': Pipeline, t: nat, spurious: bool)
    requires Sizes(s) && t < |s.agent|
  {
    && Spares(s, s', t)
    && (|| TotalWork(s') < TotalWork(s)
        || (&& TotalWork(s') == TotalWork(s)
            && s'.store.head == s.store.head && s'.pre.enqueue == s.pre.enqueue
            && (!spurious && Productive(s, t) ==> Fine(s', t) < Fine(s, t))))
  }

  /** The share of the weight that a step of agent t can change. */
  function Share(s: Pipeline, t: nat): nat
    requires Sizes(s) && t < |s.agent|
  {
    AgentWork(s, t) + TotalQueueWork(View(s), s.store.issued)
  }

  lemma Lighter(s: Pipeline, s': Pipeline, t: nat, spurious: bool)
    requires Sizes(s) && Carried(s) && t < |s.agent| && Spares(s, s', t)
    requires Share(s', t) < Share(s, t)
    ensures Advances(s, s', t, spurious)
  {
    OthersWork(s, s', t);
  }

  lemma Closer(s: Pipeline, s': Pipeline, t: nat, spurious: bool)
    requires Sizes(s) && Carried(s) && t < |s.agent| && Spares(s, s', t)
    requires Share(s', t) == Share(s, t)
    requires s'.store.head == s.store.head && s'.pre.enqueue == s.pre.enqueue
    requires !spurious && Productive(s, t) ==> Fine(s', t) < Fine(s, t)
    ensures Advances(s, s', t, spurious)
  {
    OthersWork(s, s', t);
  }

  lemma SameQueue(s: Pipeline, s': Pipeline)
    requires Sizes(s) && Sizes(s')
    requires s'.place == s.place && s'.pre.claimed == s.pre.claimed && s'.store.issued == s.store.issued
    ensures TotalQueueWork(View(s'), s'.store.issued) == TotalQueueWork(View(s), s.store.issued)
  {
    assert QueueWork(View(s'), s'.store.issued) == QueueWork(View(s), s.store.issued);
  }

  // ----- inside the allocator -----

  /** A step inside the allocator that redeems nothing and issues nothing. */
  ghost predicate Plain(s: Pipeline, s': Pipeline, t: nat)
  {
    && StoreOnly(s, s', t, s.place) && Spares(s, s', t)
    && s'.store.issued == s.store.issued
  }

  lemma RegisterAdvances(s: Pipeline, s': Pipeline, t: nat, spurious: bool)
    requires Plain(s, s', t) && Carried(s) && s.agent[t].Registering?
    requires RegisterWork(s'.store, s'.store.pc[t]) < RegisterWork(s.store, s.store.pc[t])
      || (&& RegisterWork(s'.store, s'.store.pc[t]) == RegisterWork(s.store, s.store.pc[t])
          && s'.store.head == s.store.head
          && !s.store.pc[t].RegDone? && !s'.store.pc[t].RegDone?
          && (!spurious ==> Fuel(s'.store, s'.store.pc[t]) < Fuel(s.store, s.store.pc[t])))
    ensures Advances(s, s', t, spurious)
  {
    SameQueue(s, s');
    if RegisterWork(s'.store, s'.store.pc[t]) < RegisterWork(s.store, s.store.pc[t]) {
      Lighter(s, s', t, spurious);
    } else {
      Closer(s, s', t, spurious);
    }
  }

  lemma ReturnAdvances(s: Pipeline, s': Pipeline, t: nat, spurious: bool)
    requires Plain(s, s', t) && Carried(s)
    requires (s.agent[t].Undoing? || s.agent[t].Redeeming?) && S.ReturningPc(s.store.pc[t])
    requires s.store.pc[t].h in s.store.issued
    requires s'.store.pc[t] == S.RemDone(Some(Some(s.store.issued[s.store.pc[t].h])))
      || (&& S.ReturningPc(s'.store.pc[t]) && s'.store.pc[t].h == s.store.pc[t].h
          && s'.store.head == s.store.head
          && (!spurious ==> Fuel(s'.store, s'.store.pc[t]) < Fuel(s.store, s.store.pc[t])))
    ensures Advances(s, s', t, spurious)
  {
    SameQueue(s, s');
    if s'.store.pc[t].RemDone? { Lighter(s, s', t, spurious); } else { Closer(s, s', t, spurious); }
  }

  lemma IssueAdvances(s: Pipeline, s': Pipeline, t: nat, spurious: bool, h: Handle)
    requires StoreOnly(s, s', t, s.place[h := L.Held(t)]) && Spares(s, s', t) && Carried(s)
    requires L.ClaimsOk(View(s)) && h !in s.place
    requires s.agent[t].Registering? && s.store.pc[t].RegGen? && s'.store.pc[t] == S.RegDone(Some(h))
    requires s'.store.issued == s.store.issued[h := s.store.pc[t].a] && h !in s.store.issued
    ensures Advances(s, s', t, spurious)
  {
    assert h !in View(s).claimed;
    QueueUnmoved(View(s), s.store.issued, h, L.Held(t), s'.store.issued);
    assert QueueWork(View(s'), s'.store.issued) == QueueWork(L.Move(View(s), h, L.Held(t)), s'.store.issued);
    Lighter(s, s', t, spurious);
  }

  lemma CancelAdvances(s: Pipeline, s': Pipeline, t: nat, spurious: bool, h: Handle)
    requires StoreOnly(s, s', t, s.place[h := L.Redeemed]) && Spares(s, s', t) && Carried(s)
    requires L.Inv(View(s)) && s.place.Keys == s.store.issued.Keys
    requires s.agent[t].Undoing? && s.store.pc[t] == S.RemCas(h)
    requires s'.store.issued == s.store.issued && S.ReturningPc(s'.store.pc[t])
    requires L.Allowed(View(s), L.Cancel(t)) && View(s') == L.Do(View(s), L.Cancel(t))
    ensures Advances(s, s', t, spurious)
  {
    EventWork(View(s), L.Cancel(t), s.store.issued);
    assert h in s.store.issued by { assert Holding(s, t) == Some(h); }
    Lighter(s, s', t, spurious);
  }

  lemma RedeemAdvances(s: Pipeline, s': Pipeline, t: nat, spurious: bool, h: Handle)
    requires StoreOnly(s, s', t, s.place[h := L.Redeemed]) && Spares(s, s', t) && Carried(s)
    requires s.agent[t].Redeeming? && s.store.pc[t] == S.RemCas(h) && h in s.store.issued
    requires s'.store.issued == s.store.issued && s'.store.pc[t] == S.RemMove(h)
    requires TotalQueueWork(View(s'), s.store.issued) + WeighHandle(s.store.issued, h, 6)
      == TotalQueueWork(View(s), s.store.issued)
    ensures Advances(s, s', t, spurious)
  {
    Lighter(s, s', t, spurious);
  }

  lemma RedeemQueue(s: Pipeline, s': Pipeline, e: nat, h: Handle)
    requires Sizes(s) && Sizes(s') && e < |s.posts| && L.Inv(View(s)) && s.place.Keys == s.store.issued.Keys
    requires P.Front(s.posts[e]) < |s.posts[e].pushed| && s.posts[e].pushed[P.Front(s.posts[e])] == h
    requires L.Allowed(View(s), L.Redeem(e)) && View(s') == L.Do(View(s), L.Redeem(e))
    ensures TotalQueueWork(View(s'), s.store.issued) + WeighHandle(s.store.issued, h, 6)
      == TotalQueueWork(View(s), s.store.issued)
  {
    assert View(s).lanes[e] == LaneOf(s, e);
    EventWork(View(s), L.Redeem(e), s.store.issued);
  }

  lemma StoreSpares(s: Pipeline, t: nat, spurious: bool)
    requires Sizes(s) && S.Inv(s.store) && t < |s.agent| && InStore(s.agent[t])
    requires S.Enabled(s.store, S.Internally(t, spurious))
    requires s.store.pc[t].RemCas? ==> S.IsLive(s.store, s.store.pc[t].h)
    ensures Spares(s, StoreStep(s, t, spurious), t)
  {
    hide S.Apply, S.Inv, S.LiveHandles;
    StoreStepShape(s, t, spurious);
  }

  lemma StoreAdvances(s: Pipeline, t: nat, spurious: bool)
    requires Sizes(s) && S.Inv(s.store) && Carried(s) && t < |s.agent| && AgentOk(s, t) && InStore(s.agent[t])
    requires S.Internal(s.store.pc[t]) && !s.store.pc[t].RemCas? && !s.store.pc[t].RegGen?
    requires S.Enabled(s.store, S.Internally(t, spurious))
    ensures Advances(s, StoreStep(s, t, spurious), t, spurious)
  {
    var s' := StoreStep(s, t, spurious);
    StoreSpares(s, t, spurious);
    if S.Registering(s.store.pc[t]) {
      RegisterFuel(s.store, t, spurious);
      StoreStepShape(s, t, spurious);
      RegisterAdvances(s, s', t, spurious);
    } else {
      ReturnFuel(s.store, t, spurious);
      ReturnAdvances(s, s', t, spurious);
    }
  }

  lemma IssuingAdvances(s: Pipeline, t: nat, spurious: bool)
    requires Coupled(s) && S.Inv(s.store) && L.ClaimsOk(View(s)) && Carried(s)
    requires t < |s.agent| && s.agent[t].Registering? && s.store.pc[t].RegGen?
    requires S.Enabled(s.store, S.Internally(t, spurious))
    ensures Advances(s, StoreStep(s, t, spurious), t, spurious)
  {
    StoreSpares(s, t, spurious);
    StoreStepShape(s, t, spurious);
    var h := Handle(s.store.pc[t].index, s.store.generation[s.store.pc[t].index]);
    assert h !in s.place.Keys;
    IssueAdvances(s, StoreStep(s, t, spurious), t, spurious, h);
  }

  lemma CancellingAdvances(s: Pipeline, t: nat, spurious: bool)
    requires Coupled(s) && S.Inv(s.store) && L.Inv(View(s)) && Carried(s)
    requires t < |s.agent| && s.agent[t].Undoing? && s.store.pc[t].RemCas? && S.IsLive(s.store, s.store.pc[t].h)
    requires S.Enabled(s.store, S.Internally(t, spurious))
    ensures Advances(s, StoreStep(s, t, spurious), t, spurious)
  {
    var s' := StoreStep(s, t, spurious);
    StoreSpares(s, t, spurious);
    StoreStepShape(s, t, spurious);
    CancelStep(s, s', t, s.store.pc[t].h);
    CancelAdvances(s, s', t, spurious, s.store.pc[t].h);
  }

  lemma RedeemingAdvances(s: Pipeline, t: nat, spurious: bool)
    requires Coupled(s) && S.Inv(s.store) && L.Inv(View(s)) && Carried(s)
    requires t < |s.posts| && s.agent[t].Redeeming? && s.store.pc[t].RemCas? && S.IsLive(s.store, s.store.pc[t].h)
    requires S.Enabled(s.store, S.Internally(t, spurious))
    requires P.Front(s.posts[t]) < |s.posts[t].pushed|
      && s.posts[t].pushed[P.Front(s.posts[t])] == s.store.pc[t].h
    ensures Advances(s, StoreStep(s, t, spurious), t, spurious)
  {
    var s' := StoreStep(s, t, spurious);
    StoreSpares(s, t, spurious);
    StoreStepShape(s, t, spurious);
    RedeemStep(s, s', t, s.store.pc[t].h);
    RedeemQueue(s, s', t, s.store.pc[t].h);
    RedeemAdvances(s, s', t, spurious, s.store.pc[t].h);
  }

  // ----- between the calls -----

  lemma CountersAdvance(s: Pipeline, s': Pipeline, t: nat, pc: AgentPc, inStore: S.Pc, inRing: Q.PushPc)
    requires Sizes(s) && Carried(s) && t < |s.agent| && s' == Counters(s, t, pc, inStore, inRing)
    requires pc.Stopped? ==> t < |s.posts| && !s.running[t]
    requires AgentWork(s', t) < AgentWork(s, t)
      || (AgentWork(s', t) == AgentWork(s, t) && (Productive(s, t) ==> Fine(s', t) < Fine(s, t)))
    ensures Advances(s, s', t, false)
  {
    SameQueue(s, s');
    if AgentWork(s', t) < AgentWork(s, t) { Lighter(s, s', t, false); } else { Closer(s, s', t, false); }
  }

  lemma ConsumerAdvances(s: Pipeline, s': Pipeline, e: nat, pc: AgentPc, inStore: S.Pc, consumer: P.PopPc)
    requires Sizes(s) && Carried(s) && e < |s.posts| && !pc.Stopped?
    requires s' == Consuming(Counters(s, e, pc, inStore, s.pre.producer[e]), e, consumer)
    requires AgentWork(s', e) < AgentWork(s, e)
      || (AgentWork(s', e) == AgentWork(s, e) && (Productive(s, e) ==> Fine(s', e) < Fine(s, e)))
    ensures Advances(s, s', e, false)
  {
    SameQueue(s, s');
    if AgentWork(s', e) < AgentWork(s, e) { Lighter(s, s', e, false); } else { Closer(s, s', e, false); }
  }

  /** register_action returned: the handle is carried on, or the push gives up. */
  lemma RegisteringReturnAdvances(s: Pipeline, t: nat)
    requires Sizes(s) && Carried(s) && t < |s.agent| && AgentOk(s, t)
    requires s.agent[t].Registering? && s.store.pc[t].RegDone? && AgentEnabled(s, t, false)
    ensures Advances(s, RegisteringStep(s, t, false), t, false)
  {
    NoChange(s.pre.producer, t);
    match s.store.pc[t].handle
    case None => CountersAdvance(s, Counters(s, t, Home(s, t), S.Idle, Q.Away), t, Home(s, t), S.Idle, Q.Away);
    case Some(h) =>
      CountersAdvance(s, Counters(s, t, Enqueueing, S.Idle, Q.LoadPos(h)), t, Enqueueing, S.Idle, Q.LoadPos(h));
  }

  lemma EnqueueingReturnAdvances(s: Pipeline, t: nat)
    requires Sizes(s) && Carried(s) && t < |s.agent| && AgentOk(s, t)
    requires s.agent[t].Enqueueing? && !Q.ProducerBusy(s.pre.producer[t]) && AgentEnabled(s, t, false)
    ensures Advances(s, EnqueueingStep(s, t, false), t, false)
  {
    NoChange(s.store.pc, t);
    match s.pre.producer[t]
    case Rejected(h) =>
      CountersAdvance(s, Counters(s, t, Undoing, S.RemCas(h), Q.Away), t, Undoing, S.RemCas(h), Q.Away);
    case Accepted => CountersAdvance(s, Counters(s, t, Home(s, t), S.Idle, Q.Away), t, Home(s, t), S.Idle, Q.Away);
  }

  lemma UndoingReturnAdvances(s: Pipeline, t: nat)
    requires Sizes(s) && Carried(s) && t < |s.agent| && AgentOk(s, t)
    requires s.agent[t].Undoing? && s.store.pc[t].RemDone? && AgentEnabled(s, t, false)
    ensures Advances(s, UndoingStep(s, t, false), t, false)
  {
    NoChange(s.pre.producer, t);
    CountersAdvance(s, Counters(s, t, Home(s, t), S.Idle, Q.Away), t, Home(s, t), S.Idle, Q.Away);
  }

  lemma RedeemingReturnAdvances(s: Pipeline, e: nat)
    requires Sizes(s) && Carried(s) && e < |s.posts| && AgentOk(s, e) && ExecutorOk(s, e)
    requires s.agent[e].Redeeming? && s.store.pc[e].RemDone? && AgentEnabled(s, e, false)
    ensures Advances(s, RedeemingStep(s, e, false), e, false)
  {
    NoChange(s.pre.producer, e);
    var consumer := P.ClearActive(s.store.pc[e].result);
    ConsumerAdvances(s, Consuming(Counters(s, e, AgentPc.Popping, S.Idle, Q.Away), e, consumer),
                     e, AgentPc.Popping, S.Idle, consumer);
  }

  lemma StartPushAdvances(s: Pipeline, t: nat, a: Action)
    requires Sizes(s) && Carried(s) && t < |s.agent| && AgentOk(s, t) && S.Enabled(s.store, S.CallRegister(t, a))
    requires s.agent[t] == Checking(a) || s.agent[t] == Deciding(Some(a))
    ensures Advances(s, StartPush(s, t, a), t, false)
  {
    NoChange(s.pre.producer, t);
    CountersAdvance(s, Counters(s, t, Registering, S.RegLoad(a), Q.Away), t, Registering, S.RegLoad(a), Q.Away);
  }

  lemma ControlAdvances(s: Pipeline, t: nat, pc: AgentPc)
    requires Sizes(s) && Carried(s) && t < |s.agent| && AgentOk(s, t)
    requires match s.agent[t]
             case Checking(_) => pc == Outside
             case Testing => pc == Stopped && !s.running[t]
             case Deciding(next) => pc == AgentPc.Testing
             case _ => false
    ensures Advances(s, Goto(s, t, pc), t, false)
  {
    NoChange(s.pre.producer, t);
    NoChange(s.store.pc, t);
    CountersAdvance(s, Counters(s, t, pc, S.Idle, Q.Away), t, pc, S.Idle, Q.Away);
  }

  lemma StartPopAdvances(s: Pipeline, e: nat)
    requires Sizes(s) && Carried(s) && e < |s.posts| && AgentOk(s, e) && ExecutorOk(s, e)
    requires s.agent[e] == AgentPc.Testing && P.Enabled(s.posts[e], P.CallPop)
    ensures Advances(s, Goto(PostApply(s, e, P.CallPop), e, AgentPc.Popping), e, false)
  {
    NoChange(s.pre.producer, e);
    NoChange(s.store.pc, e);
    ConsumerAdvances(s, Consuming(Counters(s, e, AgentPc.Popping, S.Idle, Q.Away), e, P.TestActive),
                     e, AgentPc.Popping, S.Idle, P.TestActive);
  }

  lemma StartRedeemAdvances(s: Pipeline, e: nat)
    requires Sizes(s) && Carried(s) && e < |s.posts| && AgentOk(s, e)
    requires s.agent[e] == AgentPc.Popping && s.posts[e].consumer.Redeeming? && AgentEnabled(s, e, false)
    ensures Advances(s, PoppingStep(s, e), e, false)
  {
    NoChange(s.pre.producer, e);
    var h := s.posts[e].consumer.h;
    CountersAdvance(s, Counters(s, e, Redeeming, S.RemCas(h), Q.Away), e, Redeeming, S.RemCas(h), Q.Away);
  }

  lemma PoppingReturnAdvances(s: Pipeline, e: nat)
    requires Sizes(s) && Carried(s) && e < |s.posts| && AgentOk(s, e) && ExecutorOk(s, e)
    requires s.agent[e] == AgentPc.Popping && s.posts[e].consumer.Popped? && AgentEnabled(s, e, false)
    ensures Advances(s, PoppingStep(s, e), e, false)
  {
    NoChange(s.pre.producer, e);
    NoChange(s.store.pc, e);
    var result := s.posts[e].consumer.result;
    var pc := if result.None? then AgentPc.Testing else Running(result.value);
    ConsumerAdvances(s, Consuming(Counters(s, e, pc, S.Idle, Q.Away), e, P.PopPc.Idle),
                     e, pc, S.Idle, P.PopPc.Idle);
  }

  /** Running an action leaves at most its continuation, which is a shorter chain. */
  lemma RunningAdvances(s: Pipeline, e: nat)
    requires Sizes(s) && Carried(s) && e < |s.posts| && AgentOk(s, e) && ExecutorOk(s, e) && s.agent[e].Running?
    ensures Advances(s, RunningStep(s, e), e, false)
  {
    SameQueue(s, RunningStep(s, e));
    Lighter(s, RunningStep(s, e), e, false);
  }

  // ----- inside the rings -----

  lemma ClaimAdvances(s: Pipeline, s': Pipeline, t: nat, spurious: bool, h: Handle)
    requires RingOnly(s, s', t, s.place[h := L.Queued(|s.pre.claimed|)]) && Spares(s, s', t) && Carried(s)
    requires s.pre.producer[t].ClaimPos? && s.pre.producer[t].h == h && s'.pre.enqueue != s.pre.enqueue
    requires L.Inv(View(s)) && s.place.Keys == s.store.issued.Keys
    requires L.Allowed(View(s), L.Claim(t)) && View(s') == L.Do(View(s), L.Claim(t))
    ensures Advances(s, s', t, spurious)
  {
    assert Holding(s, t) == Some(h) && View(s).held[t] == Some(h);
    EventWork(View(s), L.Claim(t), s.store.issued);
    Lighter(s, s', t, spurious);
  }

  lemma RingQuietAdvances(s: Pipeline, s': Pipeline, t: nat, spurious: bool)
    requires RingOnly(s, s', t, s.place) && Spares(s, s', t) && Carried(s)
    requires s'.pre.enqueue == s.pre.enqueue
    requires !spurious ==> RingFuel(s'.pre, s'.pre.producer[t]) < RingFuel(s.pre, s.pre.producer[t])
    ensures Advances(s, s', t, spurious)
  {
    SameQueue(s, s');
    Closer(s, s', t, spurious);
  }

  lemma RingAdvances(s: Pipeline, t: nat, spurious: bool)
    requires Coupled(s) && Q.Inv(s.pre) && L.Inv(View(s)) && Carried(s) && t < |s.agent| && s.agent[t].Enqueueing?
    requires Q.Enabled(s.pre, Q.Produce(t, spurious))
    ensures Advances(s, RingStep(s, t, spurious), t, spurious)
  {
    var s' := RingStep(s, t, spurious);
    Q.ProduceEffect(s.pre, t, spurious);
    RingFuelFalls(s.pre, t, spurious);
    if s.pre.producer[t].ClaimPos? && s'.pre.enqueue != s.pre.enqueue {
      assert View(s).held[t] == Some(s.pre.producer[t].h);
      RingClaim(s, s', t, s.pre.producer[t].h);
      ClaimAdvances(s, s', t, spurious, s.pre.producer[t].h);
    } else {
      RingQuietAdvances(s, s', t, spurious);
    }
  }

  lemma LaneQuietAdvances(s: Pipeline, s': Pipeline, e: nat)
    requires LaneOnly(s, s', e) && ConsumerMoves(s.posts[e], s'.posts[e]) && Carried(s)
    requires s.posts[e].consumer.CountDown? ==> s.posts[e].consumer.result.Some?
    requires s'.posts[e].consumer == P.Popped(None) ==> RingEmpty(s, e)
    ensures Advances(s, s', e, false)
  {
    SameQueue(s, s');
    Closer(s, s', e, false);
  }

  lemma LaneAdvances(s: Pipeline, e: nat)
    requires Sizes(s) && Carried(s) && e < |s.posts| && s.agent[e] == AgentPc.Popping && P.Inv(s.posts[e])
    requires ExecutorOk(s, e) && P.Enabled(s.posts[e], P.Consume)
    ensures Advances(s, PostApply(s, e, P.Consume), e, false)
  {
    P.ConsumeEffect(s.posts[e]);
    P.FlagTells(s.posts[e]);
    LaneQuietAdvances(s, PostApply(s, e, P.Consume), e);
  }
}
