// No deadlock, and draining: while the threads are active there is always a step that brings
// some action closer to its end, and the pipeline can be run empty.
module Drain {
  import opened Base
  import S = StorageMachine
  import Q = PreQueueMachine
  import P = PostQueueMachine
  import L = Ledger
  import opened PipelineMachine
  import opened PipelineInv
  import opened Work
  import opened Advance
  import opened RingSlots

  // ----- agents -----

  lemma InternalAdvances(s: Pipeline, t: nat, spurious: bool)
    requires Inv(s) && t < |s.agent| && InStore(s.agent[t]) && S.Internal(s.store.pc[t])
    requires S.Enabled(s.store, S.Internally(t, spurious))
    ensures Advances(s, StoreStep(s, t, spurious), t, spurious)
  {
    InvCarried(s);
    assert Local(s, t);
    if s.store.pc[t].RemCas? {
      RedeemableIsLive(s, t);
      if s.agent[t].Undoing? { CancellingAdvances(s, t, spurious); } else { RedeemingAdvances(s, t, spurious); }
    } else if s.store.pc[t].RegGen? {
      IssuingAdvances(s, t, spurious);
    } else {
      StoreAdvances(s, t, spurious);
    }
  }

  lemma StoreReturnAdvances(s: Pipeline, t: nat)
    requires Inv(s) && Enabled(s, Agent(t, false)) && InStore(s.agent[t]) && !S.Internal(s.store.pc[t])
    ensures Advances(s, AgentStep(s, t, false), t, false)
  {
    hide Advances, Carried, S.Inv, Q.Inv, L.Inv;
    InvCarried(s);
    assert Local(s, t);
    match s.agent[t]
    case Registering => RegisteringReturnAdvances(s, t);
    case Undoing => UndoingReturnAdvances(s, t);
    case Redeeming => RedeemingReturnAdvances(s, t);
  }

  lemma EnqueueingAdvances(s: Pipeline, t: nat, spurious: bool)
    requires Inv(s) && Enabled(s, Agent(t, spurious)) && s.agent[t].Enqueueing?
    ensures Advances(s, EnqueueingStep(s, t, spurious), t, spurious)
  {
    InvCarried(s);
    assert Local(s, t);
    if Q.ProducerBusy(s.pre.producer[t]) { RingAdvances(s, t, spurious); }
    else { EnqueueingReturnAdvances(s, t); }
  }

  lemma PoppingAdvances(s: Pipeline, e: nat)
    requires Inv(s) && Enabled(s, Agent(e, false)) && s.agent[e] == AgentPc.Popping
    ensures Advances(s, PoppingStep(s, e), e, false)
  {
    InvCarried(s);
    assert Local(s, e);
    if s.posts[e].consumer.Redeeming? { StartRedeemAdvances(s, e); }
    else if s.posts[e].consumer.Popped? { PoppingReturnAdvances(s, e); }
    else { LaneAdvances(s, e); }
  }

  lemma BetweenCallsAdvances(s: Pipeline, t: nat)
    requires Inv(s) && Enabled(s, Agent(t, false))
    requires s.agent[t].Checking? || s.agent[t] == AgentPc.Testing || s.agent[t].Deciding? || s.agent[t].Running?
    ensures Advances(s, AgentStep(s, t, false), t, false)
  {
    InvCarried(s);
    assert Local(s, t);
    match s.agent[t]
    case Checking(a) => if s.open { StartPushAdvances(s, t, a); } else { ControlAdvances(s, t, Outside); }
    case Testing => if s.running[t] { StartPopAdvances(s, t); } else { ControlAdvances(s, t, Stopped); }
    case Deciding(next) =>
      if next.Some? && s.running[t] { StartPushAdvances(s, t, next.value); }
      else { ControlAdvances(s, t, AgentPc.Testing); }
    case Running(_) => RunningAdvances(s, t);
  }

  lemma AgentAdvances(s: Pipeline, t: nat, spurious: bool)
    requires Inv(s) && Enabled(s, Agent(t, spurious))
    ensures Advances(s, AgentStep(s, t, spurious), t, spurious)
  {
    if InStore(s.agent[t]) {
      if S.Internal(s.store.pc[t]) { InternalAdvances(s, t, spurious); } else { StoreReturnAdvances(s, t); }
    } else if s.agent[t].Enqueueing? {
      EnqueueingAdvances(s, t, spurious);
    } else if s.agent[t] == AgentPc.Popping {
      PoppingAdvances(s, t);
    } else {
      BetweenCallsAdvances(s, t);
    }
  }

  /** No agent is ever stuck: outside a call it may start one, and inside it can go on. */
  lemma StoreReady(s: Pipeline, t: nat)
    requires Inv(s) && t < |s.agent| && InStore(s.agent[t])
    ensures Enabled(s, Agent(t, false))
  {
    assert Local(s, t);
    assert S.ThreadOk(s.store, t);
    if !S.Internal(s.store.pc[t]) {
      match s.agent[t]
      case Registering => RegisteringReturnInv(s, t);
      case Undoing => UndoingReturnInv(s, t);
      case Redeeming => RedeemingReturnInv(s, t);
    }
  }

  lemma EnqueueingReady(s: Pipeline, t: nat)
    requires Inv(s) && t < |s.agent| && s.agent[t].Enqueueing?
    ensures Enabled(s, Agent(t, false))
  {
    assert Local(s, t);
    match s.pre.producer[t]
    case Accepted => EnqueueingAcceptedInv(s, t);
    case Rejected(h) => HeldIsIssued(s, t); EnqueueingRejectedInv(s, t);
    case _ =>
  }

  lemma PoppingReady(s: Pipeline, e: nat)
    requires Inv(s) && e < |s.agent| && s.agent[e] == AgentPc.Popping
    ensures Enabled(s, Agent(e, false))
  {
    assert Local(s, e);
    match s.posts[e].consumer
    case Redeeming(_) => StartRedeemInv(s, e);
    case Popped(_) => PoppingReturnInv(s, e);
    case _ =>
  }

  lemma AgentReady(s: Pipeline, t: nat)
    requires Inv(s) && t < |s.agent| && !s.agent[t].Outside? && !s.agent[t].Stopped?
    ensures Enabled(s, Agent(t, false))
  {
    assert Local(s, t);
    if InStore(s.agent[t]) { StoreReady(s, t); }
    else if s.agent[t].Enqueueing? { EnqueueingReady(s, t); }
    else if s.agent[t] == AgentPc.Popping { PoppingReady(s, t); }
  }

  // ----- the scheduler -----

  lemma SchedReady(s: Pipeline)
    requires Inv(s) && !s.sched.Exited?
    ensures Enabled(s, Sched)
  {
  }

  /** What a step of the scheduler leaves alone. */
  predicate SchedSpares(s: Pipeline, s': Pipeline)
  {
    && s'.store == s.store && s'.agent == s.agent && s'.running == s.running && s'.scheduling == s.scheduling
    && s'.executed == s.executed
    && s'.pre.producer == s.pre.producer && s'.pre.enqueue == s.pre.enqueue
    && |s'.posts| == |s.posts|
    && (forall e :: 0 <= e < |s.posts| ==>
          s'.posts[e].consumer == s.posts[e].consumer && P.Front(s'.posts[e]) == P.Front(s.posts[e]))
    && (s'.sched.Exited? ==> !s.scheduling)
  }

  lemma PoppingLeavesAlone(s: Pipeline)
    requires Sizes(s) && Enabled(s, Sched) && s.sched == SchedPc.Popping
    ensures SchedSpares(s, SchedPoppingStep(s))
  {
  }

  lemma OfferingLeavesAlone(s: Pipeline)
    requires Sizes(s) && Enabled(s, Sched) && s.sched.Offering?
    ensures SchedSpares(s, OfferingStep(s))
  {
  }

  lemma SchedLeavesAlone(s: Pipeline)
    requires Sizes(s) && Enabled(s, Sched)
    ensures SchedSpares(s, SchedStep(s))
  {
    match s.sched
    case Testing =>
    case Popping => PoppingLeavesAlone(s);
    case Offering => OfferingLeavesAlone(s);
  }

  lemma SchedLighter(s: Pipeline)
    requires Inv(s) && Enabled(s, Sched)
    ensures Sizes(SchedStep(s))
    ensures if EventOf(s, Sched).Some? then TotalWork(SchedStep(s)) < TotalWork(s)
            else TotalWork(SchedStep(s)) == TotalWork(s)
  {
    hide S.Inv, Q.Inv, AgentsOk, SchedulerOk, SchedStep, L.Do, L.Allowed, QueueWork;
    var s' := SchedStep(s);
    StepRefines(s, Sched);
    SchedLeavesAlone(s);
    assert AgentsWork(s') == AgentsWork(s);
    if EventOf(s, Sched).Some? { EventWork(View(s), EventOf(s, Sched).value, s.store.issued); }
  }

  /** Nothing to do but for the scheduler. */
  ghost predicate AgentsIdle(s: Pipeline)
    requires Sizes(s)
  {
    && (forall t :: 0 <= t < |s.agent| ==> AtRest(s, t))
    && (forall e :: 0 <= e < |s.posts| ==> RingEmpty(s, e))
  }

  /** The scheduler has something to place, or to take. */
  predicate Waiting(s: Pipeline)
    requires Sizes(s)
  {
    InHand(s).Some? || Q.Front(s.pre) < |s.pre.claimed|
  }

  /** Where the scheduler stands on its way to the next event. */
  function SchedFine(s: Pipeline): nat
    requires Sizes(s)
  {
    match s.sched
    case Testing => 4
    case Popping =>
      (match s.pre.consumer
       case TestSeq => 3
       case ReadHandle(_) => 2
       case FreeSlot(_, _) => 1
       case Advance(_, _) => 6
       case Popped(_) => 5
       case Resting => 0)
    case Offering =>
      (match s.posts[s.index].producer
       case TestFree(_) => 3
       case WriteHandle(_) => 2
       case SetActive(_) => 1
       case CountUp => 6
       case Pushed(_) => 5
       case Idle => 0)
    case Exited => 0
  }

  /** With no producer between its claim and its announcement, the front is announced. */
  lemma FrontAnnounced(s: Pipeline)
    requires Sizes(s) && Q.Inv(s.pre) && Q.Front(s.pre) < |s.pre.claimed| && !s.pre.consumer.Advance?
    requires forall t :: 0 <= t < |s.agent| ==> s.pre.producer[t].Away?
    ensures s.pre.sequence[Slot(s.pre.dequeue, |s.pre.sequence|)] == s.pre.dequeue + 1
  {
    assert Q.MarkOk(s.pre, s.pre.dequeue);
  }

  lemma IdleAway(s: Pipeline)
    requires Coupled(s) && AgentsIdle(s)
    ensures forall t :: 0 <= t < |s.agent| ==> s.pre.producer[t].Away? && s.store.pc[t].Idle?
  {
    forall t | 0 <= t < |s.agent| ensures s.pre.producer[t].Away? && s.store.pc[t].Idle? {
      assert AtRest(s, t) && AgentOk(s, t);
    }
  }

  lemma OfferingFine(s: Pipeline)
    requires Sizes(s) && Enabled(s, Sched) && s.sched.Offering? && EventOf(s, Sched).None?
    requires P.Inv(s.posts[s.index]) && RingEmpty(s, s.index)
    ensures Sizes(SchedStep(s)) && SchedFine(SchedStep(s)) < SchedFine(s)
  {
    P.FlagTells(s.posts[s.index]);
  }

  lemma PoppingFine(s: Pipeline)
    requires Coupled(s) && Q.Inv(s.pre) && AgentsIdle(s) && Waiting(s)
    requires Enabled(s, Sched) && s.sched == SchedPc.Popping && EventOf(s, Sched).None?
    ensures Sizes(SchedStep(s)) && SchedFine(SchedStep(s)) < SchedFine(s)
  {
    if s.pre.consumer.TestSeq? {
      IdleAway(s);
      FrontAnnounced(s);
    }
  }

  lemma SchedCloser(s: Pipeline)
    requires Inv(s) && AgentsIdle(s) && Waiting(s) && s.scheduling
    requires Enabled(s, Sched) && EventOf(s, Sched).None?
    ensures Sizes(SchedStep(s)) && SchedFine(SchedStep(s)) < SchedFine(s)
  {
    hide S.Inv, L.Inv, AgentsOk;
    match s.sched
    case Testing =>
    case Popping => PoppingFine(s);
    case Offering => OfferingFine(s);
  }

  // ----- no deadlock -----

  /** The threads are kept running: the flags of the loops are up and no thread has left. */
  ghost predicate Active(s: Pipeline)
    requires Sizes(s)
  {
    && s.scheduling && !s.sched.Exited?
    && (forall e :: 0 <= e < |s.posts| ==> s.running[e] && !s.agent[e].Stopped?)
  }

  ghost predicate Drained(s: Pipeline)
    requires Sizes(s)
  {
    AgentsIdle(s) && !Waiting(s)
  }

  function Fines(s: Pipeline): seq<nat>
    requires Sizes(s)
  {
    seq(|s.agent|, t requires 0 <= t < |s.agent| => Fine(s, t))
  }

  function TotalFine(s: Pipeline): nat
    requires Sizes(s)
  {
    Sum(Fines(s)) + SchedFine(s)
  }

  /** Closer to the end: less work, or as much work and closer to the next event. */
  ghost predicate Progresses(s: Pipeline, s': Pipeline)
    requires Sizes(s)
  {
    && Sizes(s')
    && (TotalWork(s') < TotalWork(s) || (TotalWork(s') == TotalWork(s) && TotalFine(s') < TotalFine(s)))
  }

  lemma FinerByAgent(s: Pipeline, s': Pipeline, t: nat)
    requires Sizes(s) && t < |s.agent| && AgentFrame(s, s', t)
    requires s'.store.head == s.store.head && s'.pre.enqueue == s.pre.enqueue && Fine(s', t) < Fine(s, t)
    ensures TotalFine(s') < TotalFine(s)
  {
    forall u | 0 <= u < |s.agent| && u != t ensures Fine(s', u) == Fine(s, u) {}
    assert Fines(s') == Fines(s)[t := Fine(s', t)];
    SumUpdate(Fines(s), t, Fine(s', t));
  }

  lemma AgentProgress(s: Pipeline, t: nat)
    requires Inv(s) && Active(s) && t < |s.agent| && Productive(s, t)
    ensures Enabled(s, Agent(t, false)) && Inv(Apply(s, Agent(t, false)))
    ensures Active(Apply(s, Agent(t, false))) && Progresses(s, Apply(s, Agent(t, false)))
  {
    hide Inv, TotalWork, TotalFine, EventOf, Fine;
    AgentReady(s, t);
    AgentAdvances(s, t, false);
    StepRefines(s, Agent(t, false));
    var s' := Apply(s, Agent(t, false));
    if TotalWork(s') == TotalWork(s) { FinerByAgent(s, s', t); }
  }

  lemma FinerBySched(s: Pipeline, s': Pipeline)
    requires Sizes(s) && Sizes(s') && SchedSpares(s, s') && SchedFine(s') < SchedFine(s)
    ensures TotalFine(s') < TotalFine(s)
  {
    assert Fines(s') == Fines(s);
  }

  lemma SchedProgress(s: Pipeline)
    requires Inv(s) && Enabled(s, Sched) && AgentsIdle(s) && Waiting(s) && s.scheduling
    ensures Progresses(s, SchedStep(s))
  {
    SchedLighter(s);
    if EventOf(s, Sched).None? {
      SchedLeavesAlone(s);
      SchedCloser(s);
      FinerBySched(s, SchedStep(s));
    }
  }

  lemma SchedStaysActive(s: Pipeline)
    requires Inv(s) && Active(s)
    ensures Enabled(s, Sched) && Inv(SchedStep(s)) && Active(SchedStep(s))
  {
    SchedReady(s);
    StepRefines(s, Sched);
    SchedLeavesAlone(s);
  }

  /** A step of a thread, as against a flag flipping or a producer deciding to push. */
  predicate ThreadStep(l: Label)
  {
    l.Agent? || l.Sched?
  }

  ghost predicate Lively(s: Pipeline)
  {
    Inv(s) && Active(s)
  }

  lemma NothingProductive(s: Pipeline)
    requires Coupled(s) && Active(s) && forall t :: 0 <= t < |s.agent| ==> !Productive(s, t)
    ensures AgentsIdle(s)
  {
    forall t | 0 <= t < |s.agent| ensures AtRest(s, t) { assert !Productive(s, t); }
    forall e | 0 <= e < |s.posts| ensures RingEmpty(s, e) { assert !Productive(s, e) && AgentOk(s, e); }
  }

  /** No deadlock: as long as the threads are active and something is left to do, some thread
      can take a step that brings an action closer to its end. */
  lemma NoDeadlock(s: Pipeline) returns (l: Label)
    requires Inv(s) && Active(s) && !Drained(s)
    ensures ThreadStep(l) && Enabled(s, l)
    ensures Lively(Apply(s, l)) && Progresses(s, Apply(s, l))
  {
    if t: nat :| t < |s.agent| && Productive(s, t) {
      l := Agent(t, false);
      AgentProgress(s, t);
    } else {
      NothingProductive(s);
      l := Sched;
      SchedStaysActive(s);
      SchedProgress(s);
    }
  }

  predicate ThreadSteps(run: seq<Label>)
  {
    forall i :: 0 <= i < |run| ==> ThreadStep(run[i])
  }

  /** Draining: from every state with active threads, whatever is in flight, the threads alone
      can run the pipeline empty. */
  lemma {:induction false} RunsEmpty(s: Pipeline) returns (run: seq<Label>)
    requires Inv(s) && Active(s)
    ensures ThreadSteps(run) && EnabledAll(s, run)
    ensures Inv(ApplyAll(s, run)) && Drained(ApplyAll(s, run))
    decreases TotalWork(s), TotalFine(s)
  {
    hide AgentsOk, SchedulerOk, ComponentsOk, L.Inv, Drained, TotalWork, TotalFine;
    if Drained(s) {
      run := [];
    } else {
      var l := NoDeadlock(s);
      var rest := RunsEmpty(Apply(s, l));
      run := [l] + rest;
      assert run[1..] == rest && run[0] == l;
    }
  }
}
