// What draining amounts to: every slot is free again and every accepted action was executed;
// and however the threads are scheduled, the work that is left never grows.
module DrainResults {
  import opened Base
  import opened Handles
  import S = StorageMachine
  import Q = PreQueueMachine
  import P = PostQueueMachine
  import L = Ledger
  import R = StorageResults
  import opened PipelineMachine
  import opened PipelineInv
  import opened PipelineResults
  import opened Work
  import opened Advance
  import opened Drain

  /** The p-th accepted action was executed, by executor e as its j-th. */
  ghost predicate ExecutedAs(s: Pipeline, p: nat, e: nat, j: nat)
    requires p < |s.pre.claimed|
  {
    && e < |s.executed| && j < |s.executed[e]|
    && s.pre.claimed[p] in s.store.issued
    && s.executed[e][j] == s.store.issued[s.pre.claimed[p]]
  }

  ghost predicate WasExecuted(s: Pipeline, p: nat)
  {
    p < |s.pre.claimed| && p < |s.dispatched| && exists j :: ExecutedAs(s, p, s.dispatched[p], j)
  }

  lemma DrainedExecuted(s: Pipeline, p: nat)
    requires Inv(s) && Drained(s) && p < |s.pre.claimed|
    ensures |s.dispatched| == |s.pre.claimed| && WasExecuted(s, p)
  {
    hide S.Inv, Q.Inv, P.Inv, S.LiveHandles;
    assert L.OrderOk(View(s));
    var e := s.dispatched[p];
    assert View(s).lanes[e] == LaneOf(s, e);
    EveryPositionListed(s.dispatched, p);
    var j :| 0 <= j < |Positions(s.dispatched, e)| && Positions(s.dispatched, e)[j] == p;
    SelectByPositions(s.pre.claimed, s.dispatched, e);
    assert Local(s, e) && AtRest(s, e) && RingEmpty(s, e);
    assert ExecutedAs(s, p, e, j);
  }

  lemma NothingLive(s: Pipeline)
    requires Sizes(s) && L.Inv(View(s)) && Drained(s) && Coupled(s)
    ensures S.LiveHandles(s.store) == {}
  {
    var v := View(s);
    forall t | 0 <= t < |v.held| ensures v.held[t] == None { assert AtRest(s, t); }
    forall e | 0 <= e < |v.lanes| ensures v.lanes[e].front == |v.lanes[e].pushed| { assert RingEmpty(s, e); }
    forall h ensures h !in S.LiveHandles(s.store) {
      assert v.live == S.LiveHandles(s.store);
    }
  }

  lemma DrainedFree(s: Pipeline, i: nat)
    requires Inv(s) && Drained(s) && i < |s.store.next|
    ensures s.store.place[i] == S.Free
  {
    NothingLive(s);
    IdleAway(s);
    var h := Handle(i, s.store.generation[i]);
    assert h !in S.LiveHandles(s.store);
  }

  /** The pipeline is empty: the free list holds every slot again, and every action that was
      ever accepted was executed. */
  ghost predicate Empty(s: Pipeline)
  {
    && S.Sizes(s.store)
    && (forall i :: 0 <= i < |s.store.next| ==> i in R.Walk(s.store.next, s.store.head.index, |s.store.next|))
    && (forall p :: 0 <= p < |s.pre.claimed| ==> WasExecuted(s, p))
  }

  lemma DrainedIsEmpty(s: Pipeline)
    requires Inv(s) && Drained(s)
    ensures Empty(s)
  {
    R.WalkIsFree(s.store);
    forall i | 0 <= i < |s.store.next| ensures i in R.Walk(s.store.next, s.store.head.index, |s.store.next|) {
      DrainedFree(s, i);
    }
    forall p | 0 <= p < |s.pre.claimed| ensures WasExecuted(s, p) {
      DrainedExecuted(s, p);
    }
  }

  /** From every reachable state with active threads, however full, there is a run of the
      threads alone after which the pipeline is empty. */
  lemma Drains(s: Pipeline) returns (run: seq<Label>)
    requires Reachable(s) && Sizes(s) && Active(s)
    ensures ThreadSteps(run) && EnabledAll(s, run) && Empty(ApplyAll(s, run))
  {
    ReachableInv(s);
    run := RunsEmpty(s);
    DrainedIsEmpty(ApplyAll(s, run));
  }

  // ----- any schedule -----

  /** A successful compare-exchange on m_head or m_enqueue_pos, or a handle moved on by the
      scheduler. */
  predicate Counted(s: Pipeline, l: Label)
    requires Enabled(s, l)
  {
    var s' := Apply(s, l);
    s'.store.head != s.store.head || s'.pre.enqueue != s.pre.enqueue || (l.Sched? && EventOf(s, l).Some?)
  }

  lemma FlagsKeepWork(s: Pipeline, s': Pipeline)
    requires Inv(s) && Inv(s') && View(s') == View(s)
    requires s' == s.(open := s'.open, scheduling := s'.scheduling, running := s'.running)
    ensures TotalWork(s') == TotalWork(s)
  {
    assert AgentsWork(s') == AgentsWork(s);
  }

  /** No step but a new call of push adds work, and a counted step takes some away. */
  lemma WorkNeverGrows(s: Pipeline, l: Label)
    requires Inv(s) && Enabled(s, l) && !l.Begin?
    ensures Inv(Apply(s, l)) && TotalWork(Apply(s, l)) + Count(Counted(s, l)) <= TotalWork(s)
  {
    StepRefines(s, l);
    match l
    case Agent(t, spurious) => AgentAdvances(s, t, spurious);
    case Sched => SchedLighter(s); SchedLeavesAlone(s);
    case SetOpen(_) => FlagsKeepWork(s, Apply(s, l));
    case SetScheduling(_) => FlagsKeepWork(s, Apply(s, l));
    case SetRunning(_, _) => FlagsKeepWork(s, Apply(s, l));
  }

  function CountedSteps(s: Pipeline, run: seq<Label>): nat
    requires EnabledAll(s, run)
    decreases |run|
  {
    if run == [] then 0 else Count(Counted(s, run[0])) + CountedSteps(Apply(s, run[0]), run[1..])
  }

  /** No livelock: once no one calls push from outside, the counted steps of any schedule,
      however long and unfair, are bounded by the work in the pipeline. */
  lemma {:induction false} CountedStepsAreBounded(s: Pipeline, run: seq<Label>)
    requires Inv(s) && EnabledAll(s, run)
    requires forall i :: 0 <= i < |run| ==> !run[i].Begin?
    ensures Sizes(ApplyAll(s, run)) && TotalWork(ApplyAll(s, run)) + CountedSteps(s, run) <= TotalWork(s)
    decreases |run|
  {
    if run != [] {
      WorkNeverGrows(s, run[0]);
      CountedStepsAreBounded(Apply(s, run[0]), run[1..]);
    }
  }
}
