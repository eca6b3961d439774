// The flags are obeyed: once the flag of a thread is down and stays down, an executor runs at most
// the one action that it has begun to take, and the scheduler places at most one more handle.
module Shutdown {
  import opened Base
  import L = Ledger
  import S = StorageMachine
  import Q = PreQueueMachine
  import P = PostQueueMachine
  import opened PipelineMachine
  import opened PipelineInv
  import opened Drain
  import opened Schedules

  // ----- executors -----

  /** May the executor still run an action without looking at its flag again? */
  function Pending(s: Pipeline, e: nat): nat
    requires Sizes(s) && e < |s.posts|
  {
    match s.agent[e]
    case Popping => Count(s.posts[e].consumer != P.Popped(None))
    case Redeeming => 1
    case Running(_) => 1
    case _ => 0
  }

  function RunAndPending(s: Pipeline, e: nat): nat
    requires Sizes(s) && e < |s.posts|
  {
    |s.executed[e]| + Pending(s, e)
  }

  lemma OwnStepObeys(s: Pipeline, e: nat, spurious: bool)
    requires Inv(s) && Enabled(s, Agent(e, spurious)) && e < |s.posts| && !s.running[e]
    ensures var s' := AgentStep(s, e, spurious);
      Sizes(s') && |s'.posts| == |s.posts| && s'.running == s.running && RunAndPending(s', e) <= RunAndPending(s, e)
  {
    hide S.Inv, Q.Inv, L.Inv;
    InvLocal(s, e);
    AgentAdvances(s, e, spurious);
    StepShown(s, e, spurious);
  }

  /** Only its own counters, its ring's consumer and its record can tell. */
  predicate Shows(s: Pipeline, s': Pipeline, e: nat)
    requires Sizes(s) && e < |s.posts|
  {
    Sizes(s') && |s'.posts| == |s.posts| ==> RunAndPending(s', e) <= RunAndPending(s, e)
  }

  lemma StepShown(s: Pipeline, e: nat, spurious: bool)
    requires Enabled(s, Agent(e, spurious)) && e < |s.posts| && !s.running[e] && Local(s, e)
    ensures Shows(s, AgentStep(s, e, spurious), e)
  {
    match s.agent[e]
    case Popping => PoppingShown(s, e);
    case Registering => RegisteringShown(s, e, spurious);
    case Enqueueing => EnqueueingShown(s, e, spurious);
    case Undoing => UndoingShown(s, e, spurious);
    case Redeeming => RedeemingShown(s, e, spurious);
    case _ =>
  }

  lemma PoppingShown(s: Pipeline, e: nat)
    requires Enabled(s, Agent(e, false)) && e < |s.posts| && s.agent[e] == AgentPc.Popping
    ensures Shows(s, PoppingStep(s, e), e)
  {
    hide S.Apply, Q.Apply;
  }

  lemma RegisteringShown(s: Pipeline, e: nat, spurious: bool)
    requires Enabled(s, Agent(e, spurious)) && e < |s.posts| && s.agent[e].Registering?
    ensures Shows(s, RegisteringStep(s, e, spurious), e)
  {
    hide S.Apply, Q.Apply;
  }

  lemma EnqueueingShown(s: Pipeline, e: nat, spurious: bool)
    requires Enabled(s, Agent(e, spurious)) && e < |s.posts| && s.agent[e].Enqueueing?
    ensures Shows(s, EnqueueingStep(s, e, spurious), e)
  {
    hide S.Apply, Q.Apply;
  }

  lemma UndoingShown(s: Pipeline, e: nat, spurious: bool)
    requires Enabled(s, Agent(e, spurious)) && e < |s.posts| && s.agent[e].Undoing?
    ensures Shows(s, UndoingStep(s, e, spurious), e)
  {
    hide S.Apply;
  }

  lemma RedeemingShown(s: Pipeline, e: nat, spurious: bool)
    requires Enabled(s, Agent(e, spurious)) && e < |s.posts| && s.agent[e].Redeeming?
    ensures Shows(s, RedeemingStep(s, e, spurious), e)
  {
    hide S.Apply, P.Apply;
  }

  lemma StepObeys(s: Pipeline, l: Label, e: nat)
    requires Inv(s) && Enabled(s, l) && e < |s.posts| && !s.running[e] && l != SetRunning(e, true)
    ensures var s' := Apply(s, l);
      && Inv(s') && Sizes(s') && |s'.posts| == |s.posts| && !s'.running[e]
      && RunAndPending(s', e) <= RunAndPending(s, e)
  {
    hide Inv;
    InvSizes(s);
    StepRefines(s, l);
    InvSizes(Apply(s, l));
    match l
    case Agent(t, spurious) =>
      if t == e { OwnStepObeys(s, e, spurious); } else { AgentAdvances(s, t, spurious); }
    case Sched => SchedLeavesAlone(s);
    case _ =>
  }

  /** After its flag went down an executor runs at most one more action. */
  lemma {:induction false} AtMostOneMoreRun(s: Pipeline, run: seq<Label>, e: nat)
    requires Inv(s) && Sizes(s) && EnabledAll(s, run) && e < |s.posts| && !s.running[e]
    requires forall i :: 0 <= i < |run| ==> run[i] != SetRunning(e, true)
    ensures var s' := ApplyAll(s, run);
      && Sizes(s') && e < |s'.posts|
      && RunAndPending(s', e) <= RunAndPending(s, e)
      && |s'.executed[e]| <= |s.executed[e]| + 1
    decreases |run|
  {
    hide Inv, Apply;
    if run != [] {
      StepObeys(s, run[0], e);
      AtMostOneMoreRun(Apply(s, run[0]), run[1..], e);
    }
  }

  // ----- the scheduler -----

  /** May the scheduler still place a handle without looking at its flag again? */
  function Placing(s: Pipeline): nat
    requires Sizes(s)
  {
    match s.sched
    case Popping => Count(s.pre.consumer != Q.Popped(None))
    case Offering => Count(!s.posts[s.index].producer.CountUp? && !s.posts[s.index].producer.Pushed?)
    case _ => 0
  }

  function PlacedAndPlacing(s: Pipeline): nat
    requires Sizes(s)
  {
    |s.dispatched| + Placing(s)
  }

  lemma SchedObeys(s: Pipeline)
    requires Sizes(s) && Enabled(s, Sched) && !s.scheduling && Sizes(SchedStep(s))
    ensures SchedStep(s).scheduling == s.scheduling && PlacedAndPlacing(SchedStep(s)) <= PlacedAndPlacing(s)
  {
  }

  lemma StepPlaces(s: Pipeline, l: Label)
    requires Inv(s) && Enabled(s, l) && !s.scheduling && l != SetScheduling(true)
    ensures var s' := Apply(s, l);
      Inv(s') && Sizes(s') && !s'.scheduling && PlacedAndPlacing(s') <= PlacedAndPlacing(s)
  {
    hide Inv;
    InvSizes(s);
    StepRefines(s, l);
    InvSizes(Apply(s, l));
    match l
    case Agent(t, spurious) => AgentAdvances(s, t, spurious);
    case Sched => SchedObeys(s);
    case _ =>
  }

  /** After its flag went down the scheduler places at most one more handle. */
  lemma {:induction false} AtMostOneMorePlaced(s: Pipeline, run: seq<Label>)
    requires Inv(s) && Sizes(s) && EnabledAll(s, run) && !s.scheduling
    requires forall i :: 0 <= i < |run| ==> run[i] != SetScheduling(true)
    ensures var s' := ApplyAll(s, run);
      && Sizes(s') && PlacedAndPlacing(s') <= PlacedAndPlacing(s)
      && |s'.dispatched| <= |s.dispatched| + 1
    decreases |run|
  {
    hide Inv, Apply;
    if run != [] {
      StepPlaces(s, run[0]);
      AtMostOneMorePlaced(Apply(s, run[0]), run[1..]);
    }
  }
}
