// Every fair schedule runs the pipeline empty: once no one pushes from outside and the threads are
// kept running, it is enough that each thread gets a step now and then.
module Fairness {
  import opened Base
  import L = Ledger
  import Q = PreQueueMachine
  import S = StorageMachine
  import P = PostQueueMachine
  import opened PipelineMachine
  import opened PipelineInv
  import opened PipelineResults
  import opened Advance
  import opened Drain
  import opened DrainResults
  import opened Schedules

  // ----- fair schedules -----

  const MAX_FINE: nat := 7

  /** With every agent at rest the scheduler's steps count as well. */
  ghost function Distance(s: Pipeline): nat
    requires Sizes(s)
  {
    Potential(s) * (MAX_FINE + 1) + if AgentsIdle(s) && Waiting(s) then SchedFine(s) else MAX_FINE
  }

  /** More than one failing exchange can add to the distance. */
  const SET_BACK: nat := MAX_RANK * (MAX_FINE + 1) + MAX_FINE + 1

  function SetBack(l: Label): nat { if Fails(l) then SET_BACK else 0 }

  function SetBacks(run: seq<Label>): nat
  {
    if run == [] then 0 else SetBack(run[0]) + SetBacks(run[1..])
  }

  ghost predicate Helpful(s: Pipeline, l: Label)
    requires Enabled(s, l)
  {
    Useful(s, l) || (l.Sched? && AgentsIdle(s) && Waiting(s))
  }

  /** Looking into empty rings leaves everyone at rest, or as busy as they were. */
  lemma PollingKeeps(s: Pipeline, t: nat, spurious: bool)
    requires Inv(s) && Enabled(s, Agent(t, spurious)) && !Productive(s, t)
    ensures var s' := AgentStep(s, t, spurious);
      && Sizes(s') && AgentsIdle(s') == AgentsIdle(s) && Waiting(s') == Waiting(s) && SchedFine(s') == SchedFine(s)
  {
    hide S.Inv, Q.Inv, L.Inv;
    var s' := AgentStep(s, t, spurious);
    InvLocal(s, t);
    AgentAdvances(s, t, spurious);
    PollingOn(s, t, spurious);
    OthersRest(s, s', t);
  }

  lemma OthersRest(s: Pipeline, s': Pipeline, t: nat)
    requires Sizes(s) && t < |s.posts| && AgentFrame(s, s', t) && s'.pre == s.pre
    requires AtRest(s, t) && AtRest(s', t) && RingEmpty(s, t) && RingEmpty(s', t)
    ensures AgentsIdle(s') == AgentsIdle(s) && Waiting(s') == Waiting(s) && SchedFine(s') == SchedFine(s)
  {
    forall u | 0 <= u < |s.agent| ensures AtRest(s', u) == AtRest(s, u) {}
    forall e | 0 <= e < |s.posts| ensures RingEmpty(s', e) == RingEmpty(s, e) {}
  }

  lemma ResultingDistance(s: Pipeline, s': Pipeline)
    requires Sizes(s) && Sizes(s')
    ensures Potential(s') < Potential(s) ==> Distance(s') < Distance(s)
    ensures Potential(s') <= Potential(s) + MAX_RANK ==> Distance(s') < Distance(s) + SET_BACK
    ensures SchedFine(s') <= MAX_FINE
  {
    hide Potential, AgentsIdle, Waiting;
  }

  lemma AgentCloser(s: Pipeline, t: nat, spurious: bool)
    requires Lively(s) && Enabled(s, Agent(t, spurious))
    ensures var s' := AgentStep(s, t, spurious);
      && Lively(s')
      && Distance(s') + Count(Productive(s, t) || spurious) <= Distance(s) + SetBack(Agent(t, spurious))
  {
    hide Inv, Potential, Distance, AgentsIdle, Waiting;
    var s' := AgentStep(s, t, spurious);
    InvSizes(s);
    StepRefines(s, Agent(t, spurious));
    AgentAdvances(s, t, spurious);
    AgentLowers(s, t, spurious);
    ResultingDistance(s, s');
    if !Productive(s, t) && !spurious {
      PollingKeeps(s, t, spurious);
      SameDistance(s, s');
    }
  }

  lemma SameDistance(s: Pipeline, s': Pipeline)
    requires Sizes(s) && Sizes(s') && Potential(s') <= Potential(s)
    requires (AgentsIdle(s') && Waiting(s')) == (AgentsIdle(s) && Waiting(s))
    requires AgentsIdle(s) && Waiting(s) ==> SchedFine(s') <= SchedFine(s)
    ensures Distance(s') <= Distance(s)
    ensures AgentsIdle(s) && Waiting(s) && SchedFine(s') < SchedFine(s) ==> Distance(s') < Distance(s)
  {
    hide Potential, AgentsIdle, Waiting;
  }

  lemma SchedIdle(s: Pipeline)
    requires Inv(s) && Enabled(s, Sched) && !Places(s)
    ensures var s' := SchedStep(s);
      Sizes(s') && AgentsIdle(s') == AgentsIdle(s) && Waiting(s') == Waiting(s)
  {
    hide Inv;
    InvSizes(s);
    StepRefines(s, Sched);
    SchedLighter(s);
    SchedLeavesAlone(s);
    SameLanes(s, SchedStep(s));
    SameRanks(s, SchedStep(s));
  }

  lemma SchedCloserStill(s: Pipeline)
    requires Lively(s) && Enabled(s, Sched)
    ensures var s' := SchedStep(s);
      && Lively(s')
      && Distance(s') + Count(Helpful(s, Sched)) <= Distance(s)
  {
    hide Inv, Potential, Distance, AgentsIdle, Waiting;
    var s' := SchedStep(s);
    InvSizes(s);
    SchedStaysActive(s);
    SchedLowers(s);
    if Places(s) {
      ResultingDistance(s, s');
    } else {
      SchedIdle(s);
      if AgentsIdle(s) && Waiting(s) { SchedCloser(s); }
      SameDistance(s, s');
    }
  }

  lemma StepCloser(s: Pipeline, l: Label)
    requires Lively(s) && ThreadStep(l) && Enabled(s, l)
    ensures Lively(Apply(s, l))
    ensures Distance(Apply(s, l)) + Count(Helpful(s, l) || Fails(l)) <= Distance(s) + SetBack(l)
  {
    hide Inv, Distance, AgentsIdle, Waiting;
    match l
    case Agent(t, spurious) => AgentCloser(s, t, spurious);
    case Sched => SchedCloserStill(s);
  }

  // ----- rounds -----

  /** In a fair round the scheduler takes a step, and so does every agent, without a failure of its
      own, unless it is a producer that has no call of push left to finish. */
  ghost predicate Fair(s: Pipeline, round: seq<Label>)
    requires EnabledAll(s, round)
  {
    && ThreadSteps(round) && Sched in round
    && forall t :: 0 <= t < |s.agent| ==> TakesPart(s, round, t)
  }

  predicate TakesPart(s: Pipeline, round: seq<Label>, t: nat)
    requires EnabledAll(s, round)
  {
    var s' := ApplyAll(s, round);
    Agent(t, false) in round || (t < |s'.agent| && s'.agent[t].Outside?)
  }

  lemma {:induction false} RoundCloser(s: Pipeline, round: seq<Label>)
    requires Lively(s) && ThreadSteps(round) && EnabledAll(s, round)
    ensures Lively(ApplyAll(s, round))
    ensures Distance(ApplyAll(s, round)) <= Distance(s) + SetBacks(round)
    decreases |round|
  {
    hide Inv, Distance, Active, Apply;
    if round != [] {
      StepCloser(s, round[0]);
      RoundCloser(Apply(s, round[0]), round[1..]);
    }
  }

  lemma SchedFills(s: Pipeline, e: nat)
    requires Inv(s) && Enabled(s, Sched) && e < |s.posts| && !RingEmpty(s, e)
    ensures Sizes(SchedStep(s)) && |SchedStep(s).posts| == |s.posts| && !RingEmpty(SchedStep(s), e)
  {
    hide S.Inv, Q.Inv, P.Inv, AgentsOk, SchedulerOk, SchedStep;
    var s' := SchedStep(s);
    StepRefines(s, Sched);
    SchedLeavesAlone(s);
    assert L.LaneOk(View(s), e);
    assert View(s').lanes[e] == LaneOf(s', e) && View(s).lanes[e] == LaneOf(s, e);
  }

  lemma OthersProductive(s: Pipeline, s': Pipeline, u: nat, t: nat)
    requires Sizes(s) && u < |s.agent| && t < |s.agent| && t != u && AgentFrame(s, s', u)
    ensures Productive(s', t) == Productive(s, t)
  {
  }

  lemma SchedProductive(s: Pipeline, t: nat)
    requires Inv(s) && Enabled(s, Sched) && t < |s.agent| && Productive(s, t)
    ensures Sizes(SchedStep(s)) && |SchedStep(s).agent| == |s.agent| && Productive(SchedStep(s), t)
  {
    hide Inv;
    SchedLighter(s);
    SchedLeavesAlone(s);
    if t < |s.posts| && !RingEmpty(s, t) { SchedFills(s, t); }
  }

  /** What an agent has to do it can still do after the steps of others. */
  lemma StaysProductive(s: Pipeline, l: Label, t: nat)
    requires Inv(s) && ThreadStep(l) && Enabled(s, l) && t < |s.agent| && Productive(s, t)
    requires l.Agent? ==> l.t != t
    ensures Sizes(Apply(s, l)) && t < |Apply(s, l).agent| && Productive(Apply(s, l), t)
  {
    hide Inv, Productive;
    match l
    case Agent(u, spurious) =>
      AgentAdvances(s, u, spurious);
      OthersProductive(s, AgentStep(s, u, spurious), u, t);
    case Sched => SchedProductive(s, t);
  }

  lemma {:induction false} RoundOfAgent(s: Pipeline, round: seq<Label>, t: nat)
    requires Lively(s) && ThreadSteps(round) && EnabledAll(s, round)
    requires t < |s.agent| && Productive(s, t) && TakesPart(s, round, t)
    ensures Lively(ApplyAll(s, round))
    ensures Distance(ApplyAll(s, round)) < Distance(s) + SetBacks(round)
    decreases |round|
  {
    hide Inv, Distance, Active, Apply;
    if round != [] {
      var s', rest := Apply(s, round[0]), round[1..];
      StepCloser(s, round[0]);
      if round[0].Agent? && round[0].t == t {
        RoundCloser(s', rest);
      } else {
        StaysProductive(s, round[0], t);
        RoundOfAgent(s', rest, t);
      }
    }
  }

  lemma IdleKeeps(s: Pipeline, t: nat, spurious: bool)
    requires Inv(s) && Enabled(s, Agent(t, spurious)) && AgentsIdle(s)
    ensures var s' := Apply(s, Agent(t, spurious));
      Sizes(s') && AgentsIdle(s') && Waiting(s') == Waiting(s)
  {
    hide Inv;
    InvSizes(s);
    assert AtRest(s, t);
    PollingKeeps(s, t, spurious);
  }

  lemma {:induction false} RoundOfSched(s: Pipeline, round: seq<Label>)
    requires Lively(s) && ThreadSteps(round) && EnabledAll(s, round)
    requires AgentsIdle(s) && Waiting(s) && Sched in round
    ensures Lively(ApplyAll(s, round))
    ensures Distance(ApplyAll(s, round)) < Distance(s) + SetBacks(round)
    decreases |round|
  {
    hide Inv, Distance, Active, AgentsIdle, Waiting, Apply;
    var s', rest := Apply(s, round[0]), round[1..];
    StepCloser(s, round[0]);
    if round[0].Sched? {
      RoundCloser(s', rest);
    } else {
      IdleKeeps(s, round[0].t, round[0].spurious);
      RoundOfSched(s', rest);
    }
  }

  /** A fair round brings the pipeline closer to its end, whatever else happens in it. */
  lemma FairRoundCloser(s: Pipeline, round: seq<Label>)
    requires Lively(s) && EnabledAll(s, round) && Fair(s, round) && !Drained(s)
    ensures Lively(ApplyAll(s, round))
    ensures Distance(ApplyAll(s, round)) < Distance(s) + SetBacks(round)
  {
    hide Distance;
    if t: nat :| t < |s.agent| && Productive(s, t) {
      RoundOfAgent(s, round, t);
    } else {
      NothingProductive(s);
      RoundOfSched(s, round);
    }
  }

  // ----- an empty pipeline stays empty -----

  lemma DrainedStays(s: Pipeline, l: Label)
    requires Lively(s) && ThreadStep(l) && Enabled(s, l) && Drained(s)
    ensures Sizes(Apply(s, l)) && Drained(Apply(s, l))
  {
    match l
    case Agent(t, spurious) => IdleKeeps(s, t, spurious);
    case Sched =>
      StepRefines(s, l);
      SchedIdle(s);
  }

  lemma {:induction false} DrainedStaysOn(s: Pipeline, round: seq<Label>)
    requires Lively(s) && ThreadSteps(round) && EnabledAll(s, round) && Drained(s)
    ensures Sizes(ApplyAll(s, round)) && Drained(ApplyAll(s, round))
    decreases |round|
  {
    hide Inv, Drained, Active, Apply;
    InvSizes(s);
    if round != [] {
      DrainedStays(s, round[0]);
      StepCloser(s, round[0]);
      DrainedStaysOn(Apply(s, round[0]), round[1..]);
    }
  }

  // ----- fair rounds exist -----

  lemma SameAgents(s: Pipeline, l: Label, u: nat)
    requires Lively(s) && ThreadStep(l) && Enabled(s, l) && u < |s.agent| && s.agent[u].Outside?
    ensures var s' := Apply(s, l); |s'.agent| == |s.agent| && s'.agent[u].Outside?
  {
    hide Inv;
    InvSizes(s);
    match l
    case Agent(t, spurious) => AgentAdvances(s, t, spurious);
    case Sched => SchedLeavesAlone(s);
  }

  lemma AgentCount(s: Pipeline, l: Label)
    requires Lively(s) && ThreadStep(l) && Enabled(s, l)
    ensures Sizes(Apply(s, l)) && |Apply(s, l).agent| == |s.agent|
  {
    hide Inv;
    InvSizes(s);
    match l
    case Agent(t, spurious) => AgentAdvances(s, t, spurious);
    case Sched => SchedLeavesAlone(s); SchedLighter(s);
  }

  lemma StartedReady(s: Pipeline, t: nat)
    requires Lively(s) && Sizes(s) && t < |s.agent| && !s.agent[t].Outside?
    ensures Enabled(s, Agent(t, false))
  {
    InvLocal(s, t);
    AgentReady(s, t);
  }

  /** No thread ever has to wait for another one: from every state the agents can take their steps
      one after the other. */
  lemma {:induction false} Turns(s: Pipeline, t: nat) returns (run: seq<Label>)
    requires Lively(s) && Sizes(s) && t <= |s.agent|
    ensures ThreadSteps(run) && EnabledAll(s, run) && Sched in run
    ensures forall u :: t <= u < |s.agent| ==> TakesPart(s, run, u)
    ensures forall u :: 0 <= u < t && s.agent[u].Outside? ==> TakesPart(s, run, u)
    decreases |s.agent| - t
  {
    hide Inv, Active, Apply;
    if t == |s.agent| {
      SchedStaysActive(s);
      run := [Sched];
      assert ApplyAll(s, run) == Apply(s, Sched) by { assert run[1..] == []; }
      forall u | 0 <= u < t && s.agent[u].Outside? ensures TakesPart(s, run, u) { SameAgents(s, Sched, u); }
    } else if s.agent[t].Outside? {
      run := Turns(s, t + 1);
    } else {
      var l := Agent(t, false);
      StartedReady(s, t);
      StepCloser(s, l);
      var s' := Apply(s, l);
      AgentCount(s, l);
      forall u | 0 <= u < t && s.agent[u].Outside? ensures s'.agent[u].Outside? { SameAgents(s, l, u); }
      var rest := Turns(s', t + 1);
      run := [l] + rest;
      assert run[0] == l && run[1..] == rest;
      forall u | t < u < |s.agent| ensures TakesPart(s, run, u) { assert TakesPart(s', rest, u); }
      forall u | 0 <= u < t && s.agent[u].Outside? ensures TakesPart(s, run, u) { assert TakesPart(s', rest, u); }
    }
  }

  lemma FairRoundExists(s: Pipeline) returns (round: seq<Label>)
    requires Lively(s)
    ensures EnabledAll(s, round) && Fair(s, round)
  {
    hide Inv, Active, Apply;
    InvSizes(s);
    round := Turns(s, 0);
  }

  // ----- fair schedules -----

  /** The rounds follow each other, each of them fair. */
  ghost predicate FairSchedule(s: Pipeline, rounds: seq<seq<Label>>)
    decreases |rounds|
  {
    rounds == []
    || (&& EnabledAll(s, rounds[0]) && Fair(s, rounds[0])
        && FairSchedule(ApplyAll(s, rounds[0]), rounds[1..]))
  }

  function After(s: Pipeline, rounds: seq<seq<Label>>): Pipeline
    requires FairSchedule(s, rounds)
    decreases |rounds|
  {
    if rounds == [] then s else After(ApplyAll(s, rounds[0]), rounds[1..])
  }

  function AllSetBacks(rounds: seq<seq<Label>>): nat
  {
    if rounds == [] then 0 else SetBacks(rounds[0]) + AllSetBacks(rounds[1..])
  }

  lemma {:induction false} RoundsCloser(s: Pipeline, rounds: seq<seq<Label>>)
    requires Lively(s) && FairSchedule(s, rounds)
    ensures var end := After(s, rounds);
      && Lively(end)
      && (Drained(end) || Distance(end) + |rounds| <= Distance(s) + AllSetBacks(rounds))
    ensures Drained(s) ==> Drained(After(s, rounds))
    decreases |rounds|
  {
    hide Inv, Drained, Active, Distance, Apply;
    if rounds != [] {
      var s' := ApplyAll(s, rounds[0]);
      RoundCloser(s, rounds[0]);
      if Drained(s) { DrainedStaysOn(s, rounds[0]); } else { FairRoundCloser(s, rounds[0]); }
      RoundsCloser(s', rounds[1..]);
    }
  }

  /** Liveness: every fair schedule that is longer than the distance of its first state, and longer
      still for every weak exchange that fails by itself, leaves the pipeline empty: the free list
      holds every slot again and every accepted action was executed. */
  lemma FairSchedulesDrain(s: Pipeline, rounds: seq<seq<Label>>)
    requires Reachable(s) && Sizes(s) && Active(s) && FairSchedule(s, rounds)
    requires |rounds| > Distance(s) + AllSetBacks(rounds)
    ensures Empty(After(s, rounds))
  {
    hide Inv, Drained, Active, Distance, Apply;
    ReachableInv(s);
    RoundsCloser(s, rounds);
    DrainedIsEmpty(After(s, rounds));
  }
}
