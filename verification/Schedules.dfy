// Progress in every schedule. A number falls with every useful step of any thread, whatever the
// others do in between, and never grows but for spurious failures: so the useful steps of any
// schedule are bounded.
module Schedules {
  import opened Base
  import Q = PreQueueMachine
  import P = PostQueueMachine
  import opened PipelineMachine
  import opened PipelineInv
  import opened Work
  import opened Advance
  import opened Drain
  import opened DrainResults

  // ----- what is left for one agent -----

  const MAX_RANK: nat := 9

  /** How far an agent is from its next event; nothing if it only looks into an empty ring. */
  function Rank(s: Pipeline, t: nat): (r: nat)
    requires Sizes(s) && t < |s.agent|
    ensures r <= MAX_RANK
  {
    if Productive(s, t) then 1 + Fine(s, t) else 0
  }

  function Ranks(s: Pipeline): seq<nat>
    requires Sizes(s)
  {
    seq(|s.agent|, t requires 0 <= t < |s.agent| => Rank(s, t))
  }

  lemma {:induction false} SumAtMost(s: seq<nat>, most: nat)
    requires forall i :: 0 <= i < |s| ==> s[i] <= most
    ensures Sum(s) <= most * |s|
  {
    if s != [] { SumAtMost(s[..|s| - 1], most); }
  }

  /** A unit of work outweighs the ranks of all agents. */
  function Potential(s: Pipeline): nat
    requires Sizes(s)
  {
    TotalWork(s) * (MAX_RANK * |s.agent| + 1) + Sum(Ranks(s))
  }

  lemma Outweighs(work: nat, work': nat, ranks: nat, ranks': nat, unit: nat)
    requires work' < work && ranks' < unit
    ensures work' * unit + ranks' < work * unit + ranks
  {
    var more: nat := work - work' - 1;
    var product := more * unit;
    assert product >= 0;
    assert work * unit == (work' + 1 + more) * unit == work' * unit + unit + product;
  }

  lemma LessWork(s: Pipeline, s': Pipeline)
    requires Sizes(s) && Sizes(s') && |s'.agent| == |s.agent| && TotalWork(s') < TotalWork(s)
    ensures Potential(s') < Potential(s)
  {
    hide TotalWork;
    SumAtMost(Ranks(s'), MAX_RANK);
    Outweighs(TotalWork(s), TotalWork(s'), Sum(Ranks(s)), Sum(Ranks(s')), MAX_RANK * |s.agent| + 1);
  }

  /** Nothing that agent u counts on changed. */
  predicate Undisturbed(s: Pipeline, s': Pipeline, u: nat)
    requires Sizes(s) && Sizes(s') && u < |s.agent| == |s'.agent| && |s'.posts| == |s.posts|
  {
    && s'.agent[u] == s.agent[u] && s'.store.pc[u] == s.store.pc[u] && s'.pre.producer[u] == s.pre.producer[u]
    && s'.store.head == s.store.head && s'.pre.enqueue == s.pre.enqueue
    && (u < |s.posts| ==> s'.posts[u].consumer == s.posts[u].consumer && RingEmpty(s', u) == RingEmpty(s, u))
  }

  lemma SameRank(s: Pipeline, s': Pipeline, u: nat)
    requires Sizes(s) && Sizes(s') && u < |s.agent| == |s'.agent| && |s'.posts| == |s.posts|
    requires Undisturbed(s, s', u)
    ensures Productive(s', u) == Productive(s, u) && AtRest(s', u) == AtRest(s, u) && Rank(s', u) == Rank(s, u)
  {
  }

  lemma OthersRank(s: Pipeline, s': Pipeline, t: nat)
    requires Sizes(s) && t < |s.agent| && AgentFrame(s, s', t)
    requires TotalWork(s') == TotalWork(s) && s'.store.head == s.store.head && s'.pre.enqueue == s.pre.enqueue
    ensures Potential(s') + Rank(s, t) == Potential(s) + Rank(s', t)
  {
    hide TotalWork;
    forall u | 0 <= u < |s.agent| && u != t ensures Rank(s', u) == Rank(s, u) { SameRank(s, s', u); }
    assert Ranks(s') == Ranks(s)[t := Rank(s', t)];
    SumUpdate(Ranks(s), t, Rank(s', t));
  }

  // ----- steps -----

  /** Looking into the ring finds nothing. */
  lemma LookingFails(s: Pipeline, e: nat)
    requires Sizes(s) && e < |s.posts| && P.Inv(s.posts[e]) && P.Enabled(s.posts[e], P.Consume)
    requires s.posts[e].consumer.TestActive? && RingEmpty(s, e)
    ensures var s' := PostApply(s, e, P.Consume); s'.posts[e].consumer == P.Popped(None) && RingEmpty(s', e)
  {
    P.FlagTells(s.posts[e]);
  }

  lemma OnlyPolling(s: Pipeline, t: nat, spurious: bool)
    requires Sizes(s) && Enabled(s, Agent(t, spurious)) && !Productive(s, t)
    ensures t < |s.posts| && Polling(s, t) && RingEmpty(s, t)
  {
  }

  /** An executor that looks into its empty ring goes on looking, or stops. */
  lemma PollingOn(s: Pipeline, t: nat, spurious: bool)
    requires Sizes(s) && Enabled(s, Agent(t, spurious)) && !Productive(s, t)
    requires t < |s.posts| ==> P.Inv(s.posts[t])
    ensures t < |s.posts| && Polling(s, t) && RingEmpty(s, t)
    ensures var s' := AgentStep(s, t, spurious);
      Sizes(s') && s'.pre == s.pre && AtRest(s', t) && RingEmpty(s', t)
  {
    hide P.Inv;
    OnlyPolling(s, t, spurious);
    if s.agent[t] == AgentPc.Popping && s.posts[t].consumer.TestActive? {
      LookingFails(s, t);
    }
  }

  lemma InvLocal(s: Pipeline, t: nat)
    requires Inv(s) && t < |s.agent|
    ensures Local(s, t) && (t < |s.posts| ==> P.Inv(s.posts[t]))
  {
  }

  /** A step of an agent: a productive one lowers the potential, any other one does not raise it,
      unless it fails by itself. */
  lemma AgentLowers(s: Pipeline, t: nat, spurious: bool)
    requires Inv(s) && Enabled(s, Agent(t, spurious))
    ensures var s' := AgentStep(s, t, spurious);
      && Sizes(s')
      && Potential(s') + Count(Productive(s, t) && !spurious) <= Potential(s) + MAX_RANK * Count(spurious)
  {
    hide TotalWork, Inv;
    var s' := AgentStep(s, t, spurious);
    AgentAdvances(s, t, spurious);
    if TotalWork(s') < TotalWork(s) {
      LessWork(s, s');
    } else {
      OthersRank(s, s', t);
      if !Productive(s, t) {
        InvLocal(s, t);
        PollingOn(s, t, spurious);
      }
    }
  }

  // ----- the scheduler -----

  /** A step of the scheduler that moves no handle on changes nothing for the agents. */
  lemma SameLanes(s: Pipeline, s': Pipeline)
    requires Sizes(s) && Sizes(s') && SchedSpares(s, s') && View(s') == View(s)
    ensures forall e :: 0 <= e < |s.posts| ==> RingEmpty(s', e) == RingEmpty(s, e)
    ensures InHand(s') == InHand(s) && Q.Front(s'.pre) == Q.Front(s.pre) && s'.pre.claimed == s.pre.claimed
  {
    forall e | 0 <= e < |s.posts| ensures RingEmpty(s', e) == RingEmpty(s, e) {
      assert View(s').lanes[e] == LaneOf(s', e) && View(s).lanes[e] == LaneOf(s, e);
    }
  }

  lemma SameRanks(s: Pipeline, s': Pipeline)
    requires Sizes(s) && Sizes(s') && SchedSpares(s, s') && View(s') == View(s)
    ensures Ranks(s') == Ranks(s)
    ensures forall t :: 0 <= t < |s.agent| ==> AtRest(s', t) == AtRest(s, t)
  {
    SameLanes(s, s');
    forall t | 0 <= t < |s.agent| ensures Rank(s', t) == Rank(s, t) && AtRest(s', t) == AtRest(s, t) {
      SameRank(s, s', t);
    }
  }

  predicate Places(s: Pipeline)
    requires Enabled(s, Sched)
  {
    EventOf(s, Sched).Some?
  }

  /** The scheduler lowers the potential with every handle it moves on, and never raises it. */
  lemma SchedLowers(s: Pipeline)
    requires Inv(s) && Enabled(s, Sched)
    ensures Sizes(SchedStep(s)) && Potential(SchedStep(s)) + Count(Places(s)) <= Potential(s)
  {
    hide Inv, TotalWork, Ranks;
    SchedLighter(s);
    InvSizes(s);
    SchedLeavesAlone(s);
    StepRefines(s, Sched);
    if Places(s) { LessWork(s, SchedStep(s)); } else { SameRanks(s, SchedStep(s)); }
  }

  lemma InvSizes(s: Pipeline)
    requires Inv(s)
    ensures Sizes(s)
  {
  }

  // ----- every schedule -----

  /** A step that is sure to bring some action closer to its end. */
  predicate Useful(s: Pipeline, l: Label)
    requires Enabled(s, l)
  {
    match l
    case Agent(t, spurious) => Productive(s, t) && !spurious
    case Sched => Places(s)
    case _ => false
  }

  predicate Fails(l: Label) { l.Agent? && l.spurious }

  lemma FlagsLower(s: Pipeline, s': Pipeline)
    requires Inv(s) && Inv(s') && View(s') == View(s)
    requires s' == s.(open := s'.open, scheduling := s'.scheduling, running := s'.running)
    ensures Potential(s') == Potential(s)
  {
    FlagsKeepWork(s, s');
    assert Ranks(s') == Ranks(s);
  }

  lemma StepLowers(s: Pipeline, l: Label)
    requires Inv(s) && Enabled(s, l) && !l.Begin?
    ensures Inv(Apply(s, l))
    ensures Potential(Apply(s, l)) + Count(Useful(s, l)) <= Potential(s) + MAX_RANK * Count(Fails(l))
  {
    hide Inv, Potential;
    StepRefines(s, l);
    match l
    case Agent(t, spurious) => AgentLowers(s, t, spurious);
    case Sched => SchedLowers(s);
    case SetOpen(_) => FlagsLower(s, Apply(s, l));
    case SetScheduling(_) => FlagsLower(s, Apply(s, l));
    case SetRunning(_, _) => FlagsLower(s, Apply(s, l));
  }

  function UsefulSteps(s: Pipeline, run: seq<Label>): nat
    requires EnabledAll(s, run)
    decreases |run|
  {
    if run == [] then 0 else Count(Useful(s, run[0])) + UsefulSteps(Apply(s, run[0]), run[1..])
  }

  function Failures(run: seq<Label>): nat
  {
    if run == [] then 0 else Count(Fails(run[0])) + Failures(run[1..])
  }

  /** No livelock: in any schedule, however long and unfair and with the flags flipping as they
      please, the useful steps are bounded by what is in the pipeline at its start and by the weak
      exchanges that fail by themselves, as long as no one calls push from outside. */
  lemma {:induction false} UsefulStepsAreBounded(s: Pipeline, run: seq<Label>)
    requires Inv(s) && EnabledAll(s, run)
    requires forall i :: 0 <= i < |run| ==> !run[i].Begin?
    ensures Inv(ApplyAll(s, run))
    ensures Potential(ApplyAll(s, run)) + UsefulSteps(s, run) <= Potential(s) + MAX_RANK * Failures(run)
    decreases |run|
  {
    hide Inv, Potential;
    if run != [] {
      StepLowers(s, run[0]);
      UsefulStepsAreBounded(Apply(s, run[0]), run[1..]);
    }
  }
}
