// What the balance means over whole runs: every action that was begun was executed, is still on its
// way, or was given up at a load that said why; and in a schedule that is fair, and gives nothing up,
// a push executes the whole chain of its action.
module ConservationResults {
  import opened Base
  import opened Handles
  import S = StorageMachine
  import Q = PreQueueMachine
  import L = Ledger
  import opened PipelineMachine
  import opened PipelineInv
  import opened PipelineResults
  import opened Work
  import opened Advance
  import opened Drain
  import opened DrainResults
  import opened Schedules
  import opened Fairness
  import opened Conservation

  lemma AgentBalances(s: Pipeline, x: Action, t: nat, spurious: bool)
    requires Inv(s) && Enabled(s, Agent(t, spurious))
    ensures Balanced(s, AgentStep(s, t, spurious), x, None, GivenUp(s, Agent(t, spurious)))
  {
    hide Balanced, S.Inv, Q.Inv, L.Inv;
    if InStore(s.agent[t]) {
      if S.Internal(s.store.pc[t]) { InternalBalances(s, x, t, spurious); } else { StoreReturnBalances(s, x, t); }
    } else if s.agent[t].Enqueueing? {
      EnqueueingBalances(s, x, t, spurious);
    } else if s.agent[t] == AgentPc.Popping {
      PoppingBalances(s, x, t);
    } else {
      BetweenCallsBalances(s, x, t, spurious);
    }
  }

  lemma SchedBalances(s: Pipeline, x: Action)
    requires Inv(s) && Enabled(s, Sched)
    ensures Balanced(s, SchedStep(s), x, None, None)
  {
    hide S.Inv, Q.Inv, AgentsOk, SchedulerOk, SchedStep, L.Do, L.Allowed, QueueDue;
    var s' := SchedStep(s);
    StepRefines(s, Sched);
    SchedLeavesAlone(s);
    assert AgentsDue(s', x) == AgentsDue(s, x);
    match EventOf(s, Sched)
    case Some(Take) => TakeDue(x, View(s), s.store.issued);
    case Some(Deliver(e)) => DeliverDue(x, View(s), e, s.store.issued);
    case None =>
  }

  lemma FlagsBalance(s: Pipeline, s': Pipeline, x: Action)
    requires Inv(s) && Inv(s') && View(s') == View(s)
    requires s' == s.(open := s'.open, scheduling := s'.scheduling, running := s'.running)
    ensures Balanced(s, s', x, None, None)
  {
    assert AgentsDue(s', x) == AgentsDue(s, x);
  }

  lemma BeginBalances(s: Pipeline, x: Action, t: nat, a: Action)
    requires Inv(s) && Enabled(s, Begin(t, a))
    ensures Balanced(s, Apply(s, Begin(t, a)), x, Some(a), None)
  {
    var s' := Apply(s, Begin(t, a));
    SameQueueDue(s, s', x);
    assert AgentsDue(s', x) == AgentsDue(s, x)[t := AgentDue(s', x, t)];
    SumUpdate(AgentsDue(s, x), t, AgentDue(s', x, t));
  }

  /** Every step keeps the balance. */
  lemma StepBalances(s: Pipeline, l: Label, x: Action)
    requires Inv(s) && Enabled(s, l)
    ensures Inv(Apply(s, l)) && Balanced(s, Apply(s, l), x, Begun(l), GivenUp(s, l))
  {
    hide Inv, Balanced;
    StepRefines(s, l);
    match l
    case Agent(t, spurious) => AgentBalances(s, x, t, spurious);
    case Sched => SchedBalances(s, x);
    case Begin(t, a) => BeginBalances(s, x, t, a);
    case SetOpen(_) => FlagsBalance(s, Apply(s, l), x);
    case SetScheduling(_) => FlagsBalance(s, Apply(s, l), x);
    case SetRunning(_, _) => FlagsBalance(s, Apply(s, l), x);
  }

  // ----- runs -----

  function BegunIn(run: seq<Label>, x: Action): nat
  {
    if run == [] then 0 else TimesIn(x, Begun(run[0])) + BegunIn(run[1..], x)
  }

  function LostIn(s: Pipeline, run: seq<Label>, x: Action): nat
    requires EnabledAll(s, run)
    decreases |run|
  {
    if run == [] then 0 else TimesIn(x, GivenUp(s, run[0])) + LostIn(Apply(s, run[0]), run[1..], x)
  }

  lemma {:induction false} RunBalances(s: Pipeline, run: seq<Label>, x: Action)
    requires Inv(s) && EnabledAll(s, run)
    ensures Inv(ApplyAll(s, run)) && Sizes(ApplyAll(s, run)) && Sizes(s)
    ensures var end := ApplyAll(s, run);
      Executed(end, x) + Due(end, x) + LostIn(s, run, x) == Executed(s, x) + Due(s, x) + BegunIn(run, x)
    decreases |run|
  {
    hide Inv, Executed, Due, Apply, GivenUp;
    InvSizes(s);
    if run != [] {
      StepBalances(s, run[0], x);
      RunBalances(Apply(s, run[0]), run[1..], x);
    }
  }

  lemma {:induction false} SumOfZeros(list: seq<nat>)
    requires forall i :: 0 <= i < |list| ==> list[i] == 0
    ensures Sum(list) == 0
  {
    if list != [] { SumOfZeros(list[..|list| - 1]); }
  }

  lemma NothingAtFirst(c: Config, x: Action)
    requires Sound(c)
    ensures Sizes(Init(c)) && Executed(Init(c), x) == 0 && Due(Init(c), x) == 0
  {
    SumOfZeros(ExecutedCounts(Init(c), x));
    SumOfZeros(AgentsDue(Init(c), x));
    SumOfZeros(QueueDue(x, View(Init(c)), Init(c).store.issued));
  }

  /** Every action, and every continuation in its chain, that was pushed since the beginning was
      executed, is due, or was given up: as often as it was begun. */
  lemma EveryActionIsAccountedFor(c: Config, run: seq<Label>, x: Action)
    requires Sound(c) && EnabledAll(Init(c), run)
    ensures var s := ApplyAll(Init(c), run);
      Sizes(s) && BegunIn(run, x) == Executed(s, x) + Due(s, x) + LostIn(Init(c), run, x)
  {
    hide Inv, Executed, Due;
    InitInv(c);
    NothingAtFirst(c, x);
    RunBalances(Init(c), run, x);
  }

  // ----- nothing is due when the pipeline is drained -----

  lemma NothingDue(s: Pipeline, x: Action)
    requires Inv(s) && Drained(s)
    ensures Due(s, x) == 0
  {
    forall t | 0 <= t < |s.agent| ensures AgentDue(s, x, t) == 0 { assert AtRest(s, t); }
    SumOfZeros(AgentsDue(s, x));
    var v := View(s);
    forall p | 0 <= p < |v.claimed| ensures PlaceDue(x, s.store.issued, v.place, v.claimed[p]) == 0 {
      NothingWaits(s, p);
    }
    SumOfZeros(QueueDue(x, v, s.store.issued));
  }

  lemma NothingWaits(s: Pipeline, p: nat)
    requires Inv(s) && Drained(s) && p < |s.pre.claimed|
    ensures s.pre.claimed[p] in s.place && s.place[s.pre.claimed[p]].Redeemed?
  {
    hide S.Inv, Q.Inv, S.LiveHandles;
    NothingLive(s);
    var v := View(s);
    assert v.claimed[p] in v.place && v.live == {};
  }

  // ----- a push and a fair schedule -----

  /** No step of the run finds a flag down, no free slot or a full ring. */
  predicate GivesNothingUp(s: Pipeline, run: seq<Label>)
    requires EnabledAll(s, run)
    decreases |run|
  {
    run == [] || (GivenUp(s, run[0]).None? && GivesNothingUp(Apply(s, run[0]), run[1..]))
  }

  lemma {:induction false} LosesNothing(s: Pipeline, run: seq<Label>, x: Action)
    requires EnabledAll(s, run) && GivesNothingUp(s, run)
    ensures LostIn(s, run, x) == 0
    decreases |run|
  {
    hide Apply, GivenUp;
    if run != [] { LosesNothing(Apply(s, run[0]), run[1..], x); }
  }

  lemma {:induction false} NothingBegun(run: seq<Label>, x: Action)
    requires ThreadSteps(run)
    ensures BegunIn(run, x) == 0
  {
    if run != [] { NothingBegun(run[1..], x); }
  }

  ghost predicate AllGiveNothingUp(s: Pipeline, rounds: seq<seq<Label>>)
    requires FairSchedule(s, rounds)
    decreases |rounds|
  {
    rounds == []
    || (GivesNothingUp(s, rounds[0]) && AllGiveNothingUp(ApplyAll(s, rounds[0]), rounds[1..]))
  }

  lemma {:induction false} RoundsBalance(s: Pipeline, rounds: seq<seq<Label>>, x: Action)
    requires Lively(s) && FairSchedule(s, rounds) && AllGiveNothingUp(s, rounds)
    ensures Sizes(s) && Sizes(After(s, rounds))
    ensures var end := After(s, rounds); Executed(end, x) + Due(end, x) == Executed(s, x) + Due(s, x)
    decreases |rounds|
  {
    hide Inv, Active, Executed, Due, Apply, GivesNothingUp, EnabledAll;
    InvSizes(s);
    if rounds != [] {
      var round := rounds[0];
      RoundCloser(s, round);
      RunBalances(s, round, x);
      LosesNothing(s, round, x);
      NothingBegun(round, x);
      RoundsBalance(ApplyAll(s, round), rounds[1..], x);
    }
  }

  /** A push, end to end: on a drained pipeline whose threads are active, an action is pushed; then
      every fair schedule that is long enough, and in which nothing is given up, executes the action
      and every continuation in its chain once more than before, and nothing else. */
  lemma ChainIsExecuted(s: Pipeline, t: nat, a: Action, rounds: seq<seq<Label>>, x: Action)
    requires Reachable(s) && Sizes(s) && Active(s) && Drained(s) && Enabled(s, Begin(t, a))
    requires var s' := Apply(s, Begin(t, a));
      && FairSchedule(s', rounds) && AllGiveNothingUp(s', rounds)
      && |rounds| > Distance(s') + AllSetBacks(rounds)
    ensures var end := After(Apply(s, Begin(t, a)), rounds);
      Executed(end, x) == Executed(s, x) + Times(x, a)
  {
    hide Inv, Drained, Distance, Executed, Due, Active;
    ReachableInv(s);
    NothingDue(s, x);
    StepBalances(s, Begin(t, a), x);
    var s' := Apply(s, Begin(t, a));
    BeginStaysActive(s, t, a);
    RoundsCloser(s', rounds);
    RoundsBalance(s', rounds, x);
    NothingDue(After(s', rounds), x);
  }

  lemma BeginStaysActive(s: Pipeline, t: nat, a: Action)
    requires Inv(s) && Active(s) && Enabled(s, Begin(t, a))
    ensures Lively(Apply(s, Begin(t, a)))
  {
    hide Inv;
    InvSizes(s);
    StepRefines(s, Begin(t, a));
  }
}
