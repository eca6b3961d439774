// Bounded placement: once an executor has room, the pending handle is placed within one round of
// offers, whatever the executors and the producers do meanwhile.
module Placement {
  import opened Base
  import opened Handles
  import Q = PreQueueMachine
  import P = PostQueueMachine
  import L = Ledger
  import E = RoundRobinEngine
  import opened PipelineMachine
  import opened PipelineInv
  import opened Drain

  predicate HasRoom(s: Pipeline, e: nat)
    requires Sizes(s) && e < |s.posts|
  {
    P.Back(s.posts[e]) < P.Front(s.posts[e]) + |s.posts[e].active|
  }

  /** The step is an executor's push finding its ring full. */
  predicate Fails(s: Pipeline, l: Label)
    requires Enabled(s, l)
  {
    && l.Sched? && s.sched.Offering? && s.posts[s.index].producer.TestFree?
    && P.Apply(s.posts[s.index], P.Produce).producer == P.Pushed(false)
  }

  function FailedOffers(s: Pipeline, run: seq<Label>): nat
    requires EnabledAll(s, run)
    decreases |run|
  {
    if run == [] then 0 else Count(Fails(s, run[0])) + FailedOffers(Apply(s, run[0]), run[1..])
  }

  /** How many offers may still fail before it is the turn of executor e. */
  function Ahead(s: Pipeline, e: nat): nat
    requires Sizes(s) && e < |s.posts|
  {
    var n := |s.posts|;
    if s.sched.Offering? && s.posts[s.index].producer.TestFree? then
      (if s.index == e then 0 else E.Turns(s.index, e, n))
    else if s.sched.Offering? && s.posts[s.index].producer != P.Pushed(false) then 0
    else E.Turns(s.index, e, n) - 1
  }

  predicate SameSizes(s: Pipeline, s': Pipeline)
  {
    && |s'.posts| == |s.posts|
    && (forall e :: 0 <= e < |s.posts| ==> |s'.posts[e].active| == |s.posts[e].active|)
  }

  lemma PopKeepsSize(s: Pipeline, e: nat)
    requires Sizes(s) && Enabled(s, Agent(e, false)) && s.agent[e] == AgentPc.Popping
    ensures SameSizes(s, PoppingStep(s, e))
  {
  }

  lemma RedeemKeepsSize(s: Pipeline, e: nat, spurious: bool)
    requires Sizes(s) && Enabled(s, Agent(e, spurious)) && s.agent[e].Redeeming?
    ensures SameSizes(s, RedeemingStep(s, e, spurious))
  {
  }

  lemma AgentKeepsSizes(s: Pipeline, t: nat, spurious: bool)
    requires Sizes(s) && Enabled(s, Agent(t, spurious))
    ensures SameSizes(s, AgentStep(s, t, spurious))
  {
    match s.agent[t]
    case Popping => PopKeepsSize(s, t);
    case Redeeming => RedeemKeepsSize(s, t, spurious);
    case _ =>
  }

  lemma SchedKeepsSizes(s: Pipeline)
    requires Sizes(s) && Enabled(s, Sched)
    ensures SameSizes(s, SchedStep(s))
  {
    match s.sched
    case Offering =>
    case _ =>
  }

  /** Only Deliver fills a ring, and only Deliver and Take change what the scheduler holds. */
  lemma LedgerKeepsRoom(v: L.Ledger, x: L.Event, e: nat)
    requires L.Allowed(v, x) && e < |v.lanes| && v.hand.Some?
    requires |L.Do(v, x).dispatched| == |v.dispatched|
    ensures var v' := L.Do(v, x);
      && v'.hand == v.hand
      && v'.lanes[e].pushed == v.lanes[e].pushed && v'.lanes[e].front >= v.lanes[e].front
  {
  }

  /** The same in terms of what was pushed and what was taken out. */
  predicate Roomy(s: Pipeline, e: nat)
    requires Sizes(s) && e < |s.posts|
  {
    |s.posts[e].pushed| < P.Front(s.posts[e]) + |s.posts[e].active|
  }

  lemma StepKeepsRoom(s: Pipeline, s': Pipeline, x: Option<L.Event>, e: nat)
    requires Sizes(s) && Sizes(s') && Follows(s, s', x) && SameSizes(s, s') && e < |s.posts|
    requires |s'.dispatched| == |s.dispatched| && Roomy(s, e) && InHand(s).Some?
    ensures Roomy(s', e) && InHand(s').Some?
  {
    if x.Some? { LedgerKeepsRoom(View(s), x.value, e); }
    assert View(s).lanes[e] == LaneOf(s, e) && View(s').lanes[e] == LaneOf(s', e);
  }

  lemma AgentAhead(s: Pipeline, t: nat, spurious: bool, e: nat)
    requires Inv(s) && Enabled(s, Agent(t, spurious)) && e < |s.posts|
    ensures Sizes(AgentStep(s, t, spurious)) && SameSizes(s, AgentStep(s, t, spurious))
    ensures Ahead(AgentStep(s, t, spurious), e) == Ahead(s, e)
  {
    AgentAdvances(s, t, spurious);
    AgentKeepsSizes(s, t, spurious);
  }

  lemma OfferingAhead(s: Pipeline, e: nat)
    requires Coupled(s) && Enabled(s, Sched) && s.sched.Offering? && e < |s.posts| && HasRoom(s, e)
    requires P.Inv(s.posts[s.index]) && |OfferingStep(s).dispatched| == |s.dispatched| && InHand(s).Some?
    ensures Sizes(OfferingStep(s))
    ensures Ahead(OfferingStep(s), e) + Count(Fails(s, Sched)) <= Ahead(s, e)
  {
    P.FlagTells(s.posts[s.index]);
  }

  lemma OfferAhead(s: Pipeline, h: Handle, e: nat)
    requires Sizes(s) && !s.sched.Offering? && e < |s.posts|
    ensures Sizes(Offer(s, h)) && Ahead(Offer(s, h), e) == Ahead(s, e)
  {
    E.NextByRemainder(s.index, |s.posts|);
    var s' := Offer(s, h);
    assert |s'.posts| == |s.posts| && s'.index == E.Next(s.index, |s.posts|);
    assert s'.posts[s'.index].producer == P.TestFree(h);
  }

  lemma PoppingAhead(s: Pipeline, e: nat)
    requires Sizes(s) && Enabled(s, Sched) && s.sched == SchedPc.Popping && e < |s.posts|
    ensures Sizes(SchedPoppingStep(s)) && Ahead(SchedPoppingStep(s), e) == Ahead(s, e)
  {
    match s.pre.consumer
    case Popped(Some(h)) => OfferAhead(s.(pre := Q.Apply(s.pre, Q.ReturnPop)), h, e);
    case _ =>
  }

  lemma ElsewhereAhead(s: Pipeline, e: nat)
    requires Sizes(s) && Enabled(s, Sched) && !s.sched.Offering? && e < |s.posts|
    ensures Sizes(SchedStep(s)) && Ahead(SchedStep(s), e) == Ahead(s, e)
  {
    match s.sched
    case Testing => if s.scheduling && s.pending.Some? { OfferAhead(s, s.pending.value, e); }
    case Popping => PoppingAhead(s, e);
  }

  lemma SchedAhead(s: Pipeline, e: nat)
    requires Inv(s) && Enabled(s, Sched) && e < |s.posts| && Roomy(s, e)
    requires |SchedStep(s).dispatched| == |s.dispatched| && InHand(s).Some?
    ensures Sizes(SchedStep(s)) && SameSizes(s, SchedStep(s))
    ensures Ahead(SchedStep(s), e) + Count(Fails(s, Sched)) <= Ahead(s, e)
  {
    SchedKeepsSizes(s);
    assert P.Inv(s.posts[e]);
    if s.sched.Offering? { OfferingAhead(s, e); } else { ElsewhereAhead(s, e); }
  }

  lemma StepAhead(s: Pipeline, l: Label, e: nat)
    requires Inv(s) && Enabled(s, l) && e < |s.posts| && Roomy(s, e) && InHand(s).Some?
    requires |Apply(s, l).dispatched| == |s.dispatched|
    ensures var s' := Apply(s, l);
      && Sizes(s') && SameSizes(s, s') && Ahead(s', e) + Count(Fails(s, l)) <= Ahead(s, e)
  {
    hide Inv;
    match l
    case Agent(t, spurious) => AgentAhead(s, t, spurious, e);
    case Sched => SchedAhead(s, e);
    case _ =>
  }

  lemma StepDispatched(s: Pipeline, s': Pipeline, x: Option<L.Event>)
    requires Sizes(s) && Sizes(s') && Follows(s, s', x)
    ensures |s'.dispatched| >= |s.dispatched| && |s'.posts| == |s.posts|
  {
    assert View(s).dispatched == s.dispatched && View(s').dispatched == s'.dispatched;
    assert |View(s).lanes| == |s.posts| && |View(s').lanes| == |s'.posts|;
  }

  /** Handles are only ever placed, never unplaced. */
  lemma {:induction false} DispatchedGrows(s: Pipeline, run: seq<Label>)
    requires Inv(s) && EnabledAll(s, run)
    ensures |ApplyAll(s, run).dispatched| >= |s.dispatched|
    decreases |run|
  {
    if run != [] {
      StepRefines(s, run[0]);
      StepDispatched(s, Apply(s, run[0]), EventOf(s, run[0]));
      DispatchedGrows(Apply(s, run[0]), run[1..]);
    }
  }

  /** One step, then the rest of a run in which the handle is not placed. */
  lemma FirstStep(s: Pipeline, run: seq<Label>, e: nat)
    requires Inv(s) && run != [] && EnabledAll(s, run) && e < |s.posts| && Roomy(s, e) && InHand(s).Some?
    requires |ApplyAll(s, run).dispatched| == |s.dispatched|
    ensures var s' := Apply(s, run[0]);
      && Inv(s') && |s'.posts| == |s.posts| && |s'.dispatched| == |s.dispatched|
      && Roomy(s', e) && InHand(s').Some?
  {
    var s' := Apply(s, run[0]);
    StepRefines(s, run[0]);
    StepDispatched(s, s', EventOf(s, run[0]));
    DispatchedGrows(s', run[1..]);
    StepAhead(s, run[0], e);
    StepKeepsRoom(s, s', EventOf(s, run[0]), e);
  }

  lemma {:induction false} FailuresAreAhead(s: Pipeline, run: seq<Label>, e: nat)
    requires Inv(s) && EnabledAll(s, run) && e < |s.posts| && Roomy(s, e) && InHand(s).Some?
    requires |ApplyAll(s, run).dispatched| == |s.dispatched|
    ensures FailedOffers(s, run) <= Ahead(s, e)
    decreases |run|
  {
    if run != [] {
      FirstStep(s, run, e);
      StepAhead(s, run[0], e);
      FailuresAreAhead(Apply(s, run[0]), run[1..], e);
    }
  }

  /** If some executor has room when the scheduler is about to offer its handle, then in no
      run, whatever the other threads do, do as many offers fail as there are executors before
      the handle is placed. */
  lemma BoundedPlacement(s: Pipeline, run: seq<Label>, e: nat)
    requires Inv(s) && EnabledAll(s, run) && e < |s.posts| && HasRoom(s, e)
    requires !s.sched.Offering? && InHand(s).Some?
    ensures |ApplyAll(s, run).dispatched| == |s.dispatched| ==> FailedOffers(s, run) < |s.posts|
  {
    assert P.Inv(s.posts[e]);
    if |ApplyAll(s, run).dispatched| == |s.dispatched| { FailuresAreAhead(s, run, e); }
  }
}
