// The whole pipeline as one state machine: outside producers, the scheduler thread and the
// executor threads over one slot allocator, one pre-scheduler ring and one ring per executor.
// Scheduler::run is in include/Scheduler.hpp, Executor::run in Executor.cpp.
module PipelineMachine {
  import opened Base
  import opened Handles
  import S = StorageMachine
  import Q = PreQueueMachine
  import P = PostQueueMachine
  import L = Ledger

  /** Where an agent stands outside the components. Agents below the number of executors are
      executors, the others are producers calling Scheduler::push. */
  datatype AgentPc =
    | Outside                              // producer: between two pushes
    | Checking(a: Action)                  // producer: before the load of the scheduler's flag
    | Registering                          // in push: inside register_action
    | Enqueueing                           // in push: inside the ring
    | Undoing                              // in push: inside remove_action, the ring was full
    | Testing                              // executor: before the loop condition
    | Popping                              // executor: inside the ring's pop
    | Redeeming                            // executor: inside remove_action
    | Running(cell: Option<Action>)        // executor: about to run the action
    | Deciding(next: Option<Action>)       // executor: about to feed the continuation back
    | Stopped                              // executor: left its loop
    | Crashed                              // executor: ran an empty action

  datatype SchedPc =
    | Testing                              // before the loop condition
    | Popping                              // inside the pre-scheduler ring's pop
    | Offering                             // inside an executor's push
    | Exited

  /** The last three fields are history: the place of every issued handle, the executor each
      placed handle went to, and the actions each executor ran. */
  datatype Pipeline = Pipeline(
    store: S.Storage,
    pre: Q.Ring,
    posts: seq<P.Ring>,
    agent: seq<AgentPc>,
    sched: SchedPc,
    pending: Option<Handle>,
    index: nat,
    open: bool,                            // what Scheduler::push reads
    scheduling: bool,                      // what the scheduler's loop condition reads
    running: seq<bool>,                    // what each executor's loop condition reads
    place: map<Handle, L.Where>,
    dispatched: seq<nat>,
    executed: seq<seq<Action>>)

  datatype Config = Config(slots: nat, ring: nat, executors: nat, queue: nat, producers: nat)

  /** The allocator needs a slot and an index for it, there is an executor, and the
      pre-scheduler ring has the two slots its marks need. */
  predicate Sound(c: Config)
  {
    1 <= c.slots <= S.INVALID_INDEX && 2 <= c.ring && 1 <= c.executors && 1 <= c.queue
  }

  function Init(c: Config): Pipeline
    requires Sound(c)
  {
    var agents := c.executors + c.producers;
    Pipeline(
      S.Init(c.slots, agents),
      Q.Init(c.ring, agents),
      seq(c.executors, e => P.Init(c.queue)),
      seq(agents, t => if t < c.executors then AgentPc.Testing else Outside),
      SchedPc.Testing, None, 0, true, true,
      seq(c.executors, e => true),
      map[], [],
      seq(c.executors, e => []))
  }

  datatype Label =
    | Begin(t: nat, a: Action)             // a producer calls Scheduler::push
    | Agent(t: nat, spurious: bool)        // the next step of an agent
    | Sched                                // the next step of the scheduler
    | SetOpen(flag: bool)                  // the flags may flip at any time
    | SetScheduling(flag: bool)
    | SetRunning(e: nat, flag: bool)

  predicate Sizes(s: Pipeline)
  {
    && 1 <= |s.posts| == |s.running| == |s.executed| <= |s.agent|
    && |s.agent| == |s.store.pc| == |s.pre.producer|
    && s.index < |s.posts|
  }

  // ----- the steps of an agent -----

  /** Where an agent goes when its push is over. */
  function Home(s: Pipeline, t: nat): AgentPc
  {
    if t < |s.posts| then AgentPc.Testing else Outside
  }

  function Goto(s: Pipeline, t: nat, pc: AgentPc): Pipeline
    requires t < |s.agent|
  {
    s.(agent := s.agent[t := pc])
  }

  /** One step inside the slot allocator, with the handle's place kept up to date. */
  function StoreStep(s: Pipeline, t: nat, spurious: bool): Pipeline
    requires S.Enabled(s.store, S.Internally(t, spurious))
  {
    var store := S.Apply(s.store, S.Internally(t, spurious));
    var place :=
      if s.store.pc[t].RegGen? && store.pc[t].RegDone? && store.pc[t].handle.Some? then
        s.place[store.pc[t].handle.value := L.Held(t)]
      else if s.store.pc[t].RemCas? && store.pc[t].RemMove? then
        s.place[s.store.pc[t].h := L.Redeemed]
      else s.place;
    s.(store := store, place := place)
  }

  /** One step inside the pre-scheduler ring, likewise. */
  function RingStep(s: Pipeline, t: nat, spurious: bool): Pipeline
    requires Q.Enabled(s.pre, Q.Produce(t, spurious))
  {
    var pc := s.pre.producer[t];
    var pre := Q.Apply(s.pre, Q.Produce(t, spurious));
    s.(pre := pre,
       place := if pc.ClaimPos? && pre.enqueue != s.pre.enqueue then s.place[pc.h := L.Queued(pc.pos)]
                else s.place)
  }

  function RegisteringStep(s: Pipeline, t: nat, spurious: bool): Pipeline
    requires Sizes(s) && Enabled(s, Agent(t, spurious)) && s.agent[t].Registering?
  {
    match s.store.pc[t]
    case RegDone(None) => Goto(s.(store := S.Apply(s.store, S.Return(t))), t, Home(s, t))
    case RegDone(Some(h)) =>
      Goto(s.(store := S.Apply(s.store, S.Return(t)), pre := Q.Apply(s.pre, Q.CallPush(t, h))),
           t, Enqueueing)
    case _ => StoreStep(s, t, spurious)
  }

  function EnqueueingStep(s: Pipeline, t: nat, spurious: bool): Pipeline
    requires Sizes(s) && Enabled(s, Agent(t, spurious)) && s.agent[t].Enqueueing?
  {
    match s.pre.producer[t]
    case Accepted => Goto(s.(pre := Q.Apply(s.pre, Q.ReturnPush(t))), t, Home(s, t))
    case Rejected(h) =>
      Goto(s.(pre := Q.Apply(s.pre, Q.ReturnPush(t)), store := S.Apply(s.store, S.CallRemove(t, h))),
           t, Undoing)
    case _ => RingStep(s, t, spurious)
  }

  function UndoingStep(s: Pipeline, t: nat, spurious: bool): Pipeline
    requires Sizes(s) && Enabled(s, Agent(t, spurious)) && s.agent[t].Undoing?
  {
    if s.store.pc[t].RemDone? then
      Goto(s.(store := S.Apply(s.store, S.Return(t))), t, Home(s, t))
    else StoreStep(s, t, spurious)
  }

  function PostApply(s: Pipeline, e: nat, l: P.Label): Pipeline
    requires e < |s.posts| && P.Enabled(s.posts[e], l)
  {
    s.(posts := s.posts[e := P.Apply(s.posts[e], l)])
  }

  function PoppingStep(s: Pipeline, e: nat): Pipeline
    requires Sizes(s) && Enabled(s, Agent(e, false)) && s.agent[e] == AgentPc.Popping
  {
    match s.posts[e].consumer
    case Redeeming(h) => Goto(s.(store := S.Apply(s.store, S.CallRemove(e, h))), e, Redeeming)
    case Popped(result) =>
      Goto(PostApply(s, e, P.ReturnPop), e,
           if result.None? then AgentPc.Testing else Running(result.value))
    case _ => PostApply(s, e, P.Consume)
  }

  function RedeemingStep(s: Pipeline, e: nat, spurious: bool): Pipeline
    requires Sizes(s) && Enabled(s, Agent(e, spurious)) && s.agent[e].Redeeming?
  {
    match s.store.pc[e]
    case RemDone(result) =>
      Goto(PostApply(s, e, P.Redeemed(result)).(store := S.Apply(s.store, S.Return(e))),
           e, AgentPc.Popping)
    case _ => StoreStep(s, e, spurious)
  }

  function RunningStep(s: Pipeline, e: nat): Pipeline
    requires Sizes(s) && e < |s.posts| && s.agent[e].Running?
  {
    match s.agent[e].cell
    case None => Goto(s, e, Crashed)
    case Some(a) =>
      Goto(s.(executed := s.executed[e := s.executed[e] + [a]]), e, Deciding(a.continuation))
  }

  /** Starting register_action for the action being pushed. */
  function StartPush(s: Pipeline, t: nat, a: Action): Pipeline
    requires Sizes(s) && S.Enabled(s.store, S.CallRegister(t, a))
  {
    Goto(s.(store := S.Apply(s.store, S.CallRegister(t, a))), t, Registering)
  }

  function AgentStep(s: Pipeline, t: nat, spurious: bool): Pipeline
    requires Enabled(s, Agent(t, spurious))
  {
    match s.agent[t]
    case Checking(a) => if s.open then StartPush(s, t, a) else Goto(s, t, Outside)
    case Registering => RegisteringStep(s, t, spurious)
    case Enqueueing => EnqueueingStep(s, t, spurious)
    case Undoing => UndoingStep(s, t, spurious)
    case Testing =>
      if s.running[t] then Goto(PostApply(s, t, P.CallPop), t, AgentPc.Popping) else Goto(s, t, Stopped)
    case Popping => PoppingStep(s, t)
    case Redeeming => RedeemingStep(s, t, spurious)
    case Running(_) => RunningStep(s, t)
    case Deciding(next) =>
      if next.Some? && s.running[t] then StartPush(s, t, next.value) else Goto(s, t, AgentPc.Testing)
  }

  // ----- the steps of the scheduler -----

  /** Pick the next executor in turn and call its push. */
  function Offer(s: Pipeline, h: Handle): Pipeline
    requires Sizes(s)
  {
    var index := (s.index + 1) % |s.posts|;
    s.(index := index, pending := Some(h), sched := Offering,
       posts := s.posts[index := s.posts[index].(producer := P.TestFree(h))])
  }

  function OfferingStep(s: Pipeline): Pipeline
    requires Sizes(s) && Enabled(s, Sched) && s.sched.Offering?
  {
    var ring := s.posts[s.index];
    if ring.producer.Pushed? then
      PostApply(s, s.index, P.ReturnPush).(
        pending := if ring.producer.ok then None else s.pending,
        sched := SchedPc.Testing)
    else if ring.producer.SetActive? then
      PostApply(s, s.index, P.Produce).(
        place := s.place[ring.producer.h := L.Posted(s.index, P.Back(ring))],
        dispatched := s.dispatched + [s.index])
    else
      PostApply(s, s.index, P.Produce)
  }

  function SchedPoppingStep(s: Pipeline): Pipeline
    requires Sizes(s) && Enabled(s, Sched) && s.sched == SchedPc.Popping
  {
    match s.pre.consumer
    case Popped(None) =>
      s.(pre := Q.Apply(s.pre, Q.ReturnPop), sched := SchedPc.Testing)
    case Popped(Some(h)) => Offer(s.(pre := Q.Apply(s.pre, Q.ReturnPop)), h)
    case FreeSlot(_, h) => s.(pre := Q.Apply(s.pre, Q.Consume), place := s.place[h := L.InHand])
    case _ => s.(pre := Q.Apply(s.pre, Q.Consume))
  }

  function SchedStep(s: Pipeline): Pipeline
    requires Enabled(s, Sched)
  {
    match s.sched
    case Testing =>
      if !s.scheduling then s.(sched := Exited)
      else if s.pending.Some? then Offer(s, s.pending.value)
      else s.(pre := Q.Apply(s.pre, Q.CallPop), sched := SchedPc.Popping)
    case Popping => SchedPoppingStep(s)
    case Offering => OfferingStep(s)
  }

  // ----- all steps -----

  predicate AgentEnabled(s: Pipeline, t: nat, spurious: bool)
    requires Sizes(s) && t < |s.agent|
  {
    match s.agent[t]
    case Outside => false
    case Stopped => false
    case Crashed => false
    case Checking(a) => S.Enabled(s.store, S.CallRegister(t, a))
    case Registering =>
      (match s.store.pc[t]
       case RegDone(None) => S.Enabled(s.store, S.Return(t))
       case RegDone(Some(h)) => S.Enabled(s.store, S.Return(t)) && Q.Enabled(s.pre, Q.CallPush(t, h))
       case _ => S.Enabled(s.store, S.Internally(t, spurious)))
    case Enqueueing =>
      (match s.pre.producer[t]
       case Accepted => Q.Enabled(s.pre, Q.ReturnPush(t))
       case Rejected(h) => Q.Enabled(s.pre, Q.ReturnPush(t)) && S.Enabled(s.store, S.CallRemove(t, h))
       case _ => Q.Enabled(s.pre, Q.Produce(t, spurious)))
    case Undoing =>
      if s.store.pc[t].RemDone? then S.Enabled(s.store, S.Return(t))
      else S.Enabled(s.store, S.Internally(t, spurious))
    case Testing => t < |s.posts| && P.Enabled(s.posts[t], P.CallPop)
    case Popping =>
      && t < |s.posts|
      && (match s.posts[t].consumer
          case Redeeming(h) => S.Enabled(s.store, S.CallRemove(t, h))
          case Popped(_) => P.Enabled(s.posts[t], P.ReturnPop)
          case _ => P.Enabled(s.posts[t], P.Consume))
    case Redeeming =>
      && t < |s.posts|
      && (match s.store.pc[t]
          case RemDone(result) => S.Enabled(s.store, S.Return(t)) && P.Enabled(s.posts[t], P.Redeemed(result))
          case _ => S.Enabled(s.store, S.Internally(t, spurious)))
    case Running(_) => t < |s.posts|
    case Deciding(next) =>
      t < |s.posts| && (next.Some? ==> S.Enabled(s.store, S.CallRegister(t, next.value)))
  }

  predicate SchedEnabled(s: Pipeline)
    requires Sizes(s)
  {
    match s.sched
    case Testing => Q.Enabled(s.pre, Q.CallPop)
    case Popping =>
      if s.pre.consumer.Popped? then Q.Enabled(s.pre, Q.ReturnPop) else Q.Enabled(s.pre, Q.Consume)
    case Offering =>
      if s.posts[s.index].producer.Pushed? then P.Enabled(s.posts[s.index], P.ReturnPush)
      else P.Enabled(s.posts[s.index], P.Produce)
    case Exited => false
  }

  predicate Enabled(s: Pipeline, l: Label)
  {
    && Sizes(s)
    && match l
       case Begin(t, _) => |s.posts| <= t < |s.agent| && s.agent[t].Outside?
       case Agent(t, spurious) => t < |s.agent| && AgentEnabled(s, t, spurious)
       case Sched => SchedEnabled(s)
       case SetOpen(_) => true
       case SetScheduling(_) => true
       case SetRunning(e, _) => e < |s.running|
  }

  function Apply(s: Pipeline, l: Label): Pipeline
    requires Enabled(s, l)
  {
    match l
    case Begin(t, a) => Goto(s, t, Checking(a))
    case Agent(t, spurious) => AgentStep(s, t, spurious)
    case Sched => SchedStep(s)
    case SetOpen(flag) => s.(open := flag)
    case SetScheduling(flag) => s.(scheduling := flag)
    case SetRunning(e, flag) => s.(running := s.running[e := flag])
  }

  predicate EnabledAll(s: Pipeline, run: seq<Label>)
    decreases |run|
  {
    run == [] || (Enabled(s, run[0]) && EnabledAll(Apply(s, run[0]), run[1..]))
  }

  function ApplyAll(s: Pipeline, run: seq<Label>): Pipeline
    requires EnabledAll(s, run)
    decreases |run|
  {
    if run == [] then s else ApplyAll(Apply(s, run[0]), run[1..])
  }
}
