// Nothing is dropped on the way. For every action, the times it was executed and the times it is
// still to be executed change only when someone calls push, and when a load tells that the flag is
// down, that there is no free slot, or that the ring is full.
module Conservation {
  import opened Base
  import opened Handles
  import S = StorageMachine
  import Q = PreQueueMachine
  import P = PostQueueMachine
  import L = Ledger
  import opened PipelineMachine
  import opened PipelineInv
  import opened Work
  import opened Advance

  // ----- how often an action is to be executed -----

  /** In the chain that an action starts. */
  function Times(x: Action, a: Action): nat
  {
    Count(a == x) + match a.continuation { case None => 0 case Some(b) => Times(x, b) }
  }

  function TimesIn(x: Action, a: Option<Action>): nat
  {
    match a case None => 0 case Some(b) => Times(x, b)
  }

  function TimesOf(x: Action, issued: map<Handle, Action>, h: Handle): nat
  {
    if h in issued then Times(x, issued[h]) else 0
  }

  /** The action of a handle that was accepted and not redeemed. */
  function PlaceDue(x: Action, issued: map<Handle, Action>, place: map<Handle, L.Where>, h: Handle): nat
  {
    if h in place && (place[h].Queued? || place[h].InHand? || place[h].Posted?) then TimesOf(x, issued, h) else 0
  }

  function QueueDue(x: Action, v: L.Ledger, issued: map<Handle, Action>): seq<nat>
  {
    seq(|v.claimed|, p requires 0 <= p < |v.claimed| => PlaceDue(x, issued, v.place, v.claimed[p]))
  }

  function CellDue(x: Action, result: Option<Option<Action>>): nat
  {
    match result case None => 0 case Some(cell) => TimesIn(x, cell)
  }

  function RegisterDue(x: Action, issued: map<Handle, Action>, pc: S.Pc): nat
  {
    if S.Registering(pc) then Times(x, pc.a)
    else if pc.RegDone? && pc.handle.Some? then TimesOf(x, issued, pc.handle.value)
    else 0
  }

  /** What an agent has in its hands: an action that it pushes or is about to run, or its
      continuation. */
  function AgentDue(s: Pipeline, x: Action, t: nat): nat
    requires Sizes(s) && t < |s.agent|
  {
    var inStore, inRing := s.store.pc[t], s.pre.producer[t];
    match s.agent[t]
    case Checking(a) => Times(x, a)
    case Registering => RegisterDue(x, s.store.issued, inStore)
    case Enqueueing => if Q.Unclaimed(inRing) && !inRing.Rejected? then TimesOf(x, s.store.issued, inRing.h) else 0
    case Popping =>
      if t >= |s.posts| then 0
      else (match s.posts[t].consumer
            case ClearActive(result) => CellDue(x, result)
            case CountDown(result) => CellDue(x, result)
            case Popped(result) => CellDue(x, result)
            case _ => 0)
    case Redeeming =>
      if inStore.RemDone? then CellDue(x, inStore.result)
      else if S.ReturningPc(inStore) then TimesOf(x, s.store.issued, inStore.h)
      else 0
    case Running(cell) => TimesIn(x, cell)
    case Deciding(next) => TimesIn(x, next)
    case _ => 0
  }

  function AgentsDue(s: Pipeline, x: Action): seq<nat>
    requires Sizes(s)
  {
    seq(|s.agent|, t requires 0 <= t < |s.agent| => AgentDue(s, x, t))
  }

  /** Everything that is still to be executed. */
  function Due(s: Pipeline, x: Action): nat
    requires Sizes(s)
  {
    Sum(AgentsDue(s, x)) + Sum(QueueDue(x, View(s), s.store.issued))
  }

  function CountIn(x: Action, list: seq<Action>): nat
  {
    multiset(list)[x]
  }

  function ExecutedCounts(s: Pipeline, x: Action): seq<nat>
  {
    seq(|s.executed|, e requires 0 <= e < |s.executed| => CountIn(x, s.executed[e]))
  }

  /** How often the executors ran it. */
  function Executed(s: Pipeline, x: Action): nat
  {
    Sum(ExecutedCounts(s, x))
  }

  // ----- what is lost, and when -----

  /** The load of the head that finds no free slot: the first one, or the one of an exchange that
      fails. */
  predicate FindsNoSlot(m: S.Storage, pc: S.Pc, spurious: bool)
  {
    m.head.index == S.INVALID_INDEX && (pc.RegLoad? || (pc.RegCas? && (pc.seen != m.head || spurious)))
  }

  /** The load of a sequence number that finds the ring full. */
  predicate FindsFull(ring: Q.Ring, pc: Q.PushPc)
  {
    pc.LoadSeq? && pc.pos == ring.enqueue == Q.Front(ring) + |ring.sequence|
  }

  /** The action that is given up by this step, with all that would have followed from it. */
  function GivenUp(s: Pipeline, l: Label): Option<Action>
    requires Enabled(s, l)
  {
    if !l.Agent? then None
    else
      var inStore, inRing := s.store.pc[l.t], s.pre.producer[l.t];
      match s.agent[l.t]
      case Checking(a) => if s.open then None else Some(a)
      case Registering => if FindsNoSlot(s.store, inStore, l.spurious) then Some(inStore.a) else None
      case Enqueueing =>
        if FindsFull(s.pre, inRing) && inRing.h in s.store.issued then Some(s.store.issued[inRing.h]) else None
      case Deciding(next) => if l.t < |s.running| && s.running[l.t] then None else next
      case _ => None
  }

  function Begun(l: Label): Option<Action>
  {
    if l.Begin? then Some(l.a) else None
  }

  /** The books are balanced: what is executed and due afterwards, and what was given up, is what was
      executed and due before, and what was begun. */
  ghost predicate Balanced(s: Pipeline, s': Pipeline, x: Action, begun: Option<Action>, lost: Option<Action>)
    requires Sizes(s)
  {
    && Sizes(s')
    && Executed(s', x) + Due(s', x) + TimesIn(x, lost) == Executed(s, x) + Due(s, x) + TimesIn(x, begun)
  }

  // ----- one agent at a time -----

  lemma OthersDue(s: Pipeline, s': Pipeline, x: Action, t: nat)
    requires Sizes(s) && Carried(s) && t < |s.agent| && AgentFrame(s, s', t)
    ensures Sum(AgentsDue(s', x)) + AgentDue(s, x, t) == Sum(AgentsDue(s, x)) + AgentDue(s', x, t)
  {
    forall u | 0 <= u < |s.agent| && u != t ensures AgentDue(s', x, u) == AgentDue(s, x, u) {
      var h := Holding(s, u);
    }
    assert AgentsDue(s', x) == AgentsDue(s, x)[t := AgentDue(s', x, t)];
    SumUpdate(AgentsDue(s, x), t, AgentDue(s', x, t));
  }

  /** The share of the books that a step of agent t can change. */
  function DueShare(s: Pipeline, x: Action, t: nat): nat
    requires Sizes(s) && t < |s.agent|
  {
    AgentDue(s, x, t) + Sum(QueueDue(x, View(s), s.store.issued))
  }

  lemma Balances(s: Pipeline, s': Pipeline, x: Action, t: nat, lost: Option<Action>)
    requires Sizes(s) && Carried(s) && t < |s.agent| && AgentFrame(s, s', t) && s'.executed == s.executed
    requires DueShare(s', x, t) + TimesIn(x, lost) == DueShare(s, x, t)
    ensures Balanced(s, s', x, None, lost)
  {
    OthersDue(s, s', x, t);
  }

  lemma SameQueueDue(s: Pipeline, s': Pipeline, x: Action)
    requires Sizes(s) && Sizes(s')
    requires s'.place == s.place && s'.pre.claimed == s.pre.claimed && s'.store.issued == s.store.issued
    ensures QueueDue(x, View(s'), s'.store.issued) == QueueDue(x, View(s), s.store.issued)
  {
  }

  // ----- what an event of the ledger does to the queues -----

  lemma QueueDueMoved(x: Action, v: L.Ledger, issued: map<Handle, Action>, p: nat, w: L.Where)
    requires Distinct(v.claimed) && p < |v.claimed|
    ensures QueueDue(x, L.Move(v, v.claimed[p], w), issued)
      == QueueDue(x, v, issued)[p := PlaceDue(x, issued, v.place[v.claimed[p] := w], v.claimed[p])]
  {
  }

  lemma QueueDueUnmoved(x: Action, v: L.Ledger, issued: map<Handle, Action>, h: Handle, w: L.Where,
                        issued': map<Handle, Action>)
    requires h !in v.claimed && Grows(issued, issued')
    requires forall g :: g in issued' && g !in issued ==> g == h
    ensures QueueDue(x, L.Move(v, h, w), issued') == QueueDue(x, v, issued)
  {
  }

  function TotalDue(x: Action, v: L.Ledger, issued: map<Handle, Action>): nat
  {
    Sum(QueueDue(x, v, issued))
  }

  lemma CancelDue(x: Action, v: L.Ledger, t: nat, issued: map<Handle, Action>)
    requires L.Inv(v) && L.Allowed(v, L.Cancel(t))
    ensures TotalDue(x, L.Do(v, L.Cancel(t)), issued) == TotalDue(x, v, issued)
  {
    var v', h := L.Do(v, L.Cancel(t)), v.held[t].value;
    assert L.At(v, h, L.Held(t));
    QueueDueUnmoved(x, v, issued, h, L.Redeemed, issued);
    assert QueueDue(x, v', issued) == QueueDue(x, L.Move(v, h, L.Redeemed), issued);
  }

  lemma ClaimDue(x: Action, v: L.Ledger, t: nat, issued: map<Handle, Action>)
    requires L.Inv(v) && L.Allowed(v, L.Claim(t))
    ensures TotalDue(x, L.Do(v, L.Claim(t)), issued) == TotalDue(x, v, issued) + TimesOf(x, issued, v.held[t].value)
  {
    var v', h := L.Do(v, L.Claim(t)), v.held[t].value;
    assert L.At(v, h, L.Held(t));
    QueueDueUnmoved(x, v, issued, h, L.Queued(|v.claimed|), issued);
    assert QueueDue(x, v', issued) == QueueDue(x, v, issued) + [TimesOf(x, issued, h)];
    SumAppend(QueueDue(x, v, issued), TimesOf(x, issued, h));
  }

  lemma TakeDue(x: Action, v: L.Ledger, issued: map<Handle, Action>)
    requires L.Inv(v) && L.Allowed(v, L.Take)
    ensures TotalDue(x, L.Do(v, L.Take), issued) == TotalDue(x, v, issued)
  {
    var h := v.claimed[v.front];
    assert L.At(v, h, L.Queued(v.front));
    QueueDueMoved(x, v, issued, v.front, L.InHand);
    assert QueueDue(x, L.Do(v, L.Take), issued) == QueueDue(x, v, issued);
  }

  lemma DeliverDue(x: Action, v: L.Ledger, e: nat, issued: map<Handle, Action>)
    requires L.HandOk(v) && L.ClaimsOk(v) && L.OrderOk(v) && L.Allowed(v, L.Deliver(e))
    ensures TotalDue(x, L.Do(v, L.Deliver(e)), issued) == TotalDue(x, v, issued)
  {
    var p := |v.dispatched|;
    QueueDueMoved(x, v, issued, p, L.Posted(e, |v.lanes[e].pushed|));
    assert QueueDue(x, L.Do(v, L.Deliver(e)), issued) == QueueDue(x, v, issued);
  }

  lemma RedeemDue(x: Action, v: L.Ledger, e: nat, issued: map<Handle, Action>)
    requires L.LanesOk(v) && L.ClaimsOk(v) && L.OrderOk(v) && L.Allowed(v, L.Redeem(e))
    ensures TotalDue(x, L.Do(v, L.Redeem(e)), issued) + TimesOf(x, issued, v.lanes[e].pushed[v.lanes[e].front])
      == TotalDue(x, v, issued)
  {
    var lane := v.lanes[e];
    var h := lane.pushed[lane.front];
    assert L.LaneOk(v, e);
    SelectedFrom(v.claimed, v.dispatched, e, lane.front);
    var p :| 0 <= p < |v.claimed| && v.claimed[p] == h;
    QueueDueMoved(x, v, issued, p, L.Redeemed);
    SumUpdate(QueueDue(x, v, issued), p, 0);
    assert QueueDue(x, L.Do(v, L.Redeem(e)), issued) == QueueDue(x, L.Move(v, h, L.Redeemed), issued);
  }

  // ----- inside the allocator -----

  /** A step inside register_action that issues nothing. */
  lemma RegisterBalances(s: Pipeline, s': Pipeline, x: Action, t: nat, lost: Option<Action>)
    requires Plain(s, s', t) && Carried(s) && s.agent[t].Registering? && S.Registering(s.store.pc[t])
    requires if lost.Some? then lost == Some(s.store.pc[t].a) && s'.store.pc[t] == S.RegDone(None)
             else S.Registering(s'.store.pc[t]) && s'.store.pc[t].a == s.store.pc[t].a
    ensures Balanced(s, s', x, None, lost)
  {
    SameQueueDue(s, s', x);
    Balances(s, s', x, t, lost);
  }

  /** What a load of the head decides. */
  lemma RegisterGoesOn(m: S.Storage, t: nat, spurious: bool)
    requires S.Inv(m) && S.Enabled(m, S.Internally(t, spurious)) && S.Registering(m.pc[t]) && !m.pc[t].RegGen?
    ensures var pc' := S.Apply(m, S.Internally(t, spurious)).pc[t];
      if FindsNoSlot(m, m.pc[t], spurious) then pc' == S.RegDone(None)
      else S.Registering(pc') && pc'.a == m.pc[t].a
  {
    assert S.ThreadOk(m, t);
  }

  /** A step inside remove_action after the handle was redeemed, or on a handle being undone. */
  lemma ReturnBalances(s: Pipeline, s': Pipeline, x: Action, t: nat)
    requires Plain(s, s', t) && Carried(s)
    requires (s.agent[t].Undoing? || s.agent[t].Redeeming?) && S.ReturningPc(s.store.pc[t])
    requires s.store.pc[t].h in s.store.issued
    requires s'.store.pc[t] == S.RemDone(Some(Some(s.store.issued[s.store.pc[t].h])))
      || (S.ReturningPc(s'.store.pc[t]) && s'.store.pc[t].h == s.store.pc[t].h)
    ensures Balanced(s, s', x, None, None)
  {
    SameQueueDue(s, s', x);
    Balances(s, s', x, t, None);
  }

  lemma RegisterStepBalances(s: Pipeline, x: Action, t: nat, spurious: bool)
    requires Sizes(s) && S.Inv(s.store) && Carried(s) && t < |s.agent| && AgentOk(s, t) && InStore(s.agent[t])
    requires S.Registering(s.store.pc[t]) && !s.store.pc[t].RegGen?
    requires S.Enabled(s.store, S.Internally(t, spurious)) && Enabled(s, Agent(t, spurious))
    ensures Balanced(s, StoreStep(s, t, spurious), x, None, GivenUp(s, Agent(t, spurious)))
  {
    hide S.Apply, S.Inv, Carried, Balanced;
    StoreSpares(s, t, spurious);
    StoreStepShape(s, t, spurious);
    RegisterFuel(s.store, t, spurious);
    RegisterGoesOn(s.store, t, spurious);
    RegisterBalances(s, StoreStep(s, t, spurious), x, t, GivenUp(s, Agent(t, spurious)));
  }

  lemma ReturnStepBalances(s: Pipeline, x: Action, t: nat, spurious: bool)
    requires Sizes(s) && S.Inv(s.store) && Carried(s) && t < |s.agent| && AgentOk(s, t) && InStore(s.agent[t])
    requires S.ReturningPc(s.store.pc[t])
    requires S.Enabled(s.store, S.Internally(t, spurious)) && Enabled(s, Agent(t, spurious))
    ensures Balanced(s, StoreStep(s, t, spurious), x, None, GivenUp(s, Agent(t, spurious)))
  {
    hide S.Apply, S.Inv, Carried, Balanced;
    StoreSpares(s, t, spurious);
    StoreStepShape(s, t, spurious);
    ReturnFuel(s.store, t, spurious);
    ReturnBalances(s, StoreStep(s, t, spurious), x, t);
  }

  lemma IssueBalances(s: Pipeline, s': Pipeline, x: Action, t: nat, h: Handle)
    requires StoreOnly(s, s', t, s.place[h := L.Held(t)]) && Spares(s, s', t) && Carried(s)
    requires L.ClaimsOk(View(s)) && h !in s.place
    requires s.agent[t].Registering? && s.store.pc[t].RegGen? && s'.store.pc[t] == S.RegDone(Some(h))
    requires s'.store.issued == s.store.issued[h := s.store.pc[t].a] && h !in s.store.issued
    ensures Balanced(s, s', x, None, None)
  {
    assert h !in View(s).claimed;
    QueueDueUnmoved(x, View(s), s.store.issued, h, L.Held(t), s'.store.issued);
    assert QueueDue(x, View(s'), s'.store.issued) == QueueDue(x, L.Move(View(s), h, L.Held(t)), s'.store.issued);
    Balances(s, s', x, t, None);
  }

  lemma IssuingBalances(s: Pipeline, x: Action, t: nat, spurious: bool)
    requires Coupled(s) && S.Inv(s.store) && L.ClaimsOk(View(s)) && Carried(s)
    requires t < |s.agent| && s.agent[t].Registering? && s.store.pc[t].RegGen?
    requires S.Enabled(s.store, S.Internally(t, spurious))
    ensures Balanced(s, StoreStep(s, t, spurious), x, None, None)
  {
    StoreSpares(s, t, spurious);
    StoreStepShape(s, t, spurious);
    var h := Handle(s.store.pc[t].index, s.store.generation[s.store.pc[t].index]);
    assert h !in s.place.Keys;
    IssueBalances(s, StoreStep(s, t, spurious), x, t, h);
  }

  lemma CancelBalances(s: Pipeline, s': Pipeline, x: Action, t: nat, h: Handle)
    requires StoreOnly(s, s', t, s.place[h := L.Redeemed]) && Spares(s, s', t) && Carried(s)
    requires s.agent[t].Undoing? && s.store.pc[t] == S.RemCas(h)
    requires s'.store.issued == s.store.issued && s'.store.pc[t] == S.RemMove(h)
    requires TotalDue(x, View(s'), s.store.issued) == TotalDue(x, View(s), s.store.issued)
    ensures Balanced(s, s', x, None, None)
  {
    Balances(s, s', x, t, None);
  }

  lemma CancellingBalances(s: Pipeline, x: Action, t: nat, spurious: bool)
    requires Coupled(s) && S.Inv(s.store) && L.Inv(View(s)) && Carried(s)
    requires t < |s.agent| && s.agent[t].Undoing? && s.store.pc[t].RemCas? && S.IsLive(s.store, s.store.pc[t].h)
    requires S.Enabled(s.store, S.Internally(t, spurious))
    ensures Balanced(s, StoreStep(s, t, spurious), x, None, None)
  {
    var s' := StoreStep(s, t, spurious);
    StoreSpares(s, t, spurious);
    StoreStepShape(s, t, spurious);
    CancelStep(s, s', t, s.store.pc[t].h);
    CancelDue(x, View(s), t, s.store.issued);
    CancelBalances(s, s', x, t, s.store.pc[t].h);
  }

  lemma RedeemBalances(s: Pipeline, s': Pipeline, x: Action, t: nat, h: Handle)
    requires StoreOnly(s, s', t, s.place[h := L.Redeemed]) && Spares(s, s', t) && Carried(s)
    requires s.agent[t].Redeeming? && s.store.pc[t] == S.RemCas(h) && h in s.store.issued
    requires s'.store.issued == s.store.issued && s'.store.pc[t] == S.RemMove(h)
    requires TotalDue(x, View(s'), s.store.issued) + TimesOf(x, s.store.issued, h)
      == TotalDue(x, View(s), s.store.issued)
    ensures Balanced(s, s', x, None, None)
  {
    Balances(s, s', x, t, None);
  }

  lemma RedeemingBalances(s: Pipeline, x: Action, t: nat, spurious: bool)
    requires Coupled(s) && S.Inv(s.store) && L.Inv(View(s)) && Carried(s)
    requires t < |s.posts| && s.agent[t].Redeeming? && s.store.pc[t].RemCas? && S.IsLive(s.store, s.store.pc[t].h)
    requires S.Enabled(s.store, S.Internally(t, spurious))
    requires P.Front(s.posts[t]) < |s.posts[t].pushed|
      && s.posts[t].pushed[P.Front(s.posts[t])] == s.store.pc[t].h
    ensures Balanced(s, StoreStep(s, t, spurious), x, None, None)
  {
    var s' := StoreStep(s, t, spurious);
    StoreSpares(s, t, spurious);
    StoreStepShape(s, t, spurious);
    RedeemStep(s, s', t, s.store.pc[t].h);
    assert View(s).lanes[t] == LaneOf(s, t);
    RedeemDue(x, View(s), t, s.store.issued);
    RedeemBalances(s, s', x, t, s.store.pc[t].h);
  }

  // ----- between the calls -----

  lemma CountersBalance(s: Pipeline, s': Pipeline, x: Action, t: nat, pc: AgentPc, inStore: S.Pc, inRing: Q.PushPc,
                        lost: Option<Action>)
    requires Sizes(s) && Carried(s) && t < |s.agent| && s' == Counters(s, t, pc, inStore, inRing)
    requires AgentDue(s', x, t) + TimesIn(x, lost) == AgentDue(s, x, t)
    ensures Balanced(s, s', x, None, lost)
  {
    SameQueueDue(s, s', x);
    Balances(s, s', x, t, lost);
  }

  lemma ConsumerBalances(s: Pipeline, s': Pipeline, x: Action, e: nat, pc: AgentPc, inStore: S.Pc, consumer: P.PopPc)
    requires Sizes(s) && Carried(s) && e < |s.posts|
    requires s' == Consuming(Counters(s, e, pc, inStore, s.pre.producer[e]), e, consumer)
    requires AgentDue(s', x, e) == AgentDue(s, x, e)
    ensures Balanced(s, s', x, None, None)
  {
    SameQueueDue(s, s', x);
    Balances(s, s', x, e, None);
  }

  /** register_action returned: the handle is carried on, or the push gives up. */
  lemma RegisteringReturnBalances(s: Pipeline, x: Action, t: nat)
    requires Sizes(s) && Carried(s) && t < |s.agent| && AgentOk(s, t)
    requires s.agent[t].Registering? && s.store.pc[t].RegDone? && AgentEnabled(s, t, false)
    ensures Balanced(s, RegisteringStep(s, t, false), x, None, None)
  {
    NoChange(s.pre.producer, t);
    match s.store.pc[t].handle
    case None => CountersBalance(s, Counters(s, t, Home(s, t), S.Idle, Q.Away), x, t, Home(s, t), S.Idle, Q.Away, None);
    case Some(h) =>
      var inRing := Q.LoadPos(h);
      CountersBalance(s, Counters(s, t, Enqueueing, S.Idle, inRing), x, t, Enqueueing, S.Idle, inRing, None);
  }

  lemma EnqueueingReturnBalances(s: Pipeline, x: Action, t: nat)
    requires Sizes(s) && Carried(s) && t < |s.agent| && AgentOk(s, t)
    requires s.agent[t].Enqueueing? && !Q.ProducerBusy(s.pre.producer[t]) && AgentEnabled(s, t, false)
    ensures Balanced(s, EnqueueingStep(s, t, false), x, None, None)
  {
    NoChange(s.store.pc, t);
    match s.pre.producer[t]
    case Rejected(h) =>
      CountersBalance(s, Counters(s, t, Undoing, S.RemCas(h), Q.Away), x, t, Undoing, S.RemCas(h), Q.Away, None);
    case Accepted =>
      CountersBalance(s, Counters(s, t, Home(s, t), S.Idle, Q.Away), x, t, Home(s, t), S.Idle, Q.Away, None);
  }

  lemma UndoingReturnBalances(s: Pipeline, x: Action, t: nat)
    requires Sizes(s) && Carried(s) && t < |s.agent| && AgentOk(s, t)
    requires s.agent[t].Undoing? && s.store.pc[t].RemDone? && AgentEnabled(s, t, false)
    ensures Balanced(s, UndoingStep(s, t, false), x, None, None)
  {
    NoChange(s.pre.producer, t);
    CountersBalance(s, Counters(s, t, Home(s, t), S.Idle, Q.Away), x, t, Home(s, t), S.Idle, Q.Away, None);
  }

  lemma RedeemingReturnBalances(s: Pipeline, x: Action, e: nat)
    requires Sizes(s) && Carried(s) && e < |s.posts| && AgentOk(s, e) && ExecutorOk(s, e)
    requires s.agent[e].Redeeming? && s.store.pc[e].RemDone? && AgentEnabled(s, e, false)
    ensures Balanced(s, RedeemingStep(s, e, false), x, None, None)
  {
    NoChange(s.pre.producer, e);
    var consumer := P.ClearActive(s.store.pc[e].result);
    ConsumerBalances(s, Consuming(Counters(s, e, AgentPc.Popping, S.Idle, Q.Away), e, consumer), x,
                     e, AgentPc.Popping, S.Idle, consumer);
  }

  lemma StartPushBalances(s: Pipeline, x: Action, t: nat, a: Action)
    requires Sizes(s) && Carried(s) && t < |s.agent| && AgentOk(s, t) && S.Enabled(s.store, S.CallRegister(t, a))
    requires s.agent[t] == Checking(a) || s.agent[t] == Deciding(Some(a))
    ensures Balanced(s, StartPush(s, t, a), x, None, None)
  {
    NoChange(s.pre.producer, t);
    var inStore := S.RegLoad(a);
    CountersBalance(s, Counters(s, t, Registering, inStore, Q.Away), x, t, Registering, inStore, Q.Away, None);
  }

  /** A flag is down, or there is nothing to push: what the agent has in its hands is given up. */
  lemma ControlBalances(s: Pipeline, x: Action, t: nat, pc: AgentPc, lost: Option<Action>)
    requires Sizes(s) && Carried(s) && t < |s.agent| && AgentOk(s, t)
    requires match s.agent[t]
             case Checking(a) => pc == Outside && lost == Some(a)
             case Testing => pc == Stopped && lost == None
             case Deciding(next) => pc == AgentPc.Testing && lost == next
             case _ => false
    ensures Balanced(s, Goto(s, t, pc), x, None, lost)
  {
    NoChange(s.pre.producer, t);
    NoChange(s.store.pc, t);
    CountersBalance(s, Counters(s, t, pc, S.Idle, Q.Away), x, t, pc, S.Idle, Q.Away, lost);
  }

  lemma StartPopBalances(s: Pipeline, x: Action, e: nat)
    requires Sizes(s) && Carried(s) && e < |s.posts| && AgentOk(s, e) && ExecutorOk(s, e)
    requires s.agent[e] == AgentPc.Testing && P.Enabled(s.posts[e], P.CallPop)
    ensures Balanced(s, Goto(PostApply(s, e, P.CallPop), e, AgentPc.Popping), x, None, None)
  {
    NoChange(s.pre.producer, e);
    NoChange(s.store.pc, e);
    ConsumerBalances(s, Consuming(Counters(s, e, AgentPc.Popping, S.Idle, Q.Away), e, P.TestActive), x,
                     e, AgentPc.Popping, S.Idle, P.TestActive);
  }

  lemma StartRedeemBalances(s: Pipeline, x: Action, e: nat)
    requires Sizes(s) && Carried(s) && e < |s.posts| && AgentOk(s, e)
    requires s.agent[e] == AgentPc.Popping && s.posts[e].consumer.Redeeming? && AgentEnabled(s, e, false)
    ensures Balanced(s, PoppingStep(s, e), x, None, None)
  {
    NoChange(s.pre.producer, e);
    var h := s.posts[e].consumer.h;
    CountersBalance(s, Counters(s, e, Redeeming, S.RemCas(h), Q.Away), x, e, Redeeming, S.RemCas(h), Q.Away, None);
  }

  lemma PoppingReturnBalances(s: Pipeline, x: Action, e: nat)
    requires Sizes(s) && Carried(s) && e < |s.posts| && AgentOk(s, e) && ExecutorOk(s, e)
    requires s.agent[e] == AgentPc.Popping && s.posts[e].consumer.Popped? && AgentEnabled(s, e, false)
    ensures Balanced(s, PoppingStep(s, e), x, None, None)
  {
    NoChange(s.pre.producer, e);
    NoChange(s.store.pc, e);
    var result := s.posts[e].consumer.result;
    var pc := if result.None? then AgentPc.Testing else Running(result.value);
    ConsumerBalances(s, Consuming(Counters(s, e, pc, S.Idle, Q.Away), e, P.PopPc.Idle), x,
                     e, pc, S.Idle, P.PopPc.Idle);
  }

  lemma RunningMoves(s: Pipeline, x: Action, e: nat)
    requires Sizes(s) && e < |s.posts| && ExecutorOk(s, e) && s.agent[e].Running?
    ensures var s' := RunningStep(s, e);
      && Sizes(s') && AgentFrame(s, s', e)
      && s' == s.(agent := s'.agent, executed := s'.executed)
      && s'.executed == s.executed[e := s'.executed[e]]
      && AgentDue(s', x, e) + CountIn(x, s'.executed[e]) == AgentDue(s, x, e) + CountIn(x, s.executed[e])
  {
  }

  /** An action that is run is due no more, but its continuation still is. */
  lemma RunningBalances(s: Pipeline, x: Action, e: nat)
    requires Sizes(s) && Carried(s) && e < |s.posts| && ExecutorOk(s, e) && s.agent[e].Running?
    ensures Balanced(s, RunningStep(s, e), x, None, None)
  {
    hide RunningStep, AgentDue, CountIn, Carried;
    var s' := RunningStep(s, e);
    RunningMoves(s, x, e);
    SameQueueDue(s, s', x);
    OthersDue(s, s', x, e);
    var counts := ExecutedCounts(s, x);
    SumUpdate(counts, e, CountIn(x, s'.executed[e]));
    assert ExecutedCounts(s', x) == counts[e := CountIn(x, s'.executed[e])];
  }

  // ----- inside the rings -----

  lemma ClaimBalances(s: Pipeline, s': Pipeline, x: Action, t: nat, h: Handle)
    requires RingOnly(s, s', t, s.place[h := L.Queued(|s.pre.claimed|)]) && Spares(s, s', t) && Carried(s)
    requires s.pre.producer[t].ClaimPos? && s.pre.producer[t].h == h && s'.pre.enqueue != s.pre.enqueue
    requires L.Inv(View(s)) && s.place.Keys == s.store.issued.Keys
    requires L.Allowed(View(s), L.Claim(t)) && View(s') == L.Do(View(s), L.Claim(t))
    ensures Balanced(s, s', x, None, None)
  {
    assert Holding(s, t) == Some(h) && View(s).held[t] == Some(h);
    ClaimDue(x, View(s), t, s.store.issued);
    Balances(s, s', x, t, None);
  }

  lemma RingQuietBalances(s: Pipeline, s': Pipeline, x: Action, t: nat, lost: Option<Action>)
    requires RingOnly(s, s', t, s.place) && Spares(s, s', t) && Carried(s) && s'.pre.claimed == s.pre.claimed
    requires AgentDue(s', x, t) + TimesIn(x, lost) == AgentDue(s, x, t)
    ensures Balanced(s, s', x, None, lost)
  {
    SameQueueDue(s, s', x);
    Balances(s, s', x, t, lost);
  }

  /** What the steps of a push do before the position is claimed: the handle is kept, or given up to a
      full ring. */
  lemma PushGoesOn(ring: Q.Ring, t: nat, spurious: bool)
    requires Q.Inv(ring) && Q.Enabled(ring, Q.Produce(t, spurious))
    ensures var pc, pc' := ring.producer[t], Q.Apply(ring, Q.Produce(t, spurious)).producer[t];
      pc'.Rejected? == FindsFull(ring, pc)
  {
    assert Q.ProducerOk(ring, t);
    if ring.producer[t].LoadSeq? { Q.MarkTells(ring, ring.producer[t].pos); }
  }

  lemma RingBalances(s: Pipeline, x: Action, t: nat, spurious: bool)
    requires Coupled(s) && Q.Inv(s.pre) && L.Inv(View(s)) && Carried(s) && t < |s.agent| && s.agent[t].Enqueueing?
    requires Q.Enabled(s.pre, Q.Produce(t, spurious)) && Enabled(s, Agent(t, spurious))
    ensures Balanced(s, RingStep(s, t, spurious), x, None, GivenUp(s, Agent(t, spurious)))
  {
    hide Q.Inv, Q.Apply, AgentsOk, SchedulerOk;
    var s' := RingStep(s, t, spurious);
    Q.ProduceEffect(s.pre, t, spurious);
    PushGoesOn(s.pre, t, spurious);
    RingSpares(s, t, spurious);
    if s.pre.producer[t].ClaimPos? && s'.pre.enqueue != s.pre.enqueue {
      assert View(s).held[t] == Some(s.pre.producer[t].h);
      RingClaim(s, s', t, s.pre.producer[t].h);
      ClaimBalances(s, s', x, t, s.pre.producer[t].h);
    } else {
      RingQuietBalances(s, s', x, t, GivenUp(s, Agent(t, spurious)));
    }
  }

  lemma RingSpares(s: Pipeline, t: nat, spurious: bool)
    requires Sizes(s) && Q.Inv(s.pre) && t < |s.agent| && s.agent[t].Enqueueing?
    requires Q.Enabled(s.pre, Q.Produce(t, spurious))
    ensures var s' := RingStep(s, t, spurious);
      && Spares(s, s', t)
      && RingOnly(s, s', t, s'.place)
      && s'.place == (if s.pre.producer[t].ClaimPos? && s'.pre.enqueue != s.pre.enqueue
                      then s.place[s.pre.producer[t].h := L.Queued(|s.pre.claimed|)] else s.place)
  {
    hide Q.Inv, Q.Apply;
    Q.ProduceEffect(s.pre, t, spurious);
  }

  lemma LaneBalances(s: Pipeline, x: Action, e: nat)
    requires Sizes(s) && Carried(s) && e < |s.posts| && s.agent[e] == AgentPc.Popping && P.Inv(s.posts[e])
    requires ExecutorOk(s, e) && P.Enabled(s.posts[e], P.Consume)
    ensures Balanced(s, PostApply(s, e, P.Consume), x, None, None)
  {
    P.ConsumeEffect(s.posts[e]);
    var s' := PostApply(s, e, P.Consume);
    SameQueueDue(s, s', x);
    Balances(s, s', x, e, None);
  }

  // ----- all steps -----

  lemma InternalBalances(s: Pipeline, x: Action, t: nat, spurious: bool)
    requires Inv(s) && t < |s.agent| && InStore(s.agent[t]) && S.Internal(s.store.pc[t])
    requires S.Enabled(s.store, S.Internally(t, spurious)) && Enabled(s, Agent(t, spurious))
    ensures Balanced(s, StoreStep(s, t, spurious), x, None, GivenUp(s, Agent(t, spurious)))
  {
    hide Balanced, Carried;
    InvCarried(s);
    assert Local(s, t);
    if s.store.pc[t].RemCas? {
      RedeemableIsLive(s, t);
      if s.agent[t].Undoing? { CancellingBalances(s, x, t, spurious); } else { RedeemingBalances(s, x, t, spurious); }
    } else if s.store.pc[t].RegGen? {
      IssuingBalances(s, x, t, spurious);
    } else {
      if S.Registering(s.store.pc[t]) { RegisterStepBalances(s, x, t, spurious); }
      else { ReturnStepBalances(s, x, t, spurious); }
    }
  }

  lemma StoreReturnBalances(s: Pipeline, x: Action, t: nat)
    requires Inv(s) && Enabled(s, Agent(t, false)) && InStore(s.agent[t]) && !S.Internal(s.store.pc[t])
    ensures Balanced(s, AgentStep(s, t, false), x, None, None)
  {
    hide Balanced, Carried, S.Inv, Q.Inv, L.Inv;
    InvCarried(s);
    assert Local(s, t);
    match s.agent[t]
    case Registering => RegisteringReturnBalances(s, x, t);
    case Undoing => UndoingReturnBalances(s, x, t);
    case Redeeming => RedeemingReturnBalances(s, x, t);
  }

  lemma EnqueueingBalances(s: Pipeline, x: Action, t: nat, spurious: bool)
    requires Inv(s) && Enabled(s, Agent(t, spurious)) && s.agent[t].Enqueueing?
    ensures Balanced(s, EnqueueingStep(s, t, spurious), x, None, GivenUp(s, Agent(t, spurious)))
  {
    hide Balanced, Carried;
    InvCarried(s);
    assert Local(s, t);
    if Q.ProducerBusy(s.pre.producer[t]) { RingBalances(s, x, t, spurious); }
    else { EnqueueingReturnBalances(s, x, t); }
  }

  lemma PoppingBalances(s: Pipeline, x: Action, e: nat)
    requires Inv(s) && Enabled(s, Agent(e, false)) && s.agent[e] == AgentPc.Popping
    ensures Balanced(s, PoppingStep(s, e), x, None, None)
  {
    hide Balanced, Carried, S.Inv, Q.Inv, L.Inv;
    InvCarried(s);
    assert Local(s, e);
    if s.posts[e].consumer.Redeeming? { StartRedeemBalances(s, x, e); }
    else if s.posts[e].consumer.Popped? { PoppingReturnBalances(s, x, e); }
    else { LaneBalances(s, x, e); }
  }

  lemma BetweenCallsBalances(s: Pipeline, x: Action, t: nat, spurious: bool)
    requires Inv(s) && Enabled(s, Agent(t, spurious))
    requires s.agent[t].Checking? || s.agent[t] == AgentPc.Testing || s.agent[t].Deciding? || s.agent[t].Running?
    ensures Balanced(s, AgentStep(s, t, spurious), x, None, GivenUp(s, Agent(t, spurious)))
  {
    hide Balanced, Carried, S.Inv, Q.Inv, L.Inv;
    InvCarried(s);
    assert Local(s, t);
    match s.agent[t]
    case Checking(a) =>
      if s.open { StartPushBalances(s, x, t, a); } else { ControlBalances(s, x, t, Outside, Some(a)); }
    case Testing =>
      if s.running[t] { StartPopBalances(s, x, t); } else { ControlBalances(s, x, t, Stopped, None); }
    case Deciding(next) =>
      if next.Some? && s.running[t] { StartPushBalances(s, x, t, next.value); }
      else { ControlBalances(s, x, t, AgentPc.Testing, next); }
    case Running(_) => RunningBalances(s, x, t);
  }
}
