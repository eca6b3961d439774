// Executor::run as a method over the executor's ring and the pre-scheduler ring.
module ExecutorThread {
  import opened Base
  import opened Handles
  import opened StopFlag
  import Q = PreSchedulerQueue
  import P = PostSchedulerQueue
  import A = ActionStorage
  import M = PreQueueMachine
  import N = PostQueueMachine
  import S = StorageMachine
  import R = StorageResults

  /** What became of a handle that was taken out of the ring: its registration was already spent,
      or its action was run and had no continuation, or the continuation was dropped because the
      flag was down, or it was pushed, with these states of the ring and the storage before. */
  datatype Fate = Refused | Finished | Dropped | Fed(verdict: Q.Verdict, since: M.Ring, store: S.Storage)

  predicate Claims(fate: Fate)
  {
    fate.Fed? && fate.verdict.Enqueued?
  }

  /** Does seeing to the action include a look at the flag? */
  predicate Asks(fate: Fate)
  {
    fate.Dropped? || fate.Fed?
  }

  function Asked(log: seq<Fate>): nat
  {
    if log == [] then 0 else Asked(log[..|log| - 1]) + Count(Asks(log[|log| - 1]))
  }

  function DroppedIn(log: seq<Fate>): nat
  {
    if log == [] then 0 else DroppedIn(log[..|log| - 1]) + Count(log[|log| - 1].Dropped?)
  }

  lemma OneMore(log: seq<Fate>, fate: Fate)
    ensures Asked(log + [fate]) == Asked(log) + Count(Asks(fate))
    ensures DroppedIn(log + [fate]) == DroppedIn(log) + Count(fate.Dropped?)
  {
    assert (log + [fate])[..|log|] == log;
  }

  /** What pop answered for the handle, and what followed from it, as memory tells. */
  ghost predicate FateOk(m: S.Storage, ring: M.Ring, t: nat, h: Handle, answer: Option<Option<Action>>, fate: Fate)
  {
    && h in m.issued && R.Spent(m, h)
    && (fate == Refused <==> answer.None?)
    && (answer.Some? ==> answer == Some(Some(m.issued[h])) && Continued(m, ring, t, m.issued[h].continuation, fate))
  }

  ghost predicate Continued(m: S.Storage, ring: M.Ring, t: nat, next: Option<Action>, fate: Fate)
  {
    match fate
    case Refused => true
    case Finished => next == None
    case Dropped => next.Some?
    case Fed(verdict, since, store) =>
      && next.Some? && Q.Later(since, ring) && A.Kept(store, m)
      && Q.Explains(verdict, since, store, ring, m, next.value)
      && (verdict.Enqueued? ==> verdict.p < |ring.claimant| && ring.claimant[verdict.p] == t)
  }

  /** A push without interference is accepted exactly if there was a free slot and room in the ring. */
  ghost predicate Exact(fate: Fate)
  {
    fate.Fed? ==> (fate.verdict.Enqueued? <==> fate.store.free != [] && !Q.IsFull(fate.since))
  }

  /** What the thread did to handles: the one taken out was redeemed, and the push did its part. */
  function DeedsOf(h: Handle, answer: Option<Option<Action>>, fate: Fate): seq<A.Deed>
  {
    (if answer.Some? then [A.Redeemed(h)] else []) + if fate.Fed? then Q.DeedsFor(fate.verdict) else []
  }

  function AllDeeds(handles: seq<Handle>, answers: seq<Option<Option<Action>>>, log: seq<Fate>): seq<A.Deed>
    requires |log| == |answers| <= |handles|
  {
    if log == [] then []
    else
      var n := |log| - 1;
      AllDeeds(handles, answers[..n], log[..n]) + DeedsOf(handles[n], answers[n], log[n])
  }

  lemma MoreDeeds(handles: seq<Handle>, answers: seq<Option<Option<Action>>>, log: seq<Fate>,
                  answer: Option<Option<Action>>, fate: Fate)
    requires |log| == |answers| < |handles|
    ensures AllDeeds(handles, answers + [answer], log + [fate])
      == AllDeeds(handles, answers, log) + DeedsOf(handles[|log|], answer, fate)
  {
    assert (answers + [answer])[..|answers|] == answers && (log + [fate])[..|log|] == log;
  }

  lemma {:induction false} SameDeeds(handles: seq<Handle>, handles': seq<Handle>,
                                     answers: seq<Option<Option<Action>>>, log: seq<Fate>)
    requires |log| == |answers| <= |handles| && handles <= handles'
    ensures AllDeeds(handles, answers, log) == AllDeeds(handles', answers, log)
    decreases |log|
  {
    if log != [] {
      var n := |log| - 1;
      SameDeeds(handles, handles', answers[..n], log[..n]);
    }
  }

  /** A look into the ring that found it empty: the ring before the turn, at that moment, and after. */
  datatype Look = Look(before: N.Ring, moment: N.Ring, after: N.Ring)

  ghost predicate LookOk(look: Look)
  {
    && P.Later(look.before, look.moment) && P.IsEmpty(look.moment) && P.Later(look.moment, look.after)
    && look.after.dequeue == look.before.dequeue
  }

  /** The looks happened one after the other between these states. */
  ghost predicate Looks(start: N.Ring, quiet: seq<Look>, end: N.Ring)
  {
    && P.Later(start, end)
    && (forall k :: 0 <= k < |quiet| ==>
          LookOk(quiet[k]) && P.Later(start, quiet[k].before) && P.Later(quiet[k].after, end))
    && (forall i, k :: 0 <= i < k < |quiet| ==> P.Later(quiet[i].after, quiet[k].before))
  }

  lemma LooksOn(start: N.Ring, quiet: seq<Look>, between: N.Ring, look: Look, end: N.Ring, busy: bool)
    requires Looks(start, quiet, between) && P.Later(between, end)
    requires !busy ==> LookOk(look) && look.before == between && look.after == end
    ensures Looks(start, if busy then quiet else quiet + [look], end)
  {
  }

  /** The pushes began one after the other between these states. */
  ghost predicate Pushes(ring: M.Ring, m: S.Storage, log: seq<Fate>, ring': M.Ring, m': S.Storage)
  {
    && Q.Later(ring, ring') && A.Kept(m, m')
    && (forall k :: 0 <= k < |log| && log[k].Fed? ==>
          Q.Later(ring, log[k].since) && A.Kept(m, log[k].store)
          && Q.Later(log[k].since, ring') && A.Kept(log[k].store, m'))
    && (forall i, k :: 0 <= i < k < |log| && log[i].Fed? && log[k].Fed? ==>
          Q.Later(log[i].since, log[k].since) && A.Kept(log[i].store, log[k].store))
  }

  lemma LaterTwice(a: M.Ring, b: M.Ring, c: M.Ring)
    requires Q.Later(a, b) && Q.Later(b, c)
    ensures Q.Later(a, c)
  {
  }

  lemma PushesLater(ring: M.Ring, m: S.Storage, log: seq<Fate>, ring1: M.Ring, m1: S.Storage,
                    ring2: M.Ring, m2: S.Storage)
    requires Pushes(ring, m, log, ring1, m1) && Q.Later(ring1, ring2) && A.Kept(m1, m2)
    ensures Pushes(ring, m, log, ring2, m2)
  {
    hide Q.Later, A.Kept;
    LaterTwice(ring, ring1, ring2);
    A.KeptTwice(m, m1, m2);
    forall k | 0 <= k < |log| && log[k].Fed? ensures Q.Later(log[k].since, ring2) && A.Kept(log[k].store, m2) {
      LaterTwice(log[k].since, ring1, ring2);
      A.KeptTwice(log[k].store, m1, m2);
    }
  }

  lemma PushesOn(ring: M.Ring, m: S.Storage, log: seq<Fate>, ring1: M.Ring, m1: S.Storage, fate: Fate,
                 ring2: M.Ring, m2: S.Storage)
    requires Pushes(ring, m, log, ring1, m1) && Q.Later(ring1, ring2) && A.Kept(m1, m2)
    requires fate.Fed? ==> fate.since == ring1 && fate.store == m1
    ensures Pushes(ring, m, log + [fate], ring2, m2)
  {
    hide Q.Later, A.Kept;
    PushesLater(ring, m, log, ring1, m1, ring2, m2);
  }

  /** The actions among the answers, in order. */
  function Returned(answers: seq<Option<Option<Action>>>): seq<Action>
  {
    if answers == [] then []
    else
      var n := |answers| - 1;
      Returned(answers[..n]) + match answers[n] { case Some(Some(a)) => [a] case _ => [] }
  }

  /** Continuations are claimed in the order of the actions they come from. */
  ghost predicate Rising(log: seq<Fate>)
  {
    forall i, k :: 0 <= i < k < |log| && Claims(log[i]) && Claims(log[k]) ==> log[i].verdict.p < log[k].verdict.p
  }

  lemma RefusedOk(m: S.Storage, ring: M.Ring, t: nat, h: Handle)
    requires R.Spent(m, h)
    ensures FateOk(m, ring, t, h, None, Refused)
  {
  }

  lemma FateKept(m: S.Storage, ring: M.Ring, m': S.Storage, ring': M.Ring, t: nat,
                 h: Handle, answer: Option<Option<Action>>, fate: Fate)
    requires FateOk(m, ring, t, h, answer, fate) && A.Kept(m, m') && Q.Later(ring, ring')
    ensures FateOk(m', ring', t, h, answer, fate)
  {
    hide S.Inv;
  }

  /** What is true of the work done so far: each handle taken out met its fate, the actions that
      pop answered were run in order, and so were their continuations claimed. */
  ghost predicate Chronicle(m: S.Storage, ring: M.Ring, t: nat, handles: seq<Handle>,
                            answers: seq<Option<Option<Action>>>, executed: seq<Action>, log: seq<Fate>)
  {
    && |log| == |answers| <= |handles|
    && (forall k :: 0 <= k < |log| ==> FateOk(m, ring, t, handles[k], answers[k], log[k]))
    && executed == Returned(answers)
    && Rising(log)
  }

  lemma ChronicleKept(m: S.Storage, ring: M.Ring, m': S.Storage, ring': M.Ring, t: nat,
                      handles: seq<Handle>, handles': seq<Handle>, answers: seq<Option<Option<Action>>>,
                      executed: seq<Action>, log: seq<Fate>)
    requires Chronicle(m, ring, t, handles, answers, executed, log)
    requires A.Kept(m, m') && Q.Later(ring, ring') && handles <= handles'
    ensures Chronicle(m', ring', t, handles', answers, executed, log)
  {
    hide A.Kept, Q.Later;
    forall k | 0 <= k < |log| ensures FateOk(m', ring', t, handles'[k], answers[k], log[k]) {
      FateKept(m, ring, m', ring', t, handles[k], answers[k], log[k]);
    }
  }

  lemma ChronicleSizes(m: S.Storage, ring: M.Ring, t: nat, handles: seq<Handle>,
                       answers: seq<Option<Option<Action>>>, executed: seq<Action>, log: seq<Fate>)
    requires Chronicle(m, ring, t, handles, answers, executed, log)
    ensures |log| == |answers| <= |handles|
  {
  }

  lemma ClaimsBelow(m: S.Storage, ring: M.Ring, t: nat, handles: seq<Handle>,
                    answers: seq<Option<Option<Action>>>, executed: seq<Action>, log: seq<Fate>)
    requires Chronicle(m, ring, t, handles, answers, executed, log)
    ensures forall k :: 0 <= k < |log| && Claims(log[k]) ==> log[k].verdict.p < |ring.claimed|
  {
    forall k | 0 <= k < |log| && Claims(log[k]) ensures log[k].verdict.p < |ring.claimed| {
      assert FateOk(m, ring, t, handles[k], answers[k], log[k]);
    }
  }

  lemma ChronicleGrows(m: S.Storage, ring: M.Ring, t: nat, handles: seq<Handle>,
                       answers: seq<Option<Option<Action>>>, executed: seq<Action>, log: seq<Fate>,
                       answer: Option<Option<Action>>, fate: Fate)
    requires Chronicle(m, ring, t, handles, answers, executed, log) && |log| < |handles|
    requires FateOk(m, ring, t, handles[|log|], answer, fate)
    requires Claims(fate) ==> forall k :: 0 <= k < |log| && Claims(log[k]) ==> log[k].verdict.p < fate.verdict.p
    ensures Chronicle(m, ring, t, handles, answers + [answer],
                      if answer.Some? then executed + [answer.value.value] else executed, log + [fate])
  {
    hide R.Spent, S.Inv, A.Kept, Q.Later;
    assert (answers + [answer])[..|answers|] == answers;
    forall k | 0 <= k < |log + [fate]|
      ensures FateOk(m, ring, t, handles[k], (answers + [answer])[k], (log + [fate])[k])
    {
      if k < |log| { assert FateOk(m, ring, t, handles[k], answers[k], log[k]); }
    }
  }

  /** One more handle was taken out and seen to, from memory m to m'. */
  lemma Recorded(m: S.Storage, ring: M.Ring, m': S.Storage, ring': M.Ring, t: nat,
                 handles: seq<Handle>, handles': seq<Handle>, answers: seq<Option<Option<Action>>>,
                 executed: seq<Action>, log: seq<Fate>, answer: Option<Option<Action>>, fate: Fate)
    requires Chronicle(m, ring, t, handles, answers, executed, log)
    requires A.Kept(m, m') && Q.Later(ring, ring') && handles <= handles' && |log| < |handles'|
    requires FateOk(m', ring', t, handles'[|log|], answer, fate)
    requires Claims(fate) ==> fate.verdict.p >= |ring.claimed|
    ensures Chronicle(m', ring', t, handles', answers + [answer],
                      if answer.Some? then executed + [answer.value.value] else executed, log + [fate])
  {
    hide Chronicle, FateOk, A.Kept, Q.Later;
    ClaimsBelow(m, ring, t, handles, answers, executed, log);
    ChronicleKept(m, ring, m', ring', t, handles, handles', answers, executed, log);
    ChronicleGrows(m', ring', t, handles', answers, executed, log, answer, fate);
  }

  /** How things stood when run was called: the ring of the executor and how many answers it had
      given, the pre-scheduler ring and the storage, what the thread had done; whether the scheduler
      does anything during the call, and whether anyone touches the other two. */
  datatype Begin = Begin(post: N.Ring, answers: nat, ring: M.Ring, store: S.Storage, deeds: seq<A.Deed>,
                         still: bool, alone: bool)

  class Executor {
    const t: nat
    const post: P.Queue
    const pre: Q.Queue
    // What the loads of the flag answer, and how many there have been.
    const active: seq<bool>
    var loads: nat

    constructor (t: nat, post: P.Queue, pre: Q.Queue, active: seq<bool>)
      ensures this.t == t && this.post == post && this.pre == pre
      ensures this.active == active && loads == 0
    {
      this.t, this.post, this.pre := t, post, pre;
      this.active, loads := active, 0;
    }

    /** The rings use one storage and share no memory. */
    ghost predicate Apart()
    {
      post.storage == pre.storage && post.handle != pre.handle && pre.Apart()
    }

    /** No call of this thread is under way. */
    ghost predicate Ready()
      reads post, post.active, post.handle, pre, pre.sequence, pre.handle
      reads pre.storage, pre.storage.next, pre.storage.generation, pre.storage.action, post.storage
    {
      && post.Valid() && post.Backed() && post.consumer.Idle?
      && pre.Valid() && t < |pre.producers| && pre.producers[t].Away?
      && pre.storage.Valid() && t < |pre.storage.registers| && pre.storage.registers[t].Idle?
    }

    /** m_active.load() */
    method LoadActive() returns (b: bool)
      modifies this`loads
      ensures b == Up(active, old(loads)) && loads == old(loads) + 1
    {
      b := loads < |active| && active[loads];
      loads := loads + 1;
    }

    /** pop, with all that it leaves alone. */
    method Take() returns (result: Option<Option<Action>>, ghost taken: Option<Handle>, ghost moment: N.Ring)
      requires Apart() && Ready()
      modifies post, post.active, post.handle
      modifies pre.storage, pre.storage.next, pre.storage.generation, pre.storage.action
      ensures Ready() && A.Kept(old(pre.storage.State()), pre.storage.State()) && pre.State() == old(pre.State())
      ensures old(post.pushed) <= post.pushed
      ensures post.answers == if taken.Some? then old(post.answers) + [result] else old(post.answers)
      ensures P.Later(old(post.State()), post.State())
      ensures taken.None? ==>
        && result.None? && post.dequeue == old(post.dequeue) && pre.storage.State() == old(pre.storage.State())
        && LookOk(Look(old(post.State()), moment, post.State()))
      ensures taken.Some? ==>
        && post.dequeue == old(post.dequeue) + 1 <= |post.pushed| && taken.value == post.pushed[old(post.dequeue)]
        && taken.value in pre.storage.issued && R.Spent(pre.storage.State(), taken.value)
        && (result.Some? ==> result == Some(Some(pre.storage.issued[taken.value])))
      ensures pre.storage.deeds[t]
        == old(pre.storage.deeds[t]) + if result.Some? then [A.Redeemed(taken.value)] else []
      ensures old(post.schedule) == [] ==>
        && post.schedule == [] && taken.None? == old(P.IsEmpty(post.State())) && post.pushed == old(post.pushed)
      ensures old(pre.storage.schedule) == [] ==> pre.storage.schedule == []
    {
      hide M.Inv, N.Inv, S.Inv, S.LiveHandles;
      result, taken, moment := post.Pop(t);
    }

    /** No one else touches the rings or the storage, and no exchange fails for no reason. */
    predicate Alone()
      reads pre, pre.storage
    {
      pre.schedule == [] && pre.failures == [] && pre.storage.schedule == []
    }

    /** What is done with the continuation: nothing if there is none or the flag is down, otherwise a
        push, whose answer is explained by what happened since. */
    method Feed(next: Option<Action>) returns (ghost fate: Fate)
      requires Apart() && Ready()
      modifies this`loads, pre, pre.sequence, pre.handle
      modifies pre.storage, pre.storage.next, pre.storage.generation, pre.storage.action
      ensures Ready() && A.Kept(old(pre.storage.State()), pre.storage.State())
      ensures Q.Later(old(pre.State()), pre.State())
      ensures next.None? ==> fate == Finished && loads == old(loads)
      ensures next.Some? ==>
        loads == old(loads) + 1 && if Up(active, old(loads)) then fate.Fed? else fate == Dropped
      ensures fate.Fed? ==> fate.since == old(pre.State()) && fate.store == old(pre.storage.State())
      ensures Claims(fate) ==> fate.verdict.p >= |old(pre.claimed)|
      ensures !fate.Fed? ==> pre.State() == old(pre.State()) && pre.storage.State() == old(pre.storage.State())
      ensures Continued(pre.storage.State(), pre.State(), t, next, fate)
      ensures pre.storage.deeds[t] == old(pre.storage.deeds[t]) + if fate.Fed? then Q.DeedsFor(fate.verdict) else []
      ensures old(Alone()) ==> Alone() && Exact(fate)
      ensures old(pre.storage.schedule) == [] ==>
        && pre.storage.schedule == []
        && pre.storage.LiveOnes()
          == old(pre.storage.LiveOnes()) + if Claims(fate) then {fate.verdict.h} else {}
    {
      hide M.Inv, N.Inv, S.Inv, S.LiveHandles, Q.IsFull;
      if next.None? {
        Itself(pre.State(), pre.storage.State());
        return Finished;
      }
      var go := LoadActive();
      if !go {
        Itself(pre.State(), pre.storage.State());
        return Dropped;
      }
      var ok;
      ghost var verdict, since, store := Q.NoSlot(pre.storage.State()), pre.State(), pre.storage.State();
      ok, verdict := pre.Push(t, next.value);
      fate := Fed(verdict, since, store);
    }

    lemma Itself(ring: M.Ring, m: S.Storage)
      ensures Q.Later(ring, ring) && A.Kept(m, m)
    {
    }

    /** What the thread did since then. */
    ghost predicate Told(b: Begin, executed: seq<Action>, log: seq<Fate>)
      requires pre.storage.Valid() && t < |pre.storage.registers|
      reads post, pre, pre.sequence, pre.handle
      reads pre.storage, pre.storage.next, pre.storage.generation, pre.storage.action
    {
      && post.dequeue == b.post.dequeue + |log| <= |post.pushed| && b.answers <= |post.answers|
      && (var handles, answers := post.pushed[b.post.dequeue..], post.answers[b.answers..];
          && Chronicle(pre.storage.State(), pre.State(), t, handles, answers, executed, log)
          && Pushes(b.ring, b.store, log, pre.State(), pre.storage.State())
          && pre.storage.deeds[t] == b.deeds + AllDeeds(handles, answers, log))
    }

    /** The action is run, and its continuation seen to. */
    method RunAction(ghost h: Handle, a: Action) returns (ghost fate: Fate)
      requires Apart() && Ready() && R.Spent(pre.storage.State(), h)
      requires h in pre.storage.issued && a == pre.storage.issued[h]
      modifies this`loads, pre, pre.sequence, pre.handle
      modifies pre.storage, pre.storage.next, pre.storage.generation, pre.storage.action
      ensures Ready() && A.Kept(old(pre.storage.State()), pre.storage.State())
      ensures Q.Later(old(pre.State()), pre.State())
      ensures FateOk(pre.storage.State(), pre.State(), t, h, Some(Some(a)), fate)
      ensures loads == old(loads) + Count(Asks(fate))
      ensures Downs(active, old(loads), loads) == Count(fate.Dropped?)
      ensures fate.Fed? ==> fate.since == old(pre.State()) && fate.store == old(pre.storage.State())
      ensures Claims(fate) ==> fate.verdict.p >= |old(pre.claimed)|
      ensures pre.storage.deeds[t] == old(pre.storage.deeds[t]) + if fate.Fed? then Q.DeedsFor(fate.verdict) else []
      ensures old(Alone()) ==> Alone() && Exact(fate)
    {
      hide Ready, Q.Later, R.Spent;
      fate := Feed(a.continuation);
    }

    /** What is known once a handle was taken out and before it is seen to. */
    ghost predicate TookOne(b: Begin, executed: seq<Action>, log: seq<Fate>, h: Handle,
                            result: Option<Option<Action>>)
      requires pre.storage.Valid() && t < |pre.storage.registers| && b.post.dequeue <= |post.pushed|
      reads post, pre, pre.sequence, pre.handle
      reads pre.storage, pre.storage.next, pre.storage.generation, pre.storage.action
    {
      var m, ring, handles := pre.storage.State(), pre.State(), post.pushed[b.post.dequeue..];
      && post.dequeue == b.post.dequeue + |log| + 1 && |log| < |handles| && handles[|log|] == h
      && b.answers < |post.answers| && post.answers[|post.answers| - 1] == result
      && (var answers := post.answers[b.answers..|post.answers| - 1];
          && Chronicle(m, ring, t, handles, answers, executed, log)
          && Pushes(b.ring, b.store, log, ring, m)
          && pre.storage.deeds[t]
            == b.deeds + AllDeeds(handles, answers, log) + if result.Some? then [A.Redeemed(h)] else [])
    }

    /** The handle that was taken out is seen to. */
    method SeeTo(ghost b: Begin, ghost executed: seq<Action>, ghost log: seq<Fate>, ghost h: Handle, a: Action)
        returns (ghost fate: Fate)
      requires Apart() && Ready() && b.post.dequeue <= |post.pushed|
      requires TookOne(b, executed, log, h, Some(Some(a)))
      requires R.Spent(pre.storage.State(), h) && h in pre.storage.issued && a == pre.storage.issued[h]
      modifies this`loads, pre, pre.sequence, pre.handle
      modifies pre.storage, pre.storage.next, pre.storage.generation, pre.storage.action
      ensures Ready() && Told(b, executed + [a], log + [fate])
      ensures old(loads) <= loads == old(loads) + Count(Asks(fate))
      ensures Downs(active, old(loads), loads) == Count(fate.Dropped?)
      ensures old(Alone()) ==> Alone() && Exact(fate)
    {
      hide Ready, FateOk, Chronicle, A.Kept, Q.Later, R.Spent, Pushes, Exact, AllDeeds, S.Inv, M.Inv, N.Inv;
      ghost var m, ring, handles := pre.storage.State(), pre.State(), post.pushed[b.post.dequeue..];
      ghost var answers := post.answers[b.answers..|post.answers| - 1];
      assert post.answers[b.answers..] == answers + [Some(Some(a))];
      ChronicleSizes(m, ring, t, handles, answers, executed, log);
      fate := RunAction(h, a);
      ghost var m', ring' := pre.storage.State(), pre.State();
      Recorded(m, ring, m', ring', t, handles, handles, answers, executed, log, Some(Some(a)), fate);
      PushesOn(b.ring, b.store, log, ring, m, fate, ring', m');
      MoreDeeds(handles, answers, log, Some(Some(a)), fate);
    }

    /** There is nothing to see to if someone else had redeemed it. */
    lemma NothingToSeeTo(b: Begin, executed: seq<Action>, log: seq<Fate>, h: Handle)
      requires Ready() && b.post.dequeue <= |post.pushed| && R.Spent(pre.storage.State(), h)
      requires TookOne(b, executed, log, h, None)
      ensures Told(b, executed, log + [Refused])
    {
      hide FateOk, Chronicle, A.Kept, Q.Later, R.Spent, Pushes;
      var m, ring, handles := pre.storage.State(), pre.State(), post.pushed[b.post.dequeue..];
      var answers := post.answers[b.answers..|post.answers| - 1];
      assert post.answers[b.answers..] == answers + [None];
      ChronicleSizes(m, ring, t, handles, answers, executed, log);
      RefusedOk(m, ring, t, h);
      Itself(ring, m);
      Recorded(m, ring, m, ring, t, handles, handles, answers, executed, log, None, Refused);
      PushesOn(b.ring, b.store, log, ring, m, Refused, ring, m);
      MoreDeeds(handles, answers, log, None, Refused);
    }

    /** pop, for the record. */
    method TakeOne(ghost b: Begin, ghost executed: seq<Action>, ghost log: seq<Fate>)
        returns (result: Option<Option<Action>>, ghost taken: Option<Handle>, ghost look: Look)
      requires Apart() && Ready() && Told(b, executed, log)
      modifies post, post.active, post.handle
      modifies pre.storage, pre.storage.next, pre.storage.generation, pre.storage.action
      ensures Ready() && b.post.dequeue <= |post.pushed|
      ensures look.before == old(post.State()) && look.after == post.State() && P.Later(look.before, look.after)
      ensures taken.None? ==> result.None? && Told(b, executed, log) && LookOk(look)
      ensures taken.Some? ==>
        && TookOne(b, executed, log, taken.value, result)
        && taken.value in pre.storage.issued && R.Spent(pre.storage.State(), taken.value)
        && (result.Some? ==> result == Some(Some(pre.storage.issued[taken.value])))
      ensures old(post.schedule) == [] ==>
        post.schedule == [] && post.pushed == old(post.pushed) && (taken.None? <==> P.IsEmpty(look.before))
      ensures old(Alone()) ==> Alone()
    {
      hide Ready, FateOk, Chronicle, A.Kept, Q.Later, R.Spent, Pushes, P.Later, P.IsEmpty, LookOk, Exact;
      ghost var m, ring, handles := pre.storage.State(), pre.State(), post.pushed[b.post.dequeue..];
      ghost var answers, before := post.answers[b.answers..], post.State();
      ChronicleSizes(m, ring, t, handles, answers, executed, log);
      ghost var moment;
      result, taken, moment := Take();
      look := Look(before, moment, post.State());
      ghost var m1, handles1 := pre.storage.State(), post.pushed[b.post.dequeue..];
      SameDeeds(handles, handles1, answers, log);
      Itself(ring, m1);
      PushesLater(b.ring, b.store, log, ring, m, ring, m1);
      ChronicleKept(m, ring, m1, ring, t, handles, handles1, answers, executed, log);
      assert taken.Some? ==> post.answers[b.answers..|post.answers| - 1] == answers;
    }

    /** One turn of the loop: a handle is taken out and seen to, or the ring was looked at and was
        empty; without interference, exactly if it is empty before. */
    method RunOne(ghost b: Begin, executed: seq<Action>, ghost log: seq<Fate>)
        returns (executed': seq<Action>, ghost log': seq<Fate>, ghost look: Look)
      requires Apart() && Ready() && Told(b, executed, log)
      modifies this`loads, post, post.active, post.handle, pre, pre.sequence, pre.handle
      modifies pre.storage, pre.storage.next, pre.storage.generation, pre.storage.action
      ensures Ready() && Told(b, executed', log')
      ensures log' == log || (|log'| == |log| + 1 && log'[..|log|] == log)
      ensures look.before == old(post.State()) && look.after == post.State()
      ensures P.Later(look.before, look.after) && (log' == log ==> LookOk(look))
      ensures old(loads) <= loads == old(loads) + Asked(log') - Asked(log)
      ensures Downs(active, old(loads), loads) == DroppedIn(log') - DroppedIn(log)
      ensures old(post.schedule) == [] ==>
        post.schedule == [] && post.pushed == old(post.pushed) && (log' == log <==> P.IsEmpty(look.before))
      ensures old(Alone()) ==> Alone() && (log' != log ==> Exact(log'[|log|]))
    {
      hide Ready, Told, TookOne, R.Spent, P.Later, P.IsEmpty, LookOk;
      executed', log' := executed, log;
      var result;
      ghost var taken;
      result, taken, look := TakeOne(b, executed, log);
      if result.Some? {
        var a := result.value.value;
        executed' := executed + [a];
        ghost var fate := SeeTo(b, executed, log, taken.value, a);
        OneMore(log, fate);
        log' := log + [fate];
      } else if taken.Some? {
        NothingToSeeTo(b, executed, log, taken.value);
        OneMore(log, Refused);
        log' := log + [Refused];
      }
    }

    /** What is true between the turns. */
    ghost predicate Going(b: Begin, executed: seq<Action>, log: seq<Fate>, quiet: seq<Look>)
      requires pre.storage.Valid() && t < |pre.storage.registers|
      reads post, post.active, post.handle, pre, pre.sequence, pre.handle
      reads pre.storage, pre.storage.next, pre.storage.generation, pre.storage.action
    {
      && Told(b, executed, log) && Looks(b.post, quiet, post.State())
      && (b.still ==>
            && post.schedule == [] && post.pushed == b.post.pushed
            && (quiet != [] ==> |log| == |b.post.pushed| - b.post.dequeue))
      && (b.alone ==> Alone() && forall k :: 0 <= k < |log| ==> Exact(log[k]))
    }

    method Turn(ghost b: Begin, executed: seq<Action>, ghost log: seq<Fate>, ghost quiet: seq<Look>)
        returns (executed': seq<Action>, ghost log': seq<Fate>, ghost quiet': seq<Look>)
      requires Apart() && Ready() && Going(b, executed, log, quiet)
      modifies this`loads, post, post.active, post.handle, pre, pre.sequence, pre.handle
      modifies pre.storage, pre.storage.next, pre.storage.generation, pre.storage.action
      ensures Ready() && Going(b, executed', log', quiet')
      ensures |log'| + |quiet'| == |log| + |quiet| + 1
      ensures old(loads) <= loads == old(loads) + Asked(log') - Asked(log)
      ensures Downs(active, old(loads), loads) == DroppedIn(log') - DroppedIn(log)
    {
      hide Ready, Told, P.Later, LookOk, Looks, Exact;
      ghost var look;
      LogIsCounted(b, executed, log);
      executed', log', look := RunOne(b, executed, log);
      LogIsCounted(b, executed', log');
      LooksOn(b.post, quiet, look.before, look, look.after, log' != log);
      quiet' := if log' == log then quiet + [look] else quiet;
    }

    lemma LogIsCounted(b: Begin, executed: seq<Action>, log: seq<Fate>)
      requires Ready() && Told(b, executed, log)
      ensures post.dequeue == b.post.dequeue + |log|
      ensures P.IsEmpty(post.State()) <==> post.dequeue == |post.pushed|
    {
    }

    /** The state of things now. */
    ghost function Now(): Begin
      requires pre.storage.Valid() && t < |pre.storage.registers|
      reads post, post.active, post.handle, pre, pre.sequence, pre.handle
      reads pre.storage, pre.storage.next, pre.storage.generation, pre.storage.action
    {
      Begin(post.State(), |post.answers|, pre.State(), pre.storage.State(), pre.storage.deeds[t],
            post.schedule == [], Alone())
    }

    lemma NothingYet()
      requires Ready()
      ensures Going(Now(), [], [], [])
    {
      assert post.dequeue <= |post.pushed|;
      Itself(pre.State(), pre.storage.State());
    }

    lemma IsReady()
      requires Ready()
      ensures pre.storage.Valid() && t < |pre.storage.registers|
    {
    }

    /** Executor::run, until a load of the flag finds it down. A turn that took nothing looked into the
        ring and found it empty, and a continuation was dropped exactly for each load that found the
        flag down before the last one. If the scheduler does nothing meanwhile, as many handles are
        taken out as there are turns, or as there are handles. */
    method Run() returns (executed: seq<Action>, ghost log: seq<Fate>, ghost quiet: seq<Look>)
      requires Apart() && Ready()
      modifies this`loads, post, post.active, post.handle, pre, pre.sequence, pre.handle
      modifies pre.storage, pre.storage.next, pre.storage.generation, pre.storage.action
      ensures Ready() && Going(old(Now()), executed, log, quiet)
      ensures loads == old(loads) + |log| + |quiet| + Asked(log) + 1 && !Up(active, loads - 1)
      ensures Downs(active, old(loads), loads - 1) == DroppedIn(log)
    {
      hide Going, Ready, S.Inv, M.Inv, N.Inv;
      IsReady();
      ghost var b := Now();
      executed, log, quiet := [], [], [];
      NothingYet();
      var go := LoadActive();
      while go
        invariant Ready() && pre.storage.Valid() && t < |pre.storage.registers| && Going(b, executed, log, quiet)
        invariant loads == old(loads) + |log| + |quiet| + Asked(log) + 1 && go == Up(active, loads - 1)
        invariant Downs(active, old(loads), loads - 1) == DroppedIn(log)
        decreases |active| + 1 - loads
      {
        ghost var at := loads;
        executed, log, quiet := Turn(b, executed, log, quiet);
        IsReady();
        DownsSplit(active, old(loads), at, loads);
        go := LoadActive();
      }
    }
  }
}
