// Scheduler::run and Scheduler::push as methods over the two kinds of ring and the round robin.
module SchedulerThread {
  import opened Base
  import opened Handles
  import opened StopFlag
  import Q = PreSchedulerQueue
  import P = PostSchedulerQueue
  import E = RoundRobinEngine
  import L = Ledger
  import A = ActionStorage
  import M = PreQueueMachine
  import N = PostQueueMachine
  import S = StorageMachine

  /** How many of the offers were accepted. */
  function Accepted(offers: seq<bool>): (n: nat)
    ensures n <= |offers|
  {
    if offers == [] then 0 else Accepted(offers[..|offers| - 1]) + Count(offers[|offers| - 1])
  }

  /** Round robin: where the accepted offers went, when the first offer goes to the executor after
      index. */
  function To(index: nat, offers: seq<bool>, count: nat): (to: seq<nat>)
    requires index < count
    ensures |to| == Accepted(offers)
    ensures forall k :: 0 <= k < |to| ==> to[k] < count
  {
    if offers == [] then []
    else
      var n := |offers| - 1;
      To(index, offers[..n], count) + if offers[n] then [E.After(index, n + 1, count)] else []
  }

  /** How many offers executor e refused. */
  function Refused(index: nat, offers: seq<bool>, count: nat, e: nat): nat
    requires index < count
  {
    if offers == [] then 0
    else
      var n := |offers| - 1;
      Refused(index, offers[..n], count, e) + Count(!offers[n] && E.After(index, n + 1, count) == e)
  }

  /** A look into the pre-scheduler ring that found nothing to take: the ring before the turn, at that
      moment, and after. */
  datatype Look = Look(before: M.Ring, moment: M.Ring, after: M.Ring)

  ghost predicate LookOk(look: Look)
  {
    && Q.Later(look.before, look.moment) && Q.Later(look.moment, look.after)
    && M.Inv(look.moment) && look.moment.dequeue == look.before.dequeue && Q.Unannounced(look.moment)
    && look.after.popped == look.before.popped
  }

  /** The looks happened one after the other between these states. */
  ghost predicate Looks(start: M.Ring, quiet: seq<Look>, end: M.Ring)
  {
    && Q.Later(start, end)
    && (forall k :: 0 <= k < |quiet| ==>
          LookOk(quiet[k]) && Q.Later(start, quiet[k].before) && Q.Later(quiet[k].after, end))
    && (forall i, k :: 0 <= i < k < |quiet| ==> Q.Later(quiet[i].after, quiet[k].before))
  }

  lemma LooksOn(start: M.Ring, quiet: seq<Look>, between: M.Ring, look: Look, end: M.Ring, busy: bool)
    requires Looks(start, quiet, between) && Q.Later(between, end)
    requires !busy ==> LookOk(look) && look.before == between && look.after == end
    ensures Looks(start, if busy then quiet else quiet + [look], end)
  {
  }

  /** An offer to an executor: its ring before, when its flag was looked at, and after. */
  datatype Offered = Offered(before: N.Ring, moment: N.Ring, after: N.Ring)

  ghost predicate OfferedOk(offer: Offered, ok: bool)
  {
    && P.Later(offer.before, offer.moment) && P.Later(offer.moment, offer.after)
    && (!ok ==> P.IsFull(offer.moment) && offer.after.pushed == offer.before.pushed)
  }

  /** The offers happened one after the other, each to the executor whose turn it was, between these
      states of the executors' rings. */
  ghost predicate Offers(starts: seq<N.Ring>, index: nat, offers: seq<bool>, seen: seq<Offered>, ends: seq<N.Ring>)
    requires index < |starts|
  {
    && |ends| == |starts| && |seen| == |offers|
    && (forall e :: 0 <= e < |starts| ==> P.Later(starts[e], ends[e]))
    && (forall k :: 0 <= k < |offers| ==> OfferOk(starts, index, offers, seen, ends, k))
    && (forall i, k :: 0 <= i < k < |offers| && E.After(index, i + 1, |starts|) == E.After(index, k + 1, |starts|) ==>
          P.Later(seen[i].after, seen[k].before))
  }

  ghost predicate OfferOk(starts: seq<N.Ring>, index: nat, offers: seq<bool>, seen: seq<Offered>, ends: seq<N.Ring>,
                          k: nat)
    requires index < |starts| == |ends| && k < |offers| == |seen|
  {
    var e := E.After(index, k + 1, |starts|);
    && OfferedOk(seen[k], offers[k])
    && P.Later(starts[e], seen[k].before) && P.Later(seen[k].after, ends[e])
  }

  lemma OffersOn(starts: seq<N.Ring>, index: nat, offers: seq<bool>, seen: seq<Offered>, between: seq<N.Ring>,
                 ok: bool, offer: Offered, ends: seq<N.Ring>)
    requires index < |starts| && Offers(starts, index, offers, seen, between) && OfferedOk(offer, ok)
    requires |ends| == |starts|
    requires var e := E.After(index, |offers| + 1, |starts|);
      offer.before == between[e] && offer.after == ends[e] && ends == between[e := ends[e]]
    ensures Offers(starts, index, offers + [ok], seen + [offer], ends)
  {
    hide P.IsFull;
    var e := E.After(index, |offers| + 1, |starts|);
    assert P.Later(between[e], ends[e]);
    forall k | 0 <= k < |offers| + 1 ensures OfferOk(starts, index, offers + [ok], seen + [offer], ends, k) {
      if k < |offers| { assert OfferOk(starts, index, offers, seen, between, k); }
    }
    forall i, k | 0 <= i < k < |offers| + 1 && E.After(index, i + 1, |starts|) == E.After(index, k + 1, |starts|)
      ensures P.Later((seen + [offer])[i].after, (seen + [offer])[k].before)
    {
      if k == |offers| { assert OfferOk(starts, index, offers, seen, between, i); }
    }
  }

  /** How things stood when run was called: what had been taken out and placed, how often each executor
      had refused, whose turn it was, and the rings; and whether anyone else does anything to the
      pre-scheduler ring during the call, or to the executors' rings. */
  datatype Begin = Begin(popped: seq<Handle>, pushed: seq<seq<Handle>>, failCount: seq<nat>, index: nat,
                         pre: M.Ring, posts: seq<N.Ring>, still: bool, calm: bool)

  class Scheduler {
    const pre: Q.Queue
    const posts: seq<P.Queue>
    const engine: E.Engine
    // What the loads of the flag answer, and how many there have been.
    const active: seq<bool>
    var loads: nat

    constructor (pre: Q.Queue, posts: seq<P.Queue>, engine: E.Engine, active: seq<bool>)
      ensures this.pre == pre && this.posts == posts && this.engine == engine
      ensures this.active == active && loads == 0
    {
      this.pre, this.posts, this.engine := pre, posts, engine;
      this.active, loads := active, 0;
    }

    /** No two of the rings share memory. */
    ghost predicate Apart()
    {
      && (forall i, j :: 0 <= i < j < |posts| ==>
            posts[i] != posts[j] && posts[i].active != posts[j].active && posts[i].handle != posts[j].handle)
      && (forall i :: 0 <= i < |posts| ==> posts[i].handle != pre.handle)
    }

    ghost predicate PostReady(e: nat)
      requires e < |posts|
      reads posts[e], posts[e].active, posts[e].handle
    {
      posts[e].Valid() && posts[e].producer.Idle?
    }

    /** No call of this thread is under way. */
    ghost predicate Ready()
      reads pre, pre.sequence, pre.handle
      reads posts, set q | q in posts :: q.active
      reads set q | q in posts :: q.handle
    {
      && pre.Valid() && pre.consumer.Resting?
      && (forall e :: 0 <= e < |posts| ==> PostReady(e))
    }

    /** m_active.load() */
    method LoadActive() returns (b: bool)
      modifies this`loads
      ensures b == Up(active, old(loads)) && loads == old(loads) + 1
    {
      b := loads < |active| && active[loads];
      loads := loads + 1;
    }

    /** Scheduler::push, called by any thread: refused without a look at the ring when the flag is
        down. */
    method Push(t: nat, a: Action) returns (ok: bool, ghost verdict: Option<Q.Verdict>)
      requires pre.Valid() && pre.Apart() && t < |pre.producers| && pre.producers[t].Away?
      requires pre.storage.Valid() && t < |pre.storage.registers| && pre.storage.registers[t].Idle?
      modifies this`loads, pre, pre.sequence, pre.handle
      modifies pre.storage, pre.storage.next, pre.storage.generation, pre.storage.action
      ensures pre.Valid() && pre.storage.Valid()
      ensures loads == old(loads) + 1 && (verdict.Some? <==> Up(active, old(loads)))
      ensures verdict.None? ==>
        !ok && pre.State() == old(pre.State()) && pre.storage.State() == old(pre.storage.State())
      ensures verdict.Some? ==>
        && Q.Explains(verdict.value, old(pre.State()), old(pre.storage.State()), pre.State(), pre.storage.State(), a)
        && ok == verdict.value.Enqueued?
        && (ok ==> pre.ClaimedBy(t, verdict.value.h, verdict.value.p))
      ensures t < |pre.storage.registers| && pre.storage.deeds[t]
        == old(pre.storage.deeds[t]) + if verdict.Some? then Q.DeedsFor(verdict.value) else []
      ensures Q.Claimed(old(pre.State()), pre.State(), t, if ok then [verdict.value.h] else [], old(pre.schedule) == [])
      ensures old(pre.schedule) == [] && old(pre.failures) == [] && old(pre.storage.schedule) == [] ==>
        ok == (Up(active, old(loads)) && old(pre.storage.free) != [] && !old(Q.IsFull(pre.State())))
      ensures old(pre.storage.schedule) == [] ==>
        pre.storage.LiveOnes() == old(pre.storage.LiveOnes()) + if ok then {verdict.value.h} else {}
    {
      hide M.Inv, S.Inv, S.LiveHandles, Q.Later, A.Kept;
      var open := LoadActive();
      if !open {
        return false, None;
      }
      ghost var why;
      ok, why := pre.Push(t, a);
      verdict := Some(why);
    }

    /** The handles taken out of the pre-scheduler ring since it held less. */
    ghost function Taken(before: seq<Handle>): seq<Handle>
      reads pre
    {
      if |before| <= |pre.popped| then pre.popped[|before|..] else []
    }

    /** What every executor was given so far. */
    ghost function AllPushed(): (pushed: seq<seq<Handle>>)
      reads posts
      ensures |pushed| == |posts| && forall e :: 0 <= e < |posts| ==> pushed[e] == posts[e].pushed
    {
      seq(|posts|, e requires 0 <= e < |posts| reads posts => posts[e].pushed)
    }

    /** Handles were placed in the order in which they were taken out, each at the executor whose
        turn it was, and at most the last one was not placed. */
    ghost predicate InOrder(popped: seq<Handle>, pushed: seq<seq<Handle>>, index: nat, offers: seq<bool>,
                            pending: Option<Handle>)
      requires index < |posts|
      reads pre, posts
    {
      var taken, to := Taken(popped), To(index, offers, |posts|);
      && popped <= pre.popped && |pushed| == |posts|
      && |taken| == |to| + Count(pending.Some?)
      && (pending.Some? ==> pending.value == taken[|to|])
      && (forall e :: 0 <= e < |posts| ==> posts[e].pushed == pushed[e] + L.Select(taken, to, e))
    }

    /** The engine chose in turn and counted the refusals. */
    ghost predicate InTurn(failCount: seq<nat>, index: nat, offers: seq<bool>)
      requires index < |posts|
      reads engine
    {
      && engine.Valid() && engine.executorCount == |posts| == |failCount|
      && engine.executorIndex == E.After(index, |offers|, |posts|)
      && (forall e :: 0 <= e < |posts| ==>
            engine.failCount[e] == (failCount[e] + Refused(index, offers, |posts|, e)) % E.UINT32)
    }

    method PlaceAt(e: nat, h: Handle, ghost popped: seq<Handle>, ghost pushed: seq<seq<Handle>>,
                   ghost index: nat, ghost offers: seq<bool>) returns (ok: bool, ghost offer: Offered)
      requires Apart() && Ready() && index < |posts|
      requires e < |posts| && e == E.After(index, |offers| + 1, |posts|)
      requires InOrder(popped, pushed, index, offers, Some(h))
      modifies posts[e], posts[e].active, posts[e].handle
      ensures Ready()
      ensures InOrder(popped, pushed, index, offers + [ok], if ok then None else Some(h))
      ensures OfferedOk(offer, ok) && offer.before == old(posts[e].State()) && offer.after == posts[e].State()
      ensures AllStates() == old(AllStates())[e := posts[e].State()]
      ensures old(posts[e].schedule) == [] ==> posts[e].schedule == [] && ok == !P.IsFull(offer.before)
    {
      hide P.Later, P.IsFull, N.Inv, M.Inv, L.Select, To;
      ghost var taken, to := Taken(popped), To(index, offers, |posts|);
      ghost var before := posts[e].State();
      ghost var moment;
      assert PostReady(e);
      ok, moment := posts[e].Push(h);
      OneOffer(before, ok, moment, posts[e].State());
      offer := Offered(before, if ok then before else moment, posts[e].State());
      forall x | 0 <= x < |posts| ensures PostReady(x) { }
      ToNext(index, offers, ok, |posts|);
      forall x | 0 <= x < |posts|
        ensures posts[x].pushed == pushed[x] + L.Select(taken, To(index, offers + [ok], |posts|), x)
      {
        if ok {
          SelectNext(taken, to, e, x);
          Associate(pushed[x], L.Select(taken, to, x), [h]);
        }
      }
    }

    lemma OneOffer(before: N.Ring, ok: bool, moment: N.Ring, after: N.Ring)
      requires P.Later(before, after)
      requires !ok ==>
        P.Later(before, moment) && P.IsFull(moment) && P.Later(moment, after) && after.pushed == before.pushed
      ensures OfferedOk(Offered(before, if ok then before else moment, after), ok)
    {
      hide P.IsFull;
    }

    /** The states of the executors' rings. */
    ghost function AllStates(): (states: seq<N.Ring>)
      reads posts, set q | q in posts :: q.active
      reads set q | q in posts :: q.handle
      ensures |states| == |posts| && forall e :: 0 <= e < |posts| ==> states[e] == posts[e].State()
    {
      seq(|posts|, e requires 0 <= e < |posts|
                   reads posts, (set q | q in posts :: q.active), (set q | q in posts :: q.handle) => posts[e].State())
    }

    /** The executors leave their rings alone. */
    ghost predicate Still()
      reads posts
    {
      forall e :: 0 <= e < |posts| ==> posts[e].schedule == []
    }

    /** The engine has chosen executor e for the next offer. */
    ghost predicate Chosen(failCount: seq<nat>, index: nat, offers: seq<bool>, e: nat)
      requires index < |posts|
      reads engine
    {
      && engine.Valid() && engine.executorCount == |posts| == |failCount|
      && e == engine.executorIndex == E.After(index, |offers| + 1, |posts|)
      && (forall x :: 0 <= x < |posts| ==>
            engine.failCount[x] == (failCount[x] + Refused(index, offers, |posts|, x)) % E.UINT32)
    }

    method Choose(ghost failCount: seq<nat>, ghost index: nat, ghost offers: seq<bool>) returns (e: nat)
      requires index < |posts| && InTurn(failCount, index, offers)
      modifies engine`executorIndex
      ensures Chosen(failCount, index, offers, e)
    {
      E.AfterNext(index, |offers|, |posts|);
      e := engine.ChooseExecutor();
    }

    method Report(e: nat, ok: bool, ghost failCount: seq<nat>, ghost index: nat, ghost offers: seq<bool>)
      requires index < |posts| && Chosen(failCount, index, offers, e)
      modifies engine`failCount
      ensures InTurn(failCount, index, offers + [ok])
    {
      engine.ReportPushResult(ok);
      assert (offers + [ok])[..|offers|] == offers;
    }

    /** One offer of the pending handle to the executor whose turn it is. */
    method Offer(h: Handle, ghost popped: seq<Handle>, ghost pushed: seq<seq<Handle>>, ghost failCount: seq<nat>,
                 ghost index: nat, ghost offers: seq<bool>, ghost starts: seq<N.Ring>, ghost seen: seq<Offered>)
        returns (ok: bool, ghost offer: Offered)
      requires Apart() && Ready() && index < |posts| == |starts|
      requires InOrder(popped, pushed, index, offers, Some(h)) && InTurn(failCount, index, offers)
      requires Offers(starts, index, offers, seen, AllStates())
      modifies posts, engine, set q | q in posts :: q.active
      modifies set q | q in posts :: q.handle
      ensures Ready()
      ensures InOrder(popped, pushed, index, offers + [ok], if ok then None else Some(h))
      ensures InTurn(failCount, index, offers + [ok])
      ensures Offers(starts, index, offers + [ok], seen + [offer], AllStates())
      ensures old(Still()) ==> Still() && ok == !P.IsFull(offer.before)
    {
      hide InTurn, InOrder, PostReady, Ready, Apart, Offers, OfferedOk, P.IsFull;
      ghost var states := AllStates();
      var e := Choose(failCount, index, offers);
      assert e < |posts| && e == E.After(index, |offers| + 1, |posts|);
      ok, offer := PlaceAt(e, h, popped, pushed, index, offers);
      OffersOn(starts, index, offers, seen, states, ok, offer, AllStates());
      Report(e, ok, failCount, index, offers);
    }

    /** The next handle, if the pre-scheduler ring has one to give. */
    method Pull(ghost popped: seq<Handle>, ghost pushed: seq<seq<Handle>>, ghost index: nat, ghost offers: seq<bool>)
        returns (pending: Option<Handle>, ghost look: Look)
      requires Apart() && Ready() && index < |posts| && InOrder(popped, pushed, index, offers, None)
      modifies pre, pre.sequence, pre.handle
      ensures Ready() && InOrder(popped, pushed, index, offers, pending)
      ensures look.before == old(pre.State()) && look.after == pre.State() && Q.Later(look.before, look.after)
      ensures pending.None? ==> LookOk(look)
      ensures old(pre.schedule) == [] ==> pre.schedule == [] && (pending.None? <==> Q.Unannounced(look.before))
    {
      hide M.Inv, N.Inv, Q.Later, P.Queue.Valid, Q.Unannounced;
      ghost var taken, to := Taken(popped), To(index, offers, |posts|);
      ghost var before, moment := pre.State(), pre.State();
      pending, moment := pre.Pop();
      look := Look(before, moment, pre.State());
      forall x | 0 <= x < |posts| ensures PostReady(x) { }
      if pending.Some? {
        assert Taken(popped) == taken + [pending.value];
        forall x | 0 <= x < |posts|
          ensures posts[x].pushed == pushed[x] + L.Select(Taken(popped), to, x)
        {
          L.SelectGrows(taken, [pending.value], to, x);
        }
      }
    }

    /** What is true between the turns. */
    ghost predicate Going(b: Begin, pending: Option<Handle>, offers: seq<bool>, seen: seq<Offered>, quiet: seq<Look>)
      reads pre, pre.sequence, pre.handle, engine
      reads posts, set q | q in posts :: q.active
      reads set q | q in posts :: q.handle
    {
      && b.index < |posts| == |b.posts|
      && InOrder(b.popped, b.pushed, b.index, offers, pending) && InTurn(b.failCount, b.index, offers)
      && Looks(b.pre, quiet, pre.State()) && Offers(b.posts, b.index, offers, seen, AllStates())
      && (b.still ==> pre.schedule == [] && forall k :: 0 <= k < |quiet| ==> Q.Unannounced(quiet[k].before))
      && (b.calm ==> Still() && AsTheRingsWere(offers, seen))
    }

    /** Every offer was accepted exactly if there was room. */
    ghost predicate AsTheRingsWere(offers: seq<bool>, seen: seq<Offered>)
    {
      |seen| == |offers| && forall k :: 0 <= k < |offers| ==> offers[k] == !P.IsFull(seen[k].before)
    }

    /** The first half of a turn, when nothing is pending. */
    method PullNext(ghost b: Begin, ghost offers: seq<bool>, ghost seen: seq<Offered>, ghost quiet: seq<Look>)
        returns (pending: Option<Handle>, ghost quiet': seq<Look>)
      requires Apart() && Ready() && Going(b, None, offers, seen, quiet)
      modifies pre, pre.sequence, pre.handle
      ensures Ready() && Going(b, pending, offers, seen, quiet')
      ensures |quiet'| == |quiet| + Count(pending.None?)
    {
      hide InTurn, InOrder, PostReady, Ready, Looks, Offers, LookOk, Q.Unannounced, P.IsFull, Q.Later;
      ghost var states, look := AllStates(), Look(pre.State(), pre.State(), pre.State());
      pending, look := Pull(b.popped, b.pushed, b.index, offers);
      assert AllStates() == states;
      LooksOn(b.pre, quiet, look.before, look, look.after, pending.Some?);
      quiet' := if pending.None? then quiet + [look] else quiet;
    }

    /** The second half: the pending handle is offered. */
    method OfferNext(h: Handle, ghost b: Begin, ghost offers: seq<bool>, ghost seen: seq<Offered>,
                     ghost quiet: seq<Look>)
        returns (ok: bool, ghost seen': seq<Offered>)
      requires Apart() && Ready() && Going(b, Some(h), offers, seen, quiet)
      modifies posts, engine, set q | q in posts :: q.active
      modifies set q | q in posts :: q.handle
      ensures Ready() && Going(b, if ok then None else Some(h), offers + [ok], seen', quiet)
    {
      hide InTurn, InOrder, PostReady, Ready, Looks, Offers, LookOk, Q.Unannounced, P.IsFull;
      ghost var offer;
      ok, offer := Offer(h, b.popped, b.pushed, b.failCount, b.index, offers, b.posts, seen);
      seen' := seen + [offer];
    }

    /** The state of things now, with counters for all executors. */
    ghost function Now(): Begin
      reads pre, pre.sequence, pre.handle, engine
      reads posts, set q | q in posts :: q.active
      reads set q | q in posts :: q.handle
    {
      Begin(pre.popped, AllPushed(), E.Resized(engine.failCount, |posts|), engine.executorIndex,
            pre.State(), AllStates(), pre.schedule == [], Still())
    }

    /** set_executors */
    method Prepare() returns (ghost b: Begin)
      requires Apart() && Ready() && engine.executorIndex < |posts|
      requires forall e :: 0 <= e < |engine.failCount| ==> engine.failCount[e] < E.UINT32
      modifies engine
      ensures Ready() && b == old(Now()) && Going(b, None, [], [], [])
    {
      hide InTurn, InOrder, PostReady, Looks, Offers;
      b := Now();
      engine.SetExecutors(|posts|);
      NothingYet(b);
    }

    /** Scheduler::run, until a load of the flag finds it down: a handle is taken out of the
        pre-scheduler ring only when none is pending, and the pending one is offered round the
        executors until one of them takes it; one that refuses it is full. A turn without an offer
        looked into the ring and found nothing to take. At the end at most one handle is left over. */
    method Run()
        returns (pending: Option<Handle>, ghost offers: seq<bool>, ghost seen: seq<Offered>, ghost quiet: seq<Look>)
      requires Apart() && Ready() && engine.executorIndex < |posts|
      requires forall e :: 0 <= e < |engine.failCount| ==> engine.failCount[e] < E.UINT32
      modifies this`loads, pre, pre.sequence, pre.handle, engine, posts, set q | q in posts :: q.active
      modifies set q | q in posts :: q.handle
      ensures Ready() && Going(old(Now()), pending, offers, seen, quiet)
      ensures loads == old(loads) + |offers| + |quiet| + 1 && !Up(active, loads - 1)
      ensures forall i :: old(loads) <= i < loads - 1 ==> Up(active, i)
    {
      hide Ready, Apart, Going, Now;
      ghost var b := Prepare();
      pending, offers, seen, quiet := None, [], [], [];
      var go := LoadActive();
      while go
        invariant Ready() && Going(b, pending, offers, seen, quiet)
        invariant loads == old(loads) + |offers| + |quiet| + 1 && go == Up(active, loads - 1)
        invariant forall i :: old(loads) <= i < loads - 1 ==> Up(active, i)
        decreases |active| + 1 - loads
      {
        if pending.None? {
          pending, quiet := PullNext(b, offers, seen, quiet);
        }
        if pending.Some? {
          var ok;
          ok, seen := OfferNext(pending.value, b, offers, seen, quiet);
          offers := offers + [ok];
          if ok { pending := None; }
        }
        go := LoadActive();
      }
    }

    lemma NothingYet(b: Begin)
      requires b.index < |posts| && b.popped == pre.popped && b.pushed == AllPushed()
      requires engine.Valid() && engine.executorCount == |posts| && engine.executorIndex == b.index
      requires b.failCount == engine.failCount && b.pre == pre.State() && b.posts == AllStates()
      requires b.still == (pre.schedule == []) && b.calm == Still()
      ensures Going(b, None, [], [], [])
    {
    }
  }

  lemma ToNext(index: nat, offers: seq<bool>, ok: bool, count: nat)
    requires index < count
    ensures To(index, offers + [ok], count)
      == if ok then To(index, offers, count) + [E.After(index, |offers| + 1, count)] else To(index, offers, count)
  {
    assert (offers + [ok])[..|offers|] == offers;
  }

  lemma SelectNext(taken: seq<Handle>, to: seq<nat>, e: nat, x: nat)
    requires |to| < |taken|
    ensures L.Select(taken, to + [e], x) == L.Select(taken, to, x) + if x == e then [taken[|to|]] else []
  {
    assert (to + [e])[..|to|] == to;
  }
}
