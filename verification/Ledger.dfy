// The pipeline as a reader would describe it: every issued handle is in one place, and moves
// from place to place in whole steps. The fine-grained machine refines this one.
module Ledger {
  import opened Base
  import opened Handles

  /** The place of an issued handle. */
  datatype Where =
    | Held(t: nat)                // by an agent in the middle of a push
    | Queued(pos: nat)            // in the pre-scheduler ring
    | InHand                      // with the scheduler
    | Posted(e: nat, pos: nat)    // in the ring of executor e
    | Redeemed

  /** An executor's ring: all it was ever given, the first position whose flag is still set,
      and whether the handle there was redeemed already. */
  datatype Lane = Lane(pushed: seq<Handle>, front: nat, gone: bool)

  datatype Ledger = Ledger(
    held: seq<Option<Handle>>,    // what each agent carries
    claimed: seq<Handle>,         // the pre-scheduler ring: all it was ever given,
    front: nat,                   //   and the first position not yet taken out
    hand: Option<Handle>,         // what the scheduler carries
    lanes: seq<Lane>,
    live: set<Handle>,            // issued and not redeemed
    place: map<Handle, Where>,
    dispatched: seq<nat>)         // the executor of each handle placed so far

  datatype Event =
    | Issue(t: nat, h: Handle)    // register_action hands out h
    | Cancel(t: nat)              // the ring was full: the handle is redeemed and dropped
    | Claim(t: nat)               // a position of the pre-scheduler ring is claimed
    | Take                        // the scheduler takes the front handle
    | Deliver(e: nat)             // the scheduler places its handle with executor e
    | Redeem(e: nat)              // executor e redeems the handle at its front
    | Retire(e: nat)              // executor e clears the flag of its front

  predicate Allowed(v: Ledger, x: Event)
  {
    match x
    case Issue(t, h) => t < |v.held| && v.held[t] == None && h !in v.place
    case Cancel(t) => t < |v.held| && v.held[t].Some?
    case Claim(t) => t < |v.held| && v.held[t].Some?
    case Take => v.hand == None && v.front < |v.claimed|
    case Deliver(e) => v.hand.Some? && e < |v.lanes|
    case Redeem(e) => e < |v.lanes| && !v.lanes[e].gone && v.lanes[e].front < |v.lanes[e].pushed|
    case Retire(e) => e < |v.lanes| && v.lanes[e].gone
  }

  function Move(v: Ledger, h: Handle, w: Where): Ledger
  {
    v.(place := v.place[h := w])
  }

  function SetLane(v: Ledger, e: nat, lane: Lane): Ledger
    requires e < |v.lanes|
  {
    v.(lanes := v.lanes[e := lane])
  }

  function Do(v: Ledger, x: Event): Ledger
    requires Allowed(v, x)
  {
    match x
    case Issue(t, h) => Move(v, h, Held(t)).(held := v.held[t := Some(h)], live := v.live + {h})
    case Cancel(t) =>
      var h := v.held[t].value;
      Move(v, h, Redeemed).(held := v.held[t := None], live := v.live - {h})
    case Claim(t) =>
      var h := v.held[t].value;
      Move(v, h, Queued(|v.claimed|)).(held := v.held[t := None], claimed := v.claimed + [h])
    case Take =>
      var h := v.claimed[v.front];
      Move(v, h, InHand).(front := v.front + 1, hand := Some(h))
    case Deliver(e) =>
      var h, lane := v.hand.value, v.lanes[e];
      SetLane(Move(v, h, Posted(e, |lane.pushed|)), e, lane.(pushed := lane.pushed + [h])).(
        hand := None, dispatched := v.dispatched + [e])
    case Redeem(e) =>
      var lane := v.lanes[e];
      var h := lane.pushed[lane.front];
      SetLane(Move(v, h, Redeemed), e, lane.(gone := true)).(live := v.live - {h})
    case Retire(e) =>
      var lane := v.lanes[e];
      SetLane(v, e, lane.(front := lane.front + 1, gone := false))
  }

  // ----- the invariant -----

  predicate At(v: Ledger, h: Handle, w: Where)
  {
    h in v.place && v.place[h] == w
  }

  ghost predicate HeldOk(v: Ledger)
  {
    forall t :: 0 <= t < |v.held| && v.held[t].Some? ==> At(v, v.held[t].value, Held(t))
  }

  ghost predicate QueuedOk(v: Ledger)
  {
    forall p :: v.front <= p < |v.claimed| ==> At(v, v.claimed[p], Queued(p))
  }

  predicate HandOk(v: Ledger)
  {
    v.hand.Some? ==> At(v, v.hand.value, InHand)
  }

  ghost predicate LaneOk(v: Ledger, e: nat)
    requires e < |v.lanes|
  {
    var lane := v.lanes[e];
    && lane.front <= |lane.pushed|
    && (lane.gone ==> lane.front < |lane.pushed|)
    && (forall p :: lane.front <= p < |lane.pushed| ==>
          At(v, lane.pushed[p], if p == lane.front && lane.gone then Redeemed else Posted(e, p)))
  }

  ghost predicate LanesOk(v: Ledger)
  {
    forall e :: 0 <= e < |v.lanes| ==> LaneOk(v, e)
  }

  /** The recorded place of h is where h really is. */
  predicate PlaceOk(v: Ledger, h: Handle)
    requires h in v.place
  {
    match v.place[h]
    case Held(t) => t < |v.held| && v.held[t] == Some(h)
    case Queued(p) => v.front <= p < |v.claimed| && v.claimed[p] == h
    case InHand => v.hand == Some(h)
    case Posted(e, p) =>
      && e < |v.lanes|
      && v.lanes[e].front <= p < |v.lanes[e].pushed| && v.lanes[e].pushed[p] == h
      && !(p == v.lanes[e].front && v.lanes[e].gone)
    case Redeemed => true
  }

  ghost predicate PlacesOk(v: Ledger)
  {
    && (forall h :: h in v.place ==> PlaceOk(v, h))
    && (forall h :: h in v.live <==> h in v.place && v.place[h] != Redeemed)
  }

  /** No handle is claimed twice, and none is claimed while an agent still carries it. */
  ghost predicate ClaimsOk(v: Ledger)
  {
    && Distinct(v.claimed)
    && (forall p :: 0 <= p < |v.claimed| ==> v.claimed[p] in v.place && !v.place[v.claimed[p]].Held?)
  }

  /** The entries of list that went to executor e. */
  function Select(list: seq<Handle>, to: seq<nat>, e: nat): seq<Handle>
    requires |to| <= |list|
  {
    if to == [] then []
    else
      var n := |to| - 1;
      Select(list, to[..n], e) + (if to[n] == e then [list[n]] else [])
  }

  /** Handles are placed in claim order; what was taken out and not placed is in hand. */
  ghost predicate OrderOk(v: Ledger)
  {
    && |v.dispatched| <= v.front <= |v.claimed|
    && v.front == |v.dispatched| + Count(v.hand.Some?)
    && (v.hand.Some? ==> v.hand.value == v.claimed[|v.dispatched|])
    && (forall e :: 0 <= e < |v.lanes| ==> v.lanes[e].pushed == Select(v.claimed, v.dispatched, e))
    && (forall p :: 0 <= p < |v.dispatched| ==> v.dispatched[p] < |v.lanes|)
  }

  ghost predicate Inv(v: Ledger)
  {
    && HeldOk(v) && QueuedOk(v) && HandOk(v) && LanesOk(v)
    && PlacesOk(v) && ClaimsOk(v) && OrderOk(v)
  }

  lemma {:induction false} SelectGrows(list: seq<Handle>, more: seq<Handle>, to: seq<nat>, e: nat)
    requires |to| <= |list|
    ensures Select(list + more, to, e) == Select(list, to, e)
    decreases |to|
  {
    if to != [] {
      SelectGrows(list, more, to[..|to| - 1], e);
    }
  }

  lemma IssueInv(v: Ledger, t: nat, h: Handle)
    requires Inv(v) && Allowed(v, Issue(t, h))
    ensures Inv(Do(v, Issue(t, h)))
  {
    var v' := Do(v, Issue(t, h));
    forall e | 0 <= e < |v.lanes| ensures LaneOk(v', e) { assert LaneOk(v, e); }
    forall g | g in v'.place ensures PlaceOk(v', g) { assert g != h ==> PlaceOk(v, g); }
  }

  lemma CancelInv(v: Ledger, t: nat)
    requires Inv(v) && Allowed(v, Cancel(t))
    ensures Inv(Do(v, Cancel(t)))
  {
    var v' := Do(v, Cancel(t));
    forall e | 0 <= e < |v.lanes| ensures LaneOk(v', e) { assert LaneOk(v, e); }
    forall g | g in v'.place ensures PlaceOk(v', g) { assert PlaceOk(v, g); }
  }

  lemma ClaimPlaces(v: Ledger, t: nat)
    requires Inv(v) && Allowed(v, Claim(t))
    ensures LanesOk(Do(v, Claim(t))) && PlacesOk(Do(v, Claim(t)))
  {
    var v' := Do(v, Claim(t));
    forall e | 0 <= e < |v.lanes| ensures LaneOk(v', e) { assert LaneOk(v, e); }
    forall g | g in v'.place ensures PlaceOk(v', g) { assert PlaceOk(v, g); }
  }

  lemma ClaimInv(v: Ledger, t: nat)
    requires Inv(v) && Allowed(v, Claim(t))
    ensures Inv(Do(v, Claim(t)))
  {
    hide LaneOk, PlaceOk;
    ClaimPlaces(v, t);
    var v' := Do(v, Claim(t));
    var h := v.held[t].value;
    forall e | 0 <= e < |v.lanes| ensures v'.lanes[e].pushed == Select(v'.claimed, v'.dispatched, e) {
      SelectGrows(v.claimed, [h], v.dispatched, e);
    }
  }

  lemma TakeInv(v: Ledger)
    requires Inv(v) && Allowed(v, Take)
    ensures Inv(Do(v, Take))
  {
    var v' := Do(v, Take);
    assert At(v, v.claimed[v.front], Queued(v.front));
    forall e | 0 <= e < |v.lanes| ensures LaneOk(v', e) { assert LaneOk(v, e); }
    forall g | g in v'.place ensures PlaceOk(v', g) { assert PlaceOk(v, g); }
  }

  lemma DeliverOrder(v: Ledger, e: nat)
    requires OrderOk(v) && Allowed(v, Deliver(e))
    ensures OrderOk(Do(v, Deliver(e)))
  {
    var v' := Do(v, Deliver(e));
    assert v'.dispatched[..|v.dispatched|] == v.dispatched;
  }

  lemma DeliverLanes(v: Ledger, e: nat)
    requires HandOk(v) && LanesOk(v) && Allowed(v, Deliver(e))
    ensures LanesOk(Do(v, Deliver(e)))
  {
    var v' := Do(v, Deliver(e));
    forall u | 0 <= u < |v.lanes| ensures LaneOk(v', u) { assert LaneOk(v, u); }
  }

  lemma DeliverInv(v: Ledger, e: nat)
    requires Inv(v) && Allowed(v, Deliver(e))
    ensures Inv(Do(v, Deliver(e)))
  {
    var v' := Do(v, Deliver(e));
    DeliverLanes(v, e);
    DeliverOrder(v, e);
    assert LaneOk(v, e);
    forall g | g in v'.place ensures PlaceOk(v', g) { assert PlaceOk(v, g); }
  }

  lemma RedeemInv(v: Ledger, e: nat)
    requires Inv(v) && Allowed(v, Redeem(e))
    ensures Inv(Do(v, Redeem(e)))
  {
    var v' := Do(v, Redeem(e));
    assert LaneOk(v, e);
    forall u | 0 <= u < |v.lanes| ensures LaneOk(v', u) { assert LaneOk(v, u); }
    forall g | g in v'.place ensures PlaceOk(v', g) { assert PlaceOk(v, g); }
  }

  lemma RetireInv(v: Ledger, e: nat)
    requires Inv(v) && Allowed(v, Retire(e))
    ensures Inv(Do(v, Retire(e)))
  {
    var v' := Do(v, Retire(e));
    assert LaneOk(v, e);
    forall u | 0 <= u < |v.lanes| ensures LaneOk(v', u) { assert LaneOk(v, u); }
    forall g | g in v'.place ensures PlaceOk(v', g) { assert PlaceOk(v, g); }
  }

  lemma DoInv(v: Ledger, x: Event)
    requires Inv(v) && Allowed(v, x)
    ensures Inv(Do(v, x))
  {
    match x
    case Issue(t, h) => IssueInv(v, t, h);
    case Cancel(t) => CancelInv(v, t);
    case Claim(t) => ClaimInv(v, t);
    case Take => TakeInv(v);
    case Deliver(e) => DeliverInv(v, e);
    case Redeem(e) => RedeemInv(v, e);
    case Retire(e) => RetireInv(v, e);
  }
}
