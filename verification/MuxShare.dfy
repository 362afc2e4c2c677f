/**
 * The minimum share of a lane in the running multiplexer: what its picks amount to, and how much of that is
 * delivered rather than refused by the bucket (scheduler/scheduler.go).
 */
module MuxShare {
  import opened Wrappers
  import opened Queues
  import opened Wfq
  import opened Mux
  import opened MuxRuns
  import opened Starvation
  import B = TokenBucket

  /** Lane k has something queued at every round of the run. */
  ghost predicate Queued(s: System, es: seq<Event>, k: Lane)
    decreases |es|
  {
    es == [] ||
    (var t := Ran(s, es[..|es| - 1]);
     Queued(s, es[..|es| - 1], k) && (IsRound(t, es[|es| - 1]) ==> !t.qs.Get(k).Empty()))
  }

  function Taking(s: System, e: Event, k: Lane): nat {
    if IsRound(s, e) && Next(s, e).qs.Get(k) != s.qs.Get(k) then HeadCost(s.qs.Get(k)) else 0
  }

  /** The cost of what the rounds of the run take from lane k. */
  function Taken(s: System, es: seq<Event>, k: Lane): nat
    decreases |es|
  {
    if es == [] then 0 else Taken(s, es[..|es| - 1], k) + Taking(Ran(s, es[..|es| - 1]), es[|es| - 1], k)
  }

  function TotalCost(items: seq<Item>): nat
    decreases |items|
  {
    if items == [] then 0 else TotalCost(items[..|items| - 1]) + items[|items| - 1].Cost()
  }

  function Returning(s: System, e: Event, k: Lane): nat {
    if e.PutBack? && s.drainer.Refused? && s.drainer.it.Lane() == k then s.drainer.it.Cost() else 0
  }

  /** The cost of what is put back on lane k. */
  function PutBackCost(s: System, es: seq<Event>, k: Lane): nat
    decreases |es|
  {
    if es == [] then 0 else PutBackCost(s, es[..|es| - 1], k) + Returning(Ran(s, es[..|es| - 1]), es[|es| - 1], k)
  }

  function DeliveredCost(l: Log, k: Lane): nat {
    TotalCost(l.delivered.Get(k))
  }

  // ---------- what is taken is what the turns charge ----------

  lemma {:induction false} QueuedIsBacklogged(s: System, es: seq<Event>, k: Lane)
    requires Queued(s, es, k)
    ensures Backlogged(Turns(s, es), k)
    decreases |es|
  {
    hide IsRound;
    hide Next;
    if es != [] {
      QueuedIsBacklogged(s, es[..|es| - 1], k);
      BacklogIs(Ran(s, es[..|es| - 1]).qs, k);
    }
  }

  lemma {:induction false} TakenIsPaid(s: System, p: Standing, es: seq<Event>, k: Lane, lo: int, hi: int)
    requires Possible(s, es) && Mirrors(s, p) && Sized(s, lo, hi) && Offers(es, lo, hi) && k != Signal
    ensures Taken(s, es, k) == Paid(p, s.weights, Turns(s, es), k)
    decreases |es|
  {
    hide Next;
    hide Enabled;
    hide Advance;
    hide Served;
    hide Sized;
    hide Mirrors;
    hide IsRound;
    hide ItemBetween;
    hide Taking;
    hide TurnOf;
    hide Legal;
    if es != [] {
      var front, e := es[..|es| - 1], es[|es| - 1];
      TakenIsPaid(s, p, front, k, lo, hi);
      RunsAreTurns(s, p, front, lo, hi);
      var t, ts := Ran(s, front), Turns(s, front);
      if IsRound(t, e) {
        RoundEvent(t, e);
        RoundPays(t, Played(p, s.weights, ts), k);
        assert (ts + [TurnOf(t)])[..|ts|] == ts;
      } else {
        NoRoundTakesNothing(t, e, k);
        assert Turns(s, es) == ts;
      }
    }
  }

  lemma NoRoundTakesNothing(s: System, e: Event, k: Lane)
    requires !IsRound(s, e) || !e.Pick?
    ensures Taking(s, e, k) == 0
  {
  }

  /** What a round takes from lane k is what it charges. */
  lemma RoundPays(s: System, p: Standing, k: Lane)
    requires Mirrors(s, p) && IsRound(s, Pick) && k != Signal
    ensures Taking(s, Pick, k) == if Served(p, s.weights, TurnOf(s)) == Some(k) then TurnOf(s).cost.Get(k) else 0
  {
    hide Next;
    hide Served;
    hide Mirrors;
    hide IsRound;
    hide HeadCost;
    RoundIsTurn(s, p);
    HeadCostIs(s.qs, k);
    DequeueAlways(s.qs, k);
  }

  lemma HeadCostIs(qs: PerLane<QueueState>, k: Lane)
    ensures HeadCosts(qs).Get(k) == HeadCost(qs.Get(k))
  {
  }

  lemma DequeueAlways(qs: PerLane<QueueState>, k: Lane)
    ensures !qs.Get(k).Empty() ==> qs.Get(k).Dequeued() != qs.Get(k)
  {
    if !qs.Get(k).Empty() {
      DequeueChanges(qs.Get(k));
    }
  }

  // ---------- what is taken is delivered, put back, or in hand ----------

  ghost predicate Settled(s: System, l: Log, t: System, m: Log, taken: nat, back: nat, k: Lane) {
    taken + TotalCost(InHand(s.drainer, k)) + DeliveredCost(l, k)
    == DeliveredCost(m, k) + back + TotalCost(InHand(t.drainer, k))
  }

  lemma CostOfOne(items: seq<Item>, it: Item)
    ensures TotalCost(items + [it]) == TotalCost(items) + it.Cost()
    ensures TotalCost([it]) == it.Cost()
  {
    assert [it][..0] == [] && (items + [it])[..|items|] == items;
  }

  lemma NoCost()
    ensures TotalCost([]) == 0
  {
  }

  lemma PickSettled(s: System, l: Log, k: Lane)
    requires Inv(s, l) && s.drainer.Idle? && k != Signal
    ensures Settled(s, l, Next(s, Pick), l, Taking(s, Pick, k), 0, k)
  {
    hide Round;
    hide LaneInv;
    hide Placed;
    hide B.ValidState;
    hide TotalCost;
    PickedShape(s.qs, s.credit, s.weights);
    var (qs, _, r) := Picked(s.qs, s.credit, s.weights);
    hide Picked;
    NoCost();
    if r.Some? {
      var at: Lane :| TakenFrom(s.qs, at, r.value) && qs == s.qs.Set(at, s.qs.Get(at).Dequeued());
      HeadLane(s, l, at);
      HeadLane(s, l, Signal);
      DequeueAlways(s.qs, k);
      BusyWith(s.qs, at);
      CostOfOne([], r.value);
    }
    hide Inv;
  }

  lemma HeadLane(s: System, l: Log, at: Lane)
    requires Inv(s, l)
    ensures !s.qs.Get(at).Empty() ==> s.qs.Get(at).items[0].Lane() == at
  {
    assert LaneOk(s, l, at);
    hide LaneInv;
  }

  lemma BusyWith(qs: PerLane<QueueState>, at: Lane)
    ensures !qs.Get(at).Empty() && at != Signal ==> Busy(Backlog(qs))
  {
    BacklogIs(qs, at);
  }

  /** Every step of every goroutine, for a lane other than signal. */
  lemma StepSettled(s: System, l: Log, e: Event, k: Lane)
    requires Inv(s, l) && Enabled(s, e) && k != Signal
    ensures Settled(s, l, Next(s, e), Recorded(s, l, e), Taking(s, e, k), Returning(s, e, k), k)
  {
    hide Inv;
    hide Next;
    hide Recorded;
    hide Taking;
    hide Settled;
    if e.Pick? {
      hide Returning;
      PickSettled(s, l, k);
      PickUnlogged(s, l, k);
    } else if e.Send? {
      CostOfOne(l.delivered.Get(k), s.drainer.it);
      CostOfHand(s.drainer);
      hide TotalCost;
      SendSettled(s, l, e, k);
      NoRoundTakesNothing(s, e, k);
    } else {
      OtherSettled(s, l, e, k);
      NoRoundTakesNothing(s, e, k);
    }
  }

  lemma PickUnlogged(s: System, l: Log, k: Lane)
    ensures Recorded(s, l, Pick) == l && Returning(s, Pick, k) == 0
  {
  }

  lemma OtherSettled(s: System, l: Log, e: Event, k: Lane)
    requires Enabled(s, e) && !e.Pick? && !e.Send?
    ensures Settled(s, l, Next(s, e), Recorded(s, l, e), 0, Returning(s, e, k), k)
  {
    hide TotalCost;
    NoCost();
    CostOfHand(s.drainer);
    hide B.Allowed;
    if e.PutBack? {
      assert Recorded(s, l, e).delivered == l.delivered;
    } else {
      hide Recorded;
      SameDeliveries(s, l, e);
      hide Next;
      SameHand(s, e, k);
    }
  }

  lemma SameDeliveries(s: System, l: Log, e: Event)
    requires !e.Send?
    ensures Recorded(s, l, e).delivered == l.delivered
  {
  }

  lemma SameHand(s: System, e: Event, k: Lane)
    requires Enabled(s, e) && !e.Pick? && !e.Send? && !e.PutBack?
    ensures InHand(Next(s, e).drainer, k) == InHand(s.drainer, k)
  {
    hide B.Allowed;
  }

  lemma SendSettled(s: System, l: Log, e: Event, k: Lane)
    requires Enabled(s, e) && e.Send?
    requires TotalCost(l.delivered.Get(k) + [s.drainer.it]) == TotalCost(l.delivered.Get(k)) + TotalCost([s.drainer.it])
    ensures Settled(s, l, Next(s, e), Recorded(s, l, e), 0, 0, k)
  {
    hide TotalCost;
    NoCost();
  }

  lemma CostOfHand(d: Drainer)
    ensures !d.Idle? ==> TotalCost([d.it]) == d.it.Cost()
  {
    if !d.Idle? {
      CostOfOne([], d.it);
    }
  }

  lemma {:induction false} RunSettled(s: System, l: Log, es: seq<Event>, k: Lane)
    requires Inv(s, l) && Possible(s, es) && k != Signal
    ensures Settled(s, l, Ran(s, es), Logged(s, l, es), Taken(s, es, k), PutBackCost(s, es, k), k)
    decreases |es|
  {
    hide Inv;
    hide Next;
    hide Recorded;
    hide Enabled;
    hide TotalCost;
    hide Taking;
    hide Returning;
    hide InHand;
    if es != [] {
      var front := es[..|es| - 1];
      RunSettled(s, l, front, k);
      RunKeepsInv(s, l, front);
      StepSettled(Ran(s, front), Logged(s, l, front), es[|es| - 1], k);
    }
  }

  // ---------- refusals cost at most S each ----------

  function Refusals(l: Log, m: Log, k: Lane): int {
    m.putBacks.Get(k) - l.putBacks.Get(k)
  }

  lemma StepReturns(s: System, l: Log, e: Event, k: Lane, lo: nat, hi: nat)
    requires Sized(s, lo, hi)
    ensures Returning(s, e, k) <= hi * Refusals(l, Recorded(s, l, e), k) && Refusals(l, Recorded(s, l, e), k) >= 0
  {
    hide ItemsBetween;
  }

  lemma {:induction false} ReturnsBounded(s: System, p: Standing, l: Log, es: seq<Event>, k: Lane, lo: nat, hi: nat)
    requires Possible(s, es) && Mirrors(s, p) && Sized(s, lo, hi) && Offers(es, lo, hi)
    ensures Refusals(l, Logged(s, l, es), k) >= 0
    ensures PutBackCost(s, es, k) <= hi * Refusals(l, Logged(s, l, es), k)
    decreases |es|
  {
    hide Next;
    hide Recorded;
    hide Enabled;
    hide Sized;
    hide Mirrors;
    hide Returning;
    hide Legal;
    if es != [] {
      var front, e := es[..|es| - 1], es[|es| - 1];
      ReturnsBounded(s, p, l, front, k, lo, hi);
      RunsAreTurns(s, p, front, lo, hi);
      var m := Logged(s, l, front);
      StepReturns(Ran(s, front), m, e, k, lo, hi);
      Distribute(hi, Refusals(l, m, k), Refusals(m, Logged(s, l, es), k));
    }
  }

  lemma Distribute(x: int, a: int, b: int)
    ensures x * a + x * b == x * (a + b)
  {
  }

  lemma HandBounded(s: System, k: Lane, lo: nat, hi: nat)
    requires Sized(s, lo, hi)
    ensures TotalCost(InHand(s.drainer, k)) <= hi
  {
    CostOfHand(s.drainer);
    NoCost();
    hide TotalCost;
    hide ItemsBetween;
  }

  /**
   * The minimum share. After any history, take any stretch of n rounds in which a lane of weight w always has something
   * queued, and let every item cost between ΣW and S. What the rounds take from the lane costs at least
   * n·w - 3·ΣW - S, and what is delivered of it at least n·w - 3·ΣW - (r + 2)·S, where r counts the lane's items
   * that the bucket refused in the stretch. With items between 4·wmax and S it is more than
   * n·w - 4·wmax - (r + 2)·S.
   */
  lemma MinimumDelivery(s: System, ds: seq<Event>, es: seq<Event>, k: Lane, lo: nat, hi: nat)
    requires Initial(s) && Possible(s, ds) && Possible(Ran(s, ds), es) && Offers(ds, lo, hi) && Offers(es, lo, hi)
    requires k != Signal && Queued(Ran(s, ds), es, k)
    ensures var n, w := |Turns(Ran(s, ds), es)|, s.weights;
            var l := Logged(s, NOTHING, ds);
            var m := Logged(Ran(s, ds), l, es);
            var delivered, r := DeliveredCost(m, k) - DeliveredCost(l, k), Refusals(l, m, k);
            && r >= 0
            && (SumW(w) <= lo ==> n * w.Get(k) <= hi + 3 * SumW(w) + Taken(Ran(s, ds), es, k))
            && (SumW(w) <= lo ==> n * w.Get(k) <= 3 * SumW(w) + delivered + hi * (r + 2))
            && (1 <= MaxW(w) && 4 * MaxW(w) <= lo ==> n * w.Get(k) < 4 * MaxW(w) + delivered + hi * (r + 2))
  {
    hide Sized;
    hide Mirrors;
    hide SumW;
    hide MaxW;
    hide Inv;
    hide Initial;
    hide Legal;
    hide Backlogged;
    hide InHand;
    hide TotalCost;
    hide Refusals;
    InitialMirrors(s, lo, hi);
    InitialInv(s);
    RunsAreTurns(s, START, ds, lo, hi);
    RunKeepsInv(s, NOTHING, ds);
    var t, p, l := Ran(s, ds), Played(START, s.weights, Turns(s, ds)), Logged(s, NOTHING, ds);
    RunsAreTurns(t, p, es, lo, hi);
    QueuedIsBacklogged(t, es, k);
    MinimumShare(s.weights, Turns(s, ds), Turns(t, es), k, lo, hi);
    TakenIsPaid(t, p, es, k, lo, hi);
    RunSettled(t, l, es, k);
    ReturnsBounded(t, p, l, es, k, lo, hi);
    HandBounded(Ran(t, es), k, lo, hi);
    Distribute(hi, Refusals(l, Logged(t, l, es), k), 2);
  }
}
