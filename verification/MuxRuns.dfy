/** Whole runs of the multiplexer, for every interleaving of the enqueuers with the one drainer. */
module MuxRuns {
  import opened Wrappers
  import opened Queues
  import opened Wfq
  import opened Mux
  import opened Starvation
  import B = TokenBucket

  function Ran(s: System, es: seq<Event>): System
    decreases |es|
  {
    if es == [] then s else Next(Ran(s, es[..|es| - 1]), es[|es| - 1])
  }

  function Logged(s: System, l: Log, es: seq<Event>): Log
    decreases |es|
  {
    if es == [] then l
    else Recorded(Ran(s, es[..|es| - 1]), Logged(s, l, es[..|es| - 1]), es[|es| - 1])
  }

  ghost predicate Possible(s: System, es: seq<Event>)
    decreases |es|
  {
    es == [] || (Possible(s, es[..|es| - 1]) && Enabled(Ran(s, es[..|es| - 1]), es[|es| - 1]))
  }

  const NOTHING: Log := Log(PerLane([], [], [], [], []), PerLane([], [], [], [], []), PerLane(0, 0, 0, 0, 0), 0, 0)

  ghost predicate FreshQueue(q: QueueState) {
    q.cap >= 1 && q == QueueState(q.cap, [], 0, 0, 0, 0)
  }

  /** As New leaves it. */
  ghost predicate Initial(s: System) {
    && (forall k: Lane :: FreshQueue(s.qs.Get(k)))
    && s.credit == PerLane(0, 0, 0, 0, 0) && s.drainer == Idle && !s.closed
    && s.checked == multiset{} && s.uncounted == 0 && s.sent == 0 && s.drops == 0 && B.ValidState(s.bucket)
  }

  lemma InitialInv(s: System)
    requires Initial(s)
    ensures Inv(s, NOTHING)
  {
    forall k: Lane ensures LaneOk(s, NOTHING, k) {
      assert FreshQueue(s.qs.Get(k));
    }
    assert FreshQueue(s.qs.Get(Signal)) && FreshQueue(s.qs.Get(Audio)) && FreshQueue(s.qs.Get(Cursor));
    assert FreshQueue(s.qs.Get(Video)) && FreshQueue(s.qs.Get(File));
  }

  lemma {:induction false} RunKeepsInv(s: System, l: Log, es: seq<Event>)
    requires Inv(s, l) && Possible(s, es)
    ensures Inv(Ran(s, es), Logged(s, l, es))
    decreases |es|
  {
    hide Inv;
    hide Next;
    hide Recorded;
    hide Enabled;
    if es != [] {
      RunKeepsInv(s, l, es[..|es| - 1]);
      StepKeepsInv(Ran(s, es[..|es| - 1]), Logged(s, l, es[..|es| - 1]), es[|es| - 1]);
    }
  }

  /**
   * Ordered conservation. After any interleaving, the accepted items of a lane are, in order, those sent or failed
   * in send, then the at most one item in hand, then the queue; the depth exceeds the capacity by at most one, and
   * only while no item of the lane is in hand; depth = enqueued - dequeued + put back; and the byte counter never
   * exceeds the true total, and equals it until the first put-back.
   */
  lemma OrderedConservation(s: System, es: seq<Event>, k: Lane)
    requires Initial(s) && Possible(s, es)
    ensures var t := Ran(s, es); var l := Logged(s, NOTHING, es); var q, hand := t.qs.Get(k), InHand(t.drainer, k);
            && l.accepted.Get(k) == l.delivered.Get(k) + hand + q.items && |hand| <= 1
            && |q.items| <= q.cap + (if hand == [] then 1 else 0)
            && q.enq == |l.accepted.Get(k)| && |q.items| == q.enq - q.deq + l.putBacks.Get(k)
            && q.bytes <= TotalSize(q.items) && (l.putBacks.Get(k) == 0 ==> q.bytes == TotalSize(q.items))
  {
    InitialInv(s);
    RunKeepsInv(s, NOTHING, es);
    var t, l := Ran(s, es), Logged(s, NOTHING, es);
    assert LaneOk(t, l, k);
    hide Ran;
    hide Logged;
    hide Inv;
    assert l.delivered.Get(k) + InHand(t.drainer, k) + t.qs.Get(k).items
           == l.delivered.Get(k) + (InHand(t.drainer, k) + t.qs.Get(k).items);
  }

  /** At rest, the drop count is the queue-full drops plus the send errors, and the sent count the successful sends. */
  lemma DropsAccountedFor(s: System, es: seq<Event>)
    requires Initial(s) && Possible(s, es)
    requires Ran(s, es).drainer.Idle? && Ran(s, es).uncounted == 0
    ensures var t := Ran(s, es); var l := Logged(s, NOTHING, es);
            t.drops == QueueDrops(t.qs) + l.sendErrors && t.sent == l.sentOk
  {
    InitialInv(s);
    RunKeepsInv(s, NOTHING, es);
  }

  // ---------- the picks of a run, seen as turns ----------

  /** A pick that finds no signal and some other backlog. */
  predicate IsRound(s: System, e: Event) {
    e.Pick? && s.qs.signal.Empty() && Busy(Backlog(s.qs))
  }

  function TurnOf(s: System): Turn {
    Turn(Backlog(s.qs), HeadCosts(s.qs))
  }

  function Turns(s: System, es: seq<Event>): seq<Turn>
    decreases |es|
  {
    if es == [] then []
    else
      var t := Ran(s, es[..|es| - 1]);
      Turns(s, es[..|es| - 1]) + (if IsRound(t, es[|es| - 1]) then [TurnOf(t)] else [])
  }

  /** Same credits, and every lane that is owed a turn has something queued. */
  ghost predicate Mirrors(s: System, p: Standing) {
    p.credit == s.credit && forall l: Lane :: l != Signal && p.owed.Get(l) ==> !s.qs.Get(l).Empty()
  }

  ghost predicate ItemBetween(it: Item, lo: int, hi: int) {
    lo <= it.Cost() <= hi
  }

  ghost predicate ItemsBetween(items: seq<Item>, lo: int, hi: int) {
    forall i :: 0 <= i < |items| ==> ItemBetween(items[i], lo, hi)
  }

  /** Every item anywhere in the system costs between lo and hi. */
  ghost predicate Sized(s: System, lo: int, hi: int) {
    && (forall k: Lane :: ItemsBetween(s.qs.Get(k).items, lo, hi))
    && (forall it :: it in s.checked ==> ItemBetween(it, lo, hi))
    && (!s.drainer.Idle? ==> ItemBetween(s.drainer.it, lo, hi))
  }

  ghost predicate Offers(es: seq<Event>, lo: int, hi: int) {
    forall i :: 0 <= i < |es| && es[i].Check? ==> ItemBetween(es[i].it, lo, hi)
  }

  lemma PickKeepsSized(s: System, lo: int, hi: int)
    requires Sized(s, lo, hi)
    ensures Sized(Next(s, Pick), lo, hi)
  {
    hide Round;
    hide ItemBetween;
    PickedShape(s.qs, s.credit, s.weights);
    var (qs, _, r) := Picked(s.qs, s.credit, s.weights);
    hide Picked;
    if r.Some? {
      var from: Lane :| TakenFrom(s.qs, from, r.value) && qs == s.qs.Set(from, s.qs.Get(from).Dequeued());
      assert ItemsBetween(s.qs.Get(from).items, lo, hi);
    }
    forall k: Lane ensures ItemsBetween(qs.Get(k).items, lo, hi) {
      assert ItemsBetween(s.qs.Get(k).items, lo, hi);
    }
  }

  /** Putting an item on one lane. */
  lemma SizedWith(qs: PerLane<QueueState>, at: Lane, q: QueueState, lo: int, hi: int)
    requires (forall k: Lane :: ItemsBetween(qs.Get(k).items, lo, hi)) && ItemsBetween(q.items, lo, hi)
    ensures forall k: Lane :: ItemsBetween(qs.Set(at, q).Get(k).items, lo, hi)
  {
    hide ItemsBetween;
  }

  lemma StepKeepsSized(s: System, e: Event, lo: int, hi: int)
    requires Sized(s, lo, hi) && Enabled(s, e) && (e.Check? ==> ItemBetween(e.it, lo, hi))
    ensures Sized(Next(s, e), lo, hi)
  {
    hide ItemBetween;
    hide B.Allowed;
    if e.Pick? {
      PickKeepsSized(s, lo, hi);
      hide Next;
    } else if e.Insert? {
      InsertKeepsSized(s, e.it, lo, hi);
      hide Next;
    } else if e.PutBack? {
      PutBackKeepsSized(s, lo, hi);
      hide Next;
    } else {
      hide ItemsBetween;
    }
    hide Sized;
  }

  lemma InsertKeepsSized(s: System, it: Item, lo: int, hi: int)
    requires Sized(s, lo, hi) && it in s.checked
    ensures Sized(Next(s, Insert(it)), lo, hi)
  {
    hide ItemBetween;
    var q := s.qs.Get(it.Lane());
    assert ItemsBetween(q.items, lo, hi);
    SizedWith(s.qs, it.Lane(), q.Enqueued(it).0, lo, hi);
    hide ItemsBetween;
  }

  lemma PutBackKeepsSized(s: System, lo: int, hi: int)
    requires Sized(s, lo, hi) && s.drainer.Refused?
    ensures Sized(Next(s, PutBack), lo, hi)
  {
    hide ItemBetween;
    var it := s.drainer.it;
    var q := s.qs.Get(it.Lane());
    assert ItemsBetween(q.items, lo, hi);
    SizedWith(s.qs, it.Lane(), q.Returned(it), lo, hi);
    hide ItemsBetween;
  }

  lemma TurnCosts(s: System, lo: int, hi: int)
    requires Sized(s, lo, hi)
    ensures CostsBetween(TurnOf(s).backlog, TurnOf(s).cost, lo, hi)
  {
    forall l: Lane | l != Signal && Backlog(s.qs).Get(l) ensures lo <= HeadCosts(s.qs).Get(l) <= hi {
      assert ItemsBetween(s.qs.Get(l).items, lo, hi);
      assert ItemBetween(s.qs.Get(l).items[0], lo, hi);
    }
  }

  /** A pick is a turn: the credits change as in Advance, and the lane served is the one that loses an item. */
  lemma RoundIsTurn(s: System, p: Standing)
    requires Mirrors(s, p) && IsRound(s, Pick)
    ensures Follows(p, TurnOf(s)) && Mirrors(Next(s, Pick), Advance(p, s.weights, TurnOf(s)))
    ensures match Served(p, s.weights, TurnOf(s))
            case None => Next(s, Pick).qs == s.qs
            case Some(l) =>
              && l != Signal && !s.qs.Get(l).Empty()
              && Next(s, Pick).qs == s.qs.Set(l, s.qs.Get(l).Dequeued())
  {
    RoundServes(s.credit, s.weights, Backlog(s.qs), HeadCosts(s.qs));
    hide Round;
    hide HeadCosts;
    BacklogsAre(s.qs);
    hide Backlog;
  }

  /** A round serves a backlogged lane, if any, and never signal. */
  lemma RoundServes(c: Credits, w: PerLane<nat>, backlog: PerLane<bool>, cost: PerLane<nat>)
    ensures var best := Round(c, w, backlog, cost).1; best.Some? ==> best.value != Signal && backlog.Get(best.value)
  {
    BestWins(Replenished(c, w, backlog), backlog);
    hide Best;
  }

  lemma BacklogsAre(qs: PerLane<QueueState>)
    ensures forall k: Lane :: Backlog(qs).Get(k) == !qs.Get(k).Empty()
  {
  }

  lemma OtherStepsMirror(s: System, e: Event, p: Standing)
    requires Mirrors(s, p) && Enabled(s, e) && !IsRound(s, e)
    ensures Mirrors(Next(s, e), p)
  {
    if e.Pick? && s.qs.signal.Empty() {
      IdleRound(s);
    }
    hide Round;
    hide B.Allowed;
  }

  lemma IdleRound(s: System)
    requires !Busy(Backlog(s.qs))
    ensures Round(s.credit, s.weights, Backlog(s.qs), HeadCosts(s.qs)) == (s.credit, None)
  {
    BestWins(Replenished(s.credit, s.weights, Backlog(s.qs)), Backlog(s.qs));
    hide Best;
  }

  lemma NextWeights(s: System, e: Event)
    ensures Next(s, e).weights == s.weights
  {
    hide Picked;
    hide B.Allowed;
  }

  /** Every run of the multiplexer is a legal run of turns. */
  lemma {:induction false} RunsAreTurns(s: System, p: Standing, es: seq<Event>, lo: int, hi: int)
    requires Possible(s, es) && Mirrors(s, p) && Sized(s, lo, hi) && Offers(es, lo, hi)
    ensures var t := Ran(s, es);
            && t.weights == s.weights && Sized(t, lo, hi)
            && Legal(p, s.weights, Turns(s, es), lo, hi)
            && Mirrors(t, Played(p, s.weights, Turns(s, es)))
    decreases |es|
  {
    hide Next;
    hide Enabled;
    hide Advance;
    hide Sized;
    hide Mirrors;
    hide Follows;
    hide CostsBetween;
    hide IsRound;
    hide ItemBetween;
    if es != [] {
      var front, e := es[..|es| - 1], es[|es| - 1];
      RunsAreTurns(s, p, front, lo, hi);
      var t, ts := Ran(s, front), Turns(s, front);
      StepKeepsSized(t, e, lo, hi);
      NextWeights(t, e);
      if IsRound(t, e) {
        RoundEvent(t, e);
        RoundIsTurn(t, Played(p, s.weights, ts));
        TurnCosts(t, lo, hi);
        OneTurn(p, s.weights, ts, TurnOf(t), lo, hi);
      } else {
        OtherStepsMirror(t, e, Played(p, s.weights, ts));
        assert Turns(s, es) == ts;
      }
    }
  }

  lemma RoundEvent(s: System, e: Event)
    requires IsRound(s, e)
    ensures e == Pick
  {
  }

  // ---------- starvation and stalls in real runs ----------

  /** Lane k has something queued at every round of the run, and no round takes anything from it. */
  ghost predicate Overlooked(s: System, es: seq<Event>, k: Lane)
    decreases |es|
  {
    es == [] ||
    (var front, e := es[..|es| - 1], es[|es| - 1];
     var t := Ran(s, front);
     Overlooked(s, front, k)
     && (IsRound(t, e) ==> !t.qs.Get(k).Empty() && Next(t, e).qs.Get(k) == t.qs.Get(k)))
  }

  /** No round of the run picks anything, although k has something queued at each. */
  ghost predicate AllStall(s: System, es: seq<Event>, k: Lane)
    decreases |es|
  {
    es == [] ||
    (var front, e := es[..|es| - 1], es[|es| - 1];
     var t := Ran(s, front);
     AllStall(s, front, k) && (IsRound(t, e) ==> !t.qs.Get(k).Empty() && Next(t, e).drainer == Idle))
  }

  lemma DequeueChanges(q: QueueState)
    requires !q.Empty()
    ensures q.Dequeued() != q
  {
    assert |q.Dequeued().items| == |q.items| - 1;
  }

  lemma BacklogIs(qs: PerLane<QueueState>, k: Lane)
    ensures Backlog(qs).Get(k) == !qs.Get(k).Empty()
  {
  }

  lemma {:induction false} OverlookedWaits(s: System, p: Standing, es: seq<Event>, k: Lane, lo: int, hi: int)
    requires Possible(s, es) && Mirrors(s, p) && Sized(s, lo, hi) && Offers(es, lo, hi)
    requires k != Signal && Overlooked(s, es, k)
    ensures Waits(p, s.weights, Turns(s, es), k)
    decreases |es|
  {
    hide Next;
    hide Enabled;
    hide Advance;
    hide Served;
    hide Sized;
    hide Mirrors;
    hide IsRound;
    hide ItemBetween;
    if es != [] {
      var front, e := es[..|es| - 1], es[|es| - 1];
      OverlookedWaits(s, p, front, k, lo, hi);
      RunsAreTurns(s, p, front, lo, hi);
      var t, ts := Ran(s, front), Turns(s, front);
      if IsRound(t, e) {
        RoundEvent(t, e);
        RoundIsTurn(t, Played(p, s.weights, ts));
        BacklogIs(t.qs, k);
        DequeueChanges(t.qs.Get(k));
        OneTurn(p, s.weights, ts, TurnOf(t), lo, hi);
      } else {
        assert Turns(s, es) == ts;
      }
    }
  }

  lemma {:induction false} AllStallStalls(s: System, p: Standing, es: seq<Event>, k: Lane, lo: int, hi: int)
    requires Possible(s, es) && Mirrors(s, p) && Sized(s, lo, hi) && Offers(es, lo, hi)
    requires k != Signal && AllStall(s, es, k)
    ensures Stalls(p, s.weights, Turns(s, es), k)
    decreases |es|
  {
    hide Next;
    hide Enabled;
    hide Advance;
    hide Served;
    hide Sized;
    hide Mirrors;
    hide IsRound;
    hide ItemBetween;
    if es != [] {
      var front, e := es[..|es| - 1], es[|es| - 1];
      AllStallStalls(s, p, front, k, lo, hi);
      RunsAreTurns(s, p, front, lo, hi);
      var t, ts := Ran(s, front), Turns(s, front);
      if IsRound(t, e) {
        RoundEvent(t, e);
        StallMeansNone(t, Played(p, s.weights, ts));
        BacklogIs(t.qs, k);
        assert (ts + [TurnOf(t)])[..|ts + [TurnOf(t)]| - 1] == ts;
      } else {
        assert Turns(s, es) == ts;
      }
    }
  }

  lemma StallMeansNone(s: System, p: Standing)
    requires Mirrors(s, p) && IsRound(s, Pick) && Next(s, Pick).drainer == Idle
    ensures Served(p, s.weights, TurnOf(s)) == None
  {
    RoundIsTurn(s, p);
    hide Round;
  }

  lemma InitialMirrors(s: System, lo: int, hi: int)
    requires Initial(s)
    ensures Mirrors(s, START) && Sized(s, lo, hi)
  {
    forall k: Lane ensures ItemsBetween(s.qs.Get(k).items, lo, hi) {
      assert FreshQueue(s.qs.Get(k));
    }
  }

  lemma {:induction false} RunConcat(s: System, ds: seq<Event>, es: seq<Event>)
    requires Possible(s, ds) && Possible(Ran(s, ds), es)
    ensures Possible(s, ds + es) && Ran(s, ds + es) == Ran(Ran(s, ds), es)
    ensures Turns(s, ds + es) == Turns(s, ds) + Turns(Ran(s, ds), es)
    ensures forall lo, hi :: Offers(ds, lo, hi) && Offers(es, lo, hi) ==> Offers(ds + es, lo, hi)
    decreases |es|
  {
    hide Next;
    hide Enabled;
    hide IsRound;
    if es == [] {
      assert ds + es == ds;
    } else {
      assert (ds + es)[..|ds + es| - 1] == ds + es[..|es| - 1];
      RunConcat(s, ds, es[..|es| - 1]);
    }
  }

  /** Credit in every reachable state: never below -S; and bounded above when items are dear enough. */
  lemma CreditInEveryState(s: System, es: seq<Event>, lo: nat, hi: nat)
    requires Initial(s) && Possible(s, es) && Offers(es, lo, hi)
    ensures var t := Ran(s, es);
            && AtLeast(t.credit, -(hi as int))
            && (SumW(s.weights) <= lo ==> Spread(t.credit, SumW(s.weights)))
            && (1 <= MaxW(s.weights) && 4 * MaxW(s.weights) <= lo ==> Stairs(t.credit, MaxW(s.weights)))
  {
    InitialMirrors(s, lo, hi);
    RunsAreTurns(s, START, es, lo, hi);
    CreditsStayBounded(s.weights, Turns(s, es), lo, hi);
    hide Spread;
    hide Stairs;
    hide AtLeast;
  }

  /**
   * No starvation in the running multiplexer. After any history, a lane of weight w >= 1 that has something queued at
   * every round is overlooked for at most (S + 3·ΣW) / w rounds if every item costs between ΣW and S bytes,
   * and for fewer than (S + 4·wmax) / w if every item costs between 4·wmax and S.
   */
  lemma NoLaneStarves(s: System, ds: seq<Event>, es: seq<Event>, k: Lane, lo: nat, hi: nat)
    requires Initial(s) && Possible(s, ds) && Possible(Ran(s, ds), es) && Offers(ds, lo, hi) && Offers(es, lo, hi)
    requires k != Signal && s.weights.Get(k) >= 1 && Overlooked(Ran(s, ds), es, k)
    ensures var n := |Turns(Ran(s, ds), es)|; var w := s.weights;
            && (SumW(w) <= lo ==> n * w.Get(k) <= hi + 3 * SumW(w))
            && (1 <= MaxW(w) && 4 * MaxW(w) <= lo ==> n * w.Get(k) < hi + 4 * MaxW(w))
  {
    InitialMirrors(s, lo, hi);
    RunsAreTurns(s, START, ds, lo, hi);
    var t, p := Ran(s, ds), Played(START, s.weights, Turns(s, ds));
    RunsAreTurns(t, p, es, lo, hi);
    OverlookedWaits(t, p, es, k, lo, hi);
    hide SumW;
    hide MaxW;
    hide Waits;
    NoStarvation(s.weights, Turns(s, ds), Turns(t, es), k, lo, hi);
  }

  /** Rounds that pick nothing, with k backlogged, come at most (S - 1) / w in a row. */
  lemma StallsAreShort(s: System, ds: seq<Event>, es: seq<Event>, k: Lane, lo: nat, hi: nat)
    requires Initial(s) && Possible(s, ds) && Possible(Ran(s, ds), es) && Offers(ds, lo, hi) && Offers(es, lo, hi)
    requires k != Signal && AllStall(Ran(s, ds), es, k) && Turns(Ran(s, ds), es) != []
    ensures |Turns(Ran(s, ds), es)| * s.weights.Get(k) <= hi - 1
  {
    InitialMirrors(s, lo, hi);
    RunsAreTurns(s, START, ds, lo, hi);
    var t, p := Ran(s, ds), Played(START, s.weights, Turns(s, ds));
    AllStallStalls(t, p, es, k, lo, hi);
    hide Stalls;
    StallIsShort(s.weights, Turns(s, ds), Turns(t, es), k, lo, hi);
  }

  /** A round picks nothing exactly when every backlogged lane is in debt after earning its weight. */
  lemma StallIff(s: System)
    requires IsRound(s, Pick) && s.drainer.Idle?
    ensures Next(s, Pick).drainer.Idle? <==>
              AllInDebt(Replenished(s.credit, s.weights, Backlog(s.qs)), Backlog(s.qs))
  {
    BestWins(Replenished(s.credit, s.weights, Backlog(s.qs)), Backlog(s.qs));
    hide Best;
  }
}
