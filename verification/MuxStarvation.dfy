/**
 * Every plain run of turns happens in the multiplexer; so the condition under which fair queueing does not starve
 * is exact for the running system too (scheduler/scheduler.go).
 */
module MuxStarvation {
  import opened Wrappers
  import opened Queues
  import opened Wfq
  import opened Mux
  import opened MuxRuns
  import opened Starvation
  import B = TokenBucket

  /** An item of lane l that costs size. */
  function Sample(l: Lane, size: nat): (it: Item)
    ensures it.Lane() == l && it.Size() == size
  {
    Item(match l case Signal => 0 case Audio => 1 case Cursor => 2 case Video => 3 case File => 4,
         0, 0, 0, seq(size, _ => 0), true)
  }

  /** The system at rest, one item on each lane in have, and nothing else. */
  ghost predicate Stocked(s: System, have: PerLane<bool>, lo: nat) {
    && s.drainer.Idle? && !s.closed && s.checked == multiset{} && !have.signal
    && forall l: Lane :: s.qs.Get(l).cap >= 1 && s.qs.Get(l).items == if have.Get(l) then [Sample(l, lo)] else []
  }

  /** Nobody touches the bucket's settings, nor closes the scheduler. */
  ghost predicate Quiet(es: seq<Event>) {
    forall i :: 0 <= i < |es| ==> !es[i].SetDisabled? && !es[i].SetRate? && !es[i].Close?
  }

  lemma QuietBoth(a: seq<Event>, b: seq<Event>)
    requires Quiet(a) && Quiet(b)
    ensures Quiet(a + b)
  {
  }

  lemma OneEvent(s: System, es: seq<Event>, e: Event)
    requires Possible(s, es) && Enabled(Ran(s, es), e)
    ensures Possible(s, es + [e]) && Ran(s, es + [e]) == Next(Ran(s, es), e)
    ensures Turns(s, es + [e]) == Turns(s, es) + if IsRound(Ran(s, es), e) then [TurnOf(Ran(s, es))] else []
    ensures forall lo, hi :: Offers(es, lo, hi) && (e.Check? ==> ItemBetween(e.it, lo, hi)) ==> Offers(es + [e], lo, hi)
  {
    assert (es + [e])[..|es + [e]| - 1] == es;
  }

  /** One enqueuer puts an item on an empty lane. */
  lemma Restock(s: System, have: PerLane<bool>, l: Lane, lo: nat) returns (es: seq<Event>)
    requires Stocked(s, have, lo) && l != Signal && !have.Get(l) && lo >= 1
    ensures Possible(s, es) && Turns(s, es) == [] && Offers(es, lo, lo) && Quiet(es)
    ensures var t := Ran(s, es);
            && Stocked(t, have.Set(l, true), lo) && t.credit == s.credit && t.weights == s.weights
            && t.bucket == s.bucket
    ensures es == [Check(Sample(l, lo)), Insert(Sample(l, lo))]
  {
    var it := Sample(l, lo);
    OneEvent(s, [], Check(it));
    var t := Next(s, Check(it));
    OneEvent(s, [] + [Check(it)], Insert(it));
    es := [] + [Check(it)] + [Insert(it)];
    assert s.qs.Get(l).items == [];
    assert t.checked == multiset{it} && t.checked - multiset{it} == multiset{};
    assert [] + [it] == [it];
  }

  /** es leads from s to a state stocked as now says, without a round and without touching the credits. */
  ghost predicate Restocks(s: System, es: seq<Event>, now: PerLane<bool>, lo: nat) {
    && Possible(s, es) && Turns(s, es) == [] && Offers(es, lo, lo) && Quiet(es)
    && Stocked(Ran(s, es), now, lo) && Ran(s, es).credit == s.credit && Ran(s, es).weights == s.weights
    && Ran(s, es).bucket == s.bucket
  }

  lemma RestockIf(s: System, es: seq<Event>, have: PerLane<bool>, l: Lane, wanted: bool, lo: nat)
    returns (fs: seq<Event>)
    requires Restocks(s, es, have, lo) && l != Signal && lo >= 1
    ensures Restocks(s, fs, have.Set(l, have.Get(l) || wanted), lo)
  {
    hide Stocked;
    hide Offers;
    hide Quiet;
    fs := es;
    if wanted && !have.Get(l) {
      var more := Restock(Ran(s, es), have, l, lo);
      RunConcat(s, es, more);
      QuietBoth(es, more);
      fs := es + more;
    } else {
      assert have.Set(l, have.Get(l)) == have;
    }
  }

  function Union(a: PerLane<bool>, b: PerLane<bool>): PerLane<bool> {
    PerLane(false, a.audio || b.audio, a.cursor || b.cursor, a.video || b.video, a.file || b.file)
  }

  lemma RestocksNone(s: System, have: PerLane<bool>, lo: nat)
    requires Stocked(s, have, lo)
    ensures Restocks(s, [], have, lo) && !have.signal
  {
  }

  /** Enqueuers fill up all the lanes of want. */
  lemma RestockAll(s: System, have: PerLane<bool>, want: PerLane<bool>, lo: nat) returns (es: seq<Event>)
    requires Stocked(s, have, lo) && lo >= 1
    ensures Restocks(s, es, Union(have, want), lo)
  {
    RestocksNone(s, have, lo);
    var h1 := have.(audio := have.audio || want.audio);
    var h2 := h1.(cursor := have.cursor || want.cursor);
    var h3 := h2.(video := have.video || want.video);
    SetIsUpdate(have, h1, h2, h3, Union(have, want));
    hide Restocks;
    hide Stocked;
    hide Union;
    es := RestockIf(s, [], have, Audio, want.audio, lo);
    es := RestockIf(s, es, h1, Cursor, want.cursor, lo);
    es := RestockIf(s, es, h2, Video, want.video, lo);
    es := RestockIf(s, es, h3, File, want.file, lo);
  }

  lemma SetIsUpdate(h: PerLane<bool>, h1: PerLane<bool>, h2: PerLane<bool>, h3: PerLane<bool>, h4: PerLane<bool>)
    requires h1 == h.(audio := h1.audio) && h2 == h1.(cursor := h2.cursor) && h3 == h2.(video := h3.video)
    requires h4 == h3.(file := h4.file)
    ensures h.Set(Audio, h1.audio) == h1 && h1.Set(Cursor, h2.cursor) == h2
    ensures h2.Set(Video, h3.video) == h3 && h3.Set(File, h4.file) == h4
    ensures h.Get(Audio) == h.audio && h1.Get(Cursor) == h.cursor && h2.Get(Video) == h.video && h3.Get(File) == h.file
  {
  }

  lemma StockedTurn(s: System, b: PerLane<bool>, lo: nat)
    requires Stocked(s, b, lo) && lo >= 1
    ensures Backlog(s.qs) == b && HeadCosts(s.qs) == Even(b, lo) && s.qs.signal.Empty()
  {
    assert s.qs.Get(Signal) == s.qs.signal && s.qs.Get(Audio) == s.qs.audio && s.qs.Get(Cursor) == s.qs.cursor;
    assert s.qs.Get(Video) == s.qs.video && s.qs.Get(File) == s.qs.file;
    assert b.Get(Audio) == b.audio && b.Get(Cursor) == b.cursor && b.Get(Video) == b.video && b.Get(File) == b.file;
  }

  /** The pick of one turn: the lane served, if any, gives up its item. */
  lemma PickTurn(s: System, p: Standing, b: PerLane<bool>, lo: nat)
    requires Stocked(s, b, lo) && lo >= 1 && Busy(b) && p.credit == s.credit && Follows(p, EvenTurn(b, lo))
    ensures IsRound(s, Pick) && TurnOf(s) == EvenTurn(b, lo) && Enabled(s, Pick)
    ensures var t := Next(s, Pick); var d := Advance(p, s.weights, EvenTurn(b, lo));
            && t.credit == d.credit && t.weights == s.weights && t.bucket == s.bucket
            && (t.drainer.Holding? || t.drainer.Idle?)
            && Stocked(t.(drainer := Idle), d.owed, lo)
  {
    StockedTurn(s, b, lo);
    FollowsMirrors(s, p, b, lo);
    RoundIsTurn(s, p);
    PickOutcome(s, p);
    hide Next;
    hide Follows;
    hide Mirrors;
    var t, best := Next(s, Pick), Served(p, s.weights, TurnOf(s));
    hide Round;
    if best.Some? {
      AfterServing(s, t, b, best.value, lo);
    }
  }

  /** The drainer takes one turn: a pick and, if it served a lane, the send. */
  lemma ServeTurn(s: System, p: Standing, b: PerLane<bool>, lo: nat) returns (es: seq<Event>)
    requires Stocked(s, b, lo) && lo >= 1 && Busy(b) && p.credit == s.credit && Follows(p, EvenTurn(b, lo))
    requires s.bucket.disabled
    ensures Possible(s, es) && Turns(s, es) == [EvenTurn(b, lo)] && Offers(es, lo, lo) && Quiet(es)
    ensures var t := Ran(s, es); var d := Advance(p, s.weights, EvenTurn(b, lo));
            Stocked(t, d.owed, lo) && t.credit == d.credit && t.weights == s.weights && t.bucket == s.bucket
  {
    PickTurn(s, p, b, lo);
    OneEvent(s, [], Pick);
    hide Next;
    hide Advance;
    hide IsRound;
    hide TurnOf;
    assert Quiet([] + [Pick]);
    hide Quiet;
    es := [] + [Pick];
    var t := Next(s, Pick);
    if t.drainer.Holding? {
      var rest := SendIt(t);
      RunConcat(s, es, rest);
      QuietBoth(es, rest);
      es := es + rest;
      SentStocked(t, Advance(p, s.weights, EvenTurn(b, lo)).owed, lo);
    } else {
      assert t.(drainer := Idle) == t;
    }
  }

  lemma SentStocked(t: System, have: PerLane<bool>, lo: nat)
    requires Stocked(t.(drainer := Idle), have, lo)
    ensures Stocked(t.(drainer := Idle, sent := t.sent + 1), have, lo)
  {
  }

  /** With pacing off, the item in hand is sent. */
  lemma SendIt(t: System) returns (es: seq<Event>)
    requires t.drainer.Holding? && t.bucket.disabled
    ensures Possible(t, es) && Turns(t, es) == [] && Quiet(es) && forall lo, hi :: Offers(es, lo, hi)
    ensures Ran(t, es) == t.(drainer := Idle, sent := t.sent + 1)
  {
    var e1, e2, e3 := Decide(t.bucket.last), Send(true), CountSend;
    OneEvent(t, [], e1);
    OneEvent(t, [] + [e1], e2);
    OneEvent(t, [] + [e1] + [e2], e3);
    es := [] + [e1] + [e2] + [e3];
  }

  lemma FollowsMirrors(s: System, p: Standing, b: PerLane<bool>, lo: nat)
    requires Stocked(s, b, lo) && p.credit == s.credit && Follows(p, EvenTurn(b, lo))
    ensures Mirrors(s, p)
  {
  }

  lemma PickOutcome(s: System, p: Standing)
    requires IsRound(s, Pick) && Mirrors(s, p)
    ensures var best := Served(p, s.weights, TurnOf(s)); var t := Next(s, Pick);
            && t.credit == Advance(p, s.weights, TurnOf(s)).credit
            && t == s.(qs := t.qs, credit := t.credit, drainer := t.drainer)
            && t.drainer == if best.Some? && !s.qs.Get(best.value).Empty() then Holding(s.qs.Get(best.value).items[0])
                            else Idle
  {
    hide Round;
  }

  lemma AfterServing(s: System, t: System, b: PerLane<bool>, l: Lane, lo: nat)
    requires Stocked(s, b, lo) && l != Signal && b.Get(l)
    requires t.qs == s.qs.Set(l, s.qs.Get(l).Dequeued())
    requires t == s.(qs := t.qs, credit := t.credit, drainer := t.drainer)
    ensures Stocked(t.(drainer := Idle), b.Set(l, false), lo)
  {
    assert s.qs.Get(l).items[1..] == [];
  }

  /** One turn: restock, then serve. */
  lemma TurnHappens(s: System, p: Standing, t: Turn, lo: nat) returns (es: seq<Event>)
    requires Stocked(s, p.owed, lo) && p.credit == s.credit && lo >= 1 && s.bucket.disabled
    requires Follows(p, t) && PlainTurn(t, lo)
    ensures Possible(s, es) && Turns(s, es) == [t] && Offers(es, lo, lo) && Quiet(es)
    ensures var u := Ran(s, es); var d := Advance(p, s.weights, t);
            Stocked(u, d.owed, lo) && u.credit == d.credit && u.weights == s.weights && u.bucket == s.bucket
  {
    es := RestockAll(s, p.owed, t.backlog, lo);
    UnionIsWanted(p, t, lo);
    hide Stocked;
    hide Advance;
    hide Offers;
    hide Follows;
    hide Quiet;
    var serve := ServeTurn(Ran(s, es), p, t.backlog, lo);
    RunConcat(s, es, serve);
    QuietBoth(es, serve);
    es := es + serve;
    assert [] + [t] == [t];
  }

  lemma UnionIsWanted(p: Standing, t: Turn, lo: nat)
    requires Follows(p, t) && PlainTurn(t, lo)
    ensures Union(p.owed, t.backlog) == t.backlog && t == EvenTurn(t.backlog, lo) && Busy(t.backlog)
  {
    var o, b := p.owed, t.backlog;
    assert o.Get(Audio) == o.audio && o.Get(Cursor) == o.cursor && o.Get(Video) == o.video && o.Get(File) == o.file;
    assert b.Get(Audio) == b.audio && b.Get(Cursor) == b.cursor && b.Get(Video) == b.video && b.Get(File) == b.file;
  }

  /** Every plain, legal sequence of turns is exactly the sequence of rounds of some run. */
  lemma {:induction false} TurnsHappen(s: System, p: Standing, ts: seq<Turn>, lo: nat) returns (es: seq<Event>)
    requires Stocked(s, p.owed, lo) && p.credit == s.credit && lo >= 1 && s.bucket.disabled
    requires Legal(p, s.weights, ts, lo, lo) && Plain(ts, lo)
    ensures Possible(s, es) && Turns(s, es) == ts && Offers(es, lo, lo) && Quiet(es)
    ensures var u := Ran(s, es); var d := Played(p, s.weights, ts);
            Stocked(u, d.owed, lo) && u.credit == d.credit && u.weights == s.weights && u.bucket == s.bucket
    decreases |ts|
  {
    hide Stocked;
    hide Advance;
    hide Follows;
    hide PlainTurn;
    hide Legal;
    hide Plain;
    hide Played;
    hide Possible;
    hide Ran;
    hide Turns;
    hide Offers;
    hide Quiet;
    if ts == [] {
      es := [];
      NothingHappens(s, p, lo);
    } else {
      var front, t := ts[..|ts| - 1], ts[|ts| - 1];
      LastTurn(p, s.weights, ts, lo);
      es := TurnsHappen(s, p, front, lo);
      var more := TurnHappens(Ran(s, es), Played(p, s.weights, front), t, lo);
      RunConcat(s, es, more);
      QuietBoth(es, more);
      es := es + more;
    }
  }

  lemma NothingHappens(s: System, p: Standing, lo: nat)
    ensures Possible(s, []) && Turns(s, []) == [] && Offers([], lo, lo) && Quiet([]) && Ran(s, []) == s
    ensures Played(p, s.weights, []) == p
  {
  }

  lemma LastTurn(p: Standing, w: PerLane<nat>, ts: seq<Turn>, lo: nat)
    requires ts != [] && Legal(p, w, ts, lo, lo) && Plain(ts, lo)
    ensures var front, t := ts[..|ts| - 1], ts[|ts| - 1];
            && Legal(p, w, front, lo, lo) && Plain(front, lo) && ts == front + [t]
            && Follows(Played(p, w, front), t) && PlainTurn(t, lo)
            && Played(p, w, ts) == Advance(Played(p, w, front), w, t)
  {
    hide Advance;
    hide Follows;
    hide CostsBetween;
    hide PlainTurn;
  }

  /** A lane that waits in the turns is overlooked in the run. */
  lemma {:induction false} WaitsOverlooked(s: System, p: Standing, es: seq<Event>, k: Lane, lo: int, hi: int)
    requires Possible(s, es) && Mirrors(s, p) && Sized(s, lo, hi) && Offers(es, lo, hi)
    requires k != Signal && Waits(p, s.weights, Turns(s, es), k)
    ensures Overlooked(s, es, k)
    decreases |es|
  {
    hide Next;
    hide Enabled;
    hide Served;
    hide Sized;
    hide Mirrors;
    hide IsRound;
    hide ItemBetween;
    if es != [] {
      var front, e := es[..|es| - 1], es[|es| - 1];
      RunsAreTurns(s, p, front, lo, hi);
      var t, ts := Ran(s, front), Turns(s, front);
      if IsRound(t, e) {
        RoundEvent(t, e);
        RoundIsTurn(t, Played(p, s.weights, ts));
        BacklogIs(t.qs, k);
        OneTurn(p, s.weights, ts, TurnOf(t), lo, hi);
      } else {
        assert Turns(s, es) == ts;
      }
      WaitsOverlooked(s, p, front, k, lo, hi);
    }
  }

  // ---------- the exact condition, for the running multiplexer ----------

  /** After history ds, lane k is overlooked all through es. */
  ghost predicate MuxWait(s: System, ds: seq<Event>, es: seq<Event>, k: Lane, lo: int, hi: int) {
    && k != Signal && Possible(s, ds) && Possible(Ran(s, ds), es) && Offers(ds, lo, hi) && Offers(es, lo, hi)
    && Overlooked(Ran(s, ds), es, k)
  }

  ghost predicate RoundsAtMost(s: System, lo: int, hi: int, n: nat) {
    forall ds, es, k: Lane :: MuxWait(s, ds, es, k, lo, hi) ==> |Turns(Ran(s, ds), es)| <= n
  }

  lemma PacingOff(s: System, lo: nat)
    requires Initial(s)
    ensures var e := SetDisabled(true); var t := Next(s, e);
            && Possible(s, [e]) && Ran(s, [e]) == t && Turns(s, [e]) == [] && Offers([e], lo, lo)
            && Stocked(t, START.owed, lo) && t.credit == START.credit && t.weights == s.weights && t.bucket.disabled
  {
    OneEvent(s, [], SetDisabled(true));
    assert [] + [SetDisabled(true)] == [SetDisabled(true)];
    forall l: Lane ensures s.qs.Get(l).cap >= 1 && s.qs.Get(l).items == [] {
      assert FreshQueue(s.qs.Get(l));
    }
  }

  lemma OffersWider(es: seq<Event>, lo: nat, hi: nat)
    requires Offers(es, lo, lo) && lo <= hi
    ensures Offers(es, lo, hi)
  {
  }

  /** The switch is never turned the other way. */
  ghost predicate SwitchKept(es: seq<Event>, off: bool) {
    forall i :: 0 <= i < |es| && es[i].SetDisabled? ==> es[i].off == off
  }

  /** Unless weights and sizes are right, some lane is overlooked for as long as one likes, pacing being off. */
  lemma LongMuxWait(s: System, lo: nat, hi: nat, n: nat) returns (ds: seq<Event>, es: seq<Event>, k: Lane)
    requires Initial(s) && 1 <= lo <= hi && !(AllPositive(s.weights) && SumW(s.weights) <= lo)
    ensures MuxWait(s, ds, es, k, lo, hi) && |Turns(Ran(s, ds), es)| == n && Ran(s, ds).drainer.Idle?
    ensures SwitchKept(ds, true) && SwitchKept(es, true)
  {
    var w := s.weights;
    hide Stocked;
    hide Waits;
    hide Legal;
    hide Plain;
    hide Played;
    hide LeadFor;
    hide Initial;
    var ts, us;
    if AllPositive(w) {
      var i;
      ts, i, k := FindGap(w, lo, LeadFor(w, lo, n));
      LeadSuffices(w, lo, n, k);
      us := StarveBehind(Played(START, w, ts), w, i, k, n, lo);
    } else {
      k := Weightless(w);
      ts, us := InDebtForEver(w, k, lo, n);
    }
    hide SumW;
    hide AllPositive;
    ds, es := WaitHappens(s, ts, us, k, lo);
    OffersWider(ds, lo, hi);
    OffersWider(es, lo, hi);
  }

  lemma WaitHappens(s: System, ts: seq<Turn>, us: seq<Turn>, k: Lane, lo: nat) returns (ds: seq<Event>, es: seq<Event>)
    requires Initial(s) && lo >= 1 && k != Signal
    requires Legal(START, s.weights, ts, lo, lo) && Plain(ts, lo)
    requires var p := Played(START, s.weights, ts);
             Legal(p, s.weights, us, lo, lo) && Plain(us, lo) && Waits(p, s.weights, us, k)
    ensures MuxWait(s, ds, es, k, lo, lo) && Turns(Ran(s, ds), es) == us && Ran(s, ds).drainer.Idle?
    ensures SwitchKept(ds, true) && SwitchKept(es, true)
  {
    hide Stocked;
    hide Sized;
    hide Mirrors;
    hide Waits;
    hide Legal;
    hide Offers;
    hide Initial;
    PacingOff(s, lo);
    var e := SetDisabled(true);
    var more := TurnsHappen(Ran(s, [e]), START, ts, lo);
    RunConcat(s, [e], more);
    ds := [e] + more;
    assert [] + ts == ts;
    var t, p := Ran(s, ds), Played(START, s.weights, ts);
    StockedRests(t, p.owed, lo);
    es := TurnsHappen(t, p, us, lo);
    InitialMirrors(s, lo, lo);
    RunsAreTurns(s, START, ds, lo, lo);
    WaitsOverlooked(t, p, es, k, lo, lo);
  }

  lemma StockedRests(s: System, have: PerLane<bool>, lo: nat)
    requires Stocked(s, have, lo)
    ensures s.drainer.Idle?
  {
  }

  /**
   * Exactly when the multiplexer does not starve a lane, for items of lo to hi bytes (lo at least 1): there is a bound
   * on how many rounds any lane with something queued is overlooked, over all runs, if and only if all weights are
   * positive and the smallest item has at least as many bytes as they add up to.
   */
  lemma MultiplexerStarvationFreeIff(s: System, lo: nat, hi: nat)
    requires Initial(s) && 1 <= lo <= hi
    ensures (exists n :: RoundsAtMost(s, lo, hi, n)) <==> AllPositive(s.weights) && SumW(s.weights) <= lo
  {
    if AllPositive(s.weights) && SumW(s.weights) <= lo {
      forall ds, es, k: Lane | MuxWait(s, ds, es, k, lo, hi)
        ensures |Turns(Ran(s, ds), es)| <= hi + 3 * SumW(s.weights)
      {
        ShortMuxWait(s, ds, es, k, lo, hi);
      }
      hide MuxWait;
      assert RoundsAtMost(s, lo, hi, hi + 3 * SumW(s.weights));
    } else {
      forall n: nat ensures !RoundsAtMost(s, lo, hi, n) {
        var ds, es, k := LongMuxWait(s, lo, hi, n + 1);
        assert MuxWait(s, ds, es, k, lo, hi);
      }
    }
  }

  lemma ShortMuxWait(s: System, ds: seq<Event>, es: seq<Event>, k: Lane, lo: nat, hi: nat)
    requires Initial(s) && MuxWait(s, ds, es, k, lo, hi) && s.weights.Get(k) >= 1 && SumW(s.weights) <= lo
    ensures |Turns(Ran(s, ds), es)| <= hi + 3 * SumW(s.weights)
  {
    NoLaneStarves(s, ds, es, k, lo, hi);
    Product(|Turns(Ran(s, ds), es)|, 1, s.weights.Get(k));
    hide Overlooked;
    hide Possible;
  }
}
