/**
 * Runs of the weighted fair queueing seen as credits only: in each turn some lanes are backlogged and their heads
 * have some cost. When is every credit bounded, and every wait? (scheduler/scheduler.go, pick)
 */
module Starvation {
  import opened Wrappers
  import opened Queues
  import opened Wfq

  datatype Turn = Turn(backlog: PerLane<bool>, cost: PerLane<nat>)

  /** The credits, and the lanes that were backlogged and not served in the last turn: their queues cannot be empty. */
  datatype Standing = Standing(credit: Credits, owed: PerLane<bool>)

  const START: Standing := Standing(PerLane(0, 0, 0, 0, 0), PerLane(false, false, false, false, false))

  function Advance(s: Standing, w: PerLane<nat>, t: Turn): Standing {
    var (d, best) := Round(s.credit, w, t.backlog, t.cost);
    Standing(d, if best.Some? then t.backlog.Set(best.value, false) else t.backlog)
  }

  function Served(s: Standing, w: PerLane<nat>, t: Turn): Option<Lane> {
    Round(s.credit, w, t.backlog, t.cost).1
  }

  function Played(s: Standing, w: PerLane<nat>, ts: seq<Turn>): Standing
    decreases |ts|
  {
    if ts == [] then s else Advance(Played(s, w, ts[..|ts| - 1]), w, ts[|ts| - 1])
  }

  /** A lane that was backlogged and not served is still backlogged. */
  ghost predicate Follows(s: Standing, t: Turn) {
    forall l: Lane :: l != Signal && s.owed.Get(l) ==> t.backlog.Get(l)
  }

  /** A possible run, in which every item costs between lo and hi. */
  ghost predicate Legal(s: Standing, w: PerLane<nat>, ts: seq<Turn>, lo: int, hi: int)
    decreases |ts|
  {
    ts == [] ||
    (var front, t := ts[..|ts| - 1], ts[|ts| - 1];
     Legal(s, w, front, lo, hi) && Follows(Played(s, w, front), t) && CostsBetween(t.backlog, t.cost, lo, hi))
  }

  /** Lane k is backlogged in every turn, and served in none. */
  ghost predicate Waits(s: Standing, w: PerLane<nat>, ts: seq<Turn>, k: Lane)
    decreases |ts|
  {
    ts == [] ||
    (var front, t := ts[..|ts| - 1], ts[|ts| - 1];
     Waits(s, w, front, k) && t.backlog.Get(k) && Served(Played(s, w, front), w, t) != Some(k))
  }

  lemma {:induction false} PlayedConcat(s: Standing, w: PerLane<nat>, ts: seq<Turn>, us: seq<Turn>, lo: int, hi: int)
    ensures Played(s, w, ts + us) == Played(Played(s, w, ts), w, us)
    ensures Legal(s, w, ts, lo, hi) && Legal(Played(s, w, ts), w, us, lo, hi) ==> Legal(s, w, ts + us, lo, hi)
    ensures lo >= 0 && Plain(ts, lo) && Plain(us, lo) ==> Plain(ts + us, lo)
    decreases |us|
  {
    hide Advance;
    hide CostsBetween;
    hide Follows;
    hide PlainTurn;
    if us == [] {
      assert ts + us == ts;
    } else {
      var vs := ts + us;
      assert vs[..|vs| - 1] == ts + us[..|us| - 1];
      PlayedConcat(s, w, ts, us[..|us| - 1], lo, hi);
    }
  }

  // ---------- what holds when items are dear enough ----------

  /** The floor holds for any weights; the ceilings when an item costs at least the sum, or four times the largest. */
  lemma {:induction false} CreditsStayBounded(w: PerLane<nat>, ts: seq<Turn>, lo: nat, hi: nat)
    requires Legal(START, w, ts, lo, hi)
    ensures var c := Played(START, w, ts).credit;
            && AtLeast(c, -(hi as int))
            && (SumW(w) <= lo ==> Spread(c, SumW(w)))
            && (1 <= MaxW(w) && 4 * MaxW(w) <= lo ==> Stairs(c, MaxW(w)))
    decreases |ts|
  {
    if ts != [] {
      var front, t := ts[..|ts| - 1], ts[|ts| - 1];
      CreditsStayBounded(w, front, lo, hi);
      var c := Played(START, w, front).credit;
      RoundKeepsFloor(c, w, t.backlog, t.cost, hi);
      if SumW(w) <= lo {
        RoundKeepsSpread(c, w, t.backlog, t.cost, lo, hi);
      }
      if 1 <= MaxW(w) && 4 * MaxW(w) <= lo {
        RoundKeepsStairs(c, w, t.backlog, t.cost, lo, hi);
      }
      hide Round;
      hide Spread;
      hide Stairs;
      hide AtLeast;
      hide Legal;
    }
  }

  /** Lane k is backlogged in every turn. */
  ghost predicate Backlogged(ts: seq<Turn>, k: Lane) {
    forall i :: 0 <= i < |ts| ==> ts[i].backlog.Get(k)
  }

  /** What the turns that served k have charged it. */
  function Paid(s: Standing, w: PerLane<nat>, ts: seq<Turn>, k: Lane): nat
    decreases |ts|
  {
    if ts == [] then 0
    else
      var front, t := ts[..|ts| - 1], ts[|ts| - 1];
      Paid(s, w, front, k) + (if Served(Played(s, w, front), w, t) == Some(k) then t.cost.Get(k) else 0)
  }

  /** The account of a backlogged lane: its weight in every turn, less what it has paid. */
  lemma {:induction false} Account(s: Standing, w: PerLane<nat>, ts: seq<Turn>, k: Lane)
    requires k != Signal && Backlogged(ts, k)
    ensures Played(s, w, ts).credit.Get(k) == s.credit.Get(k) + |ts| * w.Get(k) - Paid(s, w, ts, k)
    decreases |ts|
  {
    hide Round;
    if ts != [] {
      var front, t := ts[..|ts| - 1], ts[|ts| - 1];
      Account(s, w, front, k);
      BackloggedEarns(Played(s, w, front).credit, w, t.backlog, t.cost, k);
      OneMore(|front|, w.Get(k));
    }
  }

  lemma OneMore(n: nat, x: int)
    ensures (n + 1) * x == n * x + x
  {
  }

  lemma BackloggedEarns(c: Credits, w: PerLane<nat>, backlog: PerLane<bool>, cost: PerLane<nat>, k: Lane)
    requires k != Signal && backlog.Get(k)
    ensures var (d, best) := Round(c, w, backlog, cost);
            d.Get(k) == c.Get(k) + w.Get(k) - if best == Some(k) then cost.Get(k) else 0
  {
    hide Best;
  }

  /** While a lane waits it pays nothing. */
  lemma {:induction false} WaitingIsFree(s: Standing, w: PerLane<nat>, ts: seq<Turn>, k: Lane)
    requires Waits(s, w, ts, k)
    ensures Backlogged(ts, k) && Paid(s, w, ts, k) == 0
    decreases |ts|
  {
    hide Served;
    hide Advance;
    if ts != [] {
      WaitingIsFree(s, w, ts[..|ts| - 1], k);
    }
  }

  lemma BoundOnLane(c: Credits, k: Lane, floor: int, t: nat, m: nat)
    requires k != Signal && AtLeast(c, floor)
    ensures c.Get(k) >= floor
    ensures Spread(c, t) ==> c.Get(k) <= 3 * t
    ensures Stairs(c, m) ==> c.Get(k) < 4 * m
  {
  }

  /**
   * The minimum share. From any reachable credits, a lane of weight w that stays backlogged for n turns has been
   * served at least n·w - S - 3·ΣW bytes when every item costs at least ΣW and at most S; and more than
   * n·w - S - 4·wmax when every item costs at least 4·wmax.
   */
  lemma MinimumShare(w: PerLane<nat>, ts: seq<Turn>, us: seq<Turn>, k: Lane, lo: nat, hi: nat)
    requires Legal(START, w, ts, lo, hi) && Legal(Played(START, w, ts), w, us, lo, hi)
    requires k != Signal && Backlogged(us, k)
    ensures var paid := Paid(Played(START, w, ts), w, us, k);
            && (SumW(w) <= lo ==> |us| * w.Get(k) <= hi + 3 * SumW(w) + paid)
            && (1 <= MaxW(w) && 4 * MaxW(w) <= lo ==> |us| * w.Get(k) < hi + 4 * MaxW(w) + paid)
  {
    hide Spread;
    hide Stairs;
    hide AtLeast;
    hide MaxW;
    hide SumW;
    hide Legal;
    CreditsStayBounded(w, ts, lo, hi);
    PlayedConcat(START, w, ts, us, lo, hi);
    CreditsStayBounded(w, ts + us, lo, hi);
    Account(Played(START, w, ts), w, us, k);
    BoundOnLane(Played(START, w, ts).credit, k, -(hi as int), SumW(w), MaxW(w));
    BoundOnLane(Played(START, w, ts + us).credit, k, -(hi as int), SumW(w), MaxW(w));
  }

  /**
   * No starvation: the share of a lane that waits. A lane of weight at least 1 that stays backlogged waits at most
   * (S + 3·ΣW) / w turns when every item costs at least ΣW and at most S; and fewer than (S + 4·wmax) / w
   * when every item costs at least 4·wmax.
   */
  lemma NoStarvation(w: PerLane<nat>, ts: seq<Turn>, us: seq<Turn>, k: Lane, lo: nat, hi: nat)
    requires Legal(START, w, ts, lo, hi) && Legal(Played(START, w, ts), w, us, lo, hi)
    requires k != Signal && w.Get(k) >= 1 && Waits(Played(START, w, ts), w, us, k)
    ensures SumW(w) <= lo ==> |us| * w.Get(k) <= hi + 3 * SumW(w)
    ensures 1 <= MaxW(w) && 4 * MaxW(w) <= lo ==> |us| * w.Get(k) < hi + 4 * MaxW(w)
  {
    WaitingIsFree(Played(START, w, ts), w, us, k);
    hide Legal;
    hide SumW;
    hide MaxW;
    MinimumShare(w, ts, us, k, lo, hi);
  }

  /** No lane is served in any of the turns, although k is backlogged in all of them. */
  ghost predicate Stalls(s: Standing, w: PerLane<nat>, ts: seq<Turn>, k: Lane)
    decreases |ts|
  {
    ts == [] ||
    (var front, t := ts[..|ts| - 1], ts[|ts| - 1];
     Stalls(s, w, front, k) && t.backlog.Get(k) && Served(Played(s, w, front), w, t) == None)
  }

  lemma {:induction false} StallsWait(s: Standing, w: PerLane<nat>, ts: seq<Turn>, k: Lane)
    requires Stalls(s, w, ts, k)
    ensures Waits(s, w, ts, k)
    decreases |ts|
  {
    hide Served;
    if ts != [] {
      StallsWait(s, w, ts[..|ts| - 1], k);
    }
  }

  /** Bounded stall: turns that serve nobody come at most (S - 1) / w in a row, w the weight of a backlogged lane. */
  lemma StallIsShort(w: PerLane<nat>, ts: seq<Turn>, us: seq<Turn>, k: Lane, lo: nat, hi: nat)
    requires Legal(START, w, ts, lo, hi) && k != Signal && us != []
    requires Stalls(Played(START, w, ts), w, us, k)
    ensures |us| * w.Get(k) <= hi - 1
  {
    var s := Played(START, w, ts);
    CreditsStayBounded(w, ts, lo, hi);
    BoundOnLane(s.credit, k, -(hi as int), 0, 0);
    StallsWait(s, w, us, k);
    WaitingIsFree(s, w, us, k);
    Account(s, w, us, k);
    var front, t := us[..|us| - 1], us[|us| - 1];
    var p := Played(s, w, front);
    InDebtAfterStall(p, w, t, k);
    hide Round;
    hide Stalls;
    hide Waits;
  }

  lemma InDebtAfterStall(p: Standing, w: PerLane<nat>, t: Turn, k: Lane)
    requires k != Signal && t.backlog.Get(k) && Served(p, w, t) == None
    ensures Advance(p, w, t).credit.Get(k) < 0
  {
    BestWins(Replenished(p.credit, w, t.backlog), t.backlog);
    hide Best;
  }

  // ---------- what goes wrong when they are not ----------

  function Total(c: Credits): int {
    c.audio + c.cursor + c.video + c.file
  }

  /** Every backlogged lane's head costs the same. */
  function Even(b: PerLane<bool>, cost: nat): PerLane<nat> {
    PerLane(if b.signal then cost else 0, if b.audio then cost else 0, if b.cursor then cost else 0,
            if b.video then cost else 0, if b.file then cost else 0)
  }

  /** Turns in which some lane is backlogged and all items cost lo. */
  ghost predicate Plain(ts: seq<Turn>, lo: nat) {
    forall i :: 0 <= i < |ts| ==> PlainTurn(ts[i], lo)
  }

  ghost predicate PlainTurn(t: Turn, lo: nat) {
    t.cost == Even(t.backlog, lo) && Busy(t.backlog) && !t.backlog.signal
  }

  /** One turn in which every item costs lo: who gains and who pays. */
  lemma EvenRound(c: Credits, w: PerLane<nat>, b: PerLane<bool>, lo: nat)
    ensures var (d, best) := Round(c, w, b, Even(b, lo));
            match best
            case None =>
              AllInDebt(Replenished(c, w, b), b) && d == Replenished(c, w, b)
            case Some(i) =>
              && i != Signal && b.Get(i) && c.Get(i) + w.Get(i) >= 0 && d.Get(i) == c.Get(i) + w.Get(i) - lo
              && (forall l: Lane :: l != i && l != Signal ==> d.Get(l) == c.Get(l) + if b.Get(l) then w.Get(l) else 0)
              && (forall l: Lane :: l != Signal && b.Get(l) ==> c.Get(l) + w.Get(l) <= c.Get(i) + w.Get(i))
              && Total(d) == Total(Replenished(c, w, b)) - lo
  {
    BestWins(Replenished(c, w, b), b);
    hide Best;
  }

  function EvenTurn(b: PerLane<bool>, lo: nat): Turn {
    Turn(b, Even(b, lo))
  }

  const ALL: PerLane<bool> := PerLane(false, true, true, true, true)

  function AllBut(k: Lane): PerLane<bool> {
    ALL.Set(k, false)
  }

  lemma OneTurn(s: Standing, w: PerLane<nat>, ts: seq<Turn>, t: Turn, lo: int, hi: int)
    ensures Played(s, w, ts + [t]) == Advance(Played(s, w, ts), w, t)
    ensures Legal(s, w, ts + [t], lo, hi) <==>
              Legal(s, w, ts, lo, hi) && Follows(Played(s, w, ts), t) && CostsBetween(t.backlog, t.cost, lo, hi)
    ensures forall k :: Waits(s, w, ts + [t], k) <==>
              Waits(s, w, ts, k) && t.backlog.Get(k) && Served(Played(s, w, ts), w, t) != Some(k)
    ensures lo >= 0 && Plain(ts, lo) && PlainTurn(t, lo) ==> Plain(ts + [t], lo)
  {
    hide PlainTurn;
    assert (ts + [t])[..|ts + [t]| - 1] == ts;
  }

  /** One turn with every lane backlogged does not serve a lane that is behind. */
  lemma TurnBehind(p: Standing, w: PerLane<nat>, i: Lane, k: Lane, lo: nat)
    requires i != k && i != Signal && k != Signal && p.credit.Get(i) > p.credit.Get(k) + w.Get(k)
    ensures var t := EvenTurn(ALL, lo); var d := Advance(p, w, t).credit;
            && Follows(p, t) && CostsBetween(t.backlog, t.cost, lo, lo) && PlainTurn(t, lo) && t.backlog.Get(k)
            && Served(p, w, t) != Some(k)
            && d.Get(k) == p.credit.Get(k) + w.Get(k) && d.Get(i) >= p.credit.Get(i) - lo
  {
    EvenRound(p.credit, w, ALL, lo);
    hide Round;
  }

  /** Behind a rival whose lead is long enough, lane k waits n turns although it is backlogged all the time. */
  lemma {:induction false} StarveBehind(s: Standing, w: PerLane<nat>, i: Lane, k: Lane, n: nat, lo: nat)
    returns (us: seq<Turn>)
    requires i != k && i != Signal && k != Signal
    requires s.credit.Get(i) > s.credit.Get(k) + n * (w.Get(k) + lo)
    ensures |us| == n && Legal(s, w, us, lo, lo) && Waits(s, w, us, k) && Plain(us, lo)
    ensures var d := Played(s, w, us).credit;
            d.Get(k) == s.credit.Get(k) + n * w.Get(k) && d.Get(i) >= s.credit.Get(i) - n * lo
    decreases n
  {
    if n == 0 {
      us := [];
    } else {
      OneMore(n - 1, w.Get(k) + lo);
      OneMore(n - 1, w.Get(k));
      OneMore(n - 1, lo);
      LeadRemains(s.credit.Get(i), s.credit.Get(k), n, w.Get(k), lo);
      hide Advance;
      hide Served;
      hide Follows;
      hide CostsBetween;
      hide PlainTurn;
      var front := StarveBehind(s, w, i, k, n - 1, lo);
      var t := EvenTurn(ALL, lo);
      TurnBehind(Played(s, w, front), w, i, k, lo);
      OneTurn(s, w, front, t, lo, lo);
      us := front + [t];
      hide Legal;
      hide Waits;
    }
  }

  lemma LeadRemains(ci: int, ck: int, n: nat, wk: nat, lo: nat)
    requires n >= 1 && ci > ck + n * (wk + lo)
    ensures ci - (n - 1) * lo > ck + (n - 1) * wk + wk
  {
    assert n * (wk + lo) == n * wk + n * lo;
    assert n * wk >= (n - 1) * wk && n * lo >= (n - 1) * lo;
  }

  lemma PileTurn(p: Standing, w: PerLane<nat>, k: Lane, lo: nat)
    requires Total(w.Set(k, 0)) > lo && Total(p.credit) >= 0 && !p.owed.Get(k)
    requires k != Signal ==> p.credit.Get(k) == 0
    ensures var t := EvenTurn(AllBut(k), lo); var d := Advance(p, w, t);
            && Follows(p, t) && CostsBetween(t.backlog, t.cost, lo, lo) && PlainTurn(t, lo)
            && Total(d.credit) >= Total(p.credit) + 1 && !d.owed.Get(k)
            && (k != Signal ==> d.credit.Get(k) == 0)
  {
    var b, r := AllBut(k), Replenished(p.credit, w, AllBut(k));
    EvenRound(p.credit, w, b, lo);
    assert Total(r) == Total(p.credit) + Total(w.Set(k, 0));
    hide Round;
    hide Replenished;
  }

  /** Lanes other than k, kept backlogged among themselves, pile up credit when together they earn more than lo. */
  lemma {:induction false} PileUp(w: PerLane<nat>, k: Lane, n: nat, lo: nat) returns (ts: seq<Turn>)
    requires Total(w.Set(k, 0)) > lo
    ensures Legal(START, w, ts, lo, lo) && |ts| == n && Plain(ts, lo)
    ensures var p := Played(START, w, ts);
            && Total(p.credit) >= n && p.owed.Get(k) == false && (k != Signal ==> p.credit.Get(k) == 0)
    decreases n
  {
    if n == 0 {
      ts := [];
    } else {
      hide Advance;
      hide Follows;
      hide CostsBetween;
      hide PlainTurn;
      hide Legal;
      var front := PileUp(w, k, n - 1, lo);
      var t := EvenTurn(AllBut(k), lo);
      PileTurn(Played(START, w, front), w, k, lo);
      OneTurn(START, w, front, t, lo, lo);
      ts := front + [t];
    }
  }

  lemma SomeoneHasAQuarter(c: Credits) returns (i: Lane)
    ensures i != Signal && 4 * c.Get(i) >= Total(c)
  {
    i := if c.audio >= c.cursor && c.audio >= c.video && c.audio >= c.file then Audio
         else if c.cursor >= c.video && c.cursor >= c.file then Cursor
         else if c.video >= c.file then Video else File;
    assert c.Get(Audio) == c.audio && c.Get(Cursor) == c.cursor && c.Get(Video) == c.video && c.Get(File) == c.file;
  }

  function Pair(k: Lane, m: Lane): PerLane<bool> {
    PerLane(false, false, false, false, false).Set(k, true).Set(m, true)
  }

  lemma PairTurn(s: Standing, w: PerLane<nat>, k: Lane, m: Lane, lo: nat)
    requires k != m && k != Signal && m != Signal
    requires forall l: Lane :: l != Signal && s.owed.Get(l) ==> l == k || l == m
    requires s.credit.Get(k) > 0 && s.credit.Get(m) > 0
    ensures var t := EvenTurn(Pair(k, m), lo); var d := Advance(s, w, t);
            && Follows(s, t) && CostsBetween(t.backlog, t.cost, lo, lo) && PlainTurn(t, lo)
            && d.credit.Get(k) + d.credit.Get(m) == s.credit.Get(k) + s.credit.Get(m) + w.Get(k) + w.Get(m) - lo
            && (forall l: Lane :: l != Signal && d.owed.Get(l) ==> l == k || l == m)
            && (forall l: Lane :: l != k && l != m && l != Signal ==> d.credit.Get(l) == s.credit.Get(l))
  {
    hide Round;
    hide Replenished;
    hide CostsBetween;
    hide PlainTurn;
    hide Follows;
    hide Even;
    PairOf(s, k, m, lo);
    hide Pair;
    EvenRound(s.credit, w, Pair(k, m), lo);
  }

  /** The backlog of such a turn. */
  lemma PairOf(s: Standing, k: Lane, m: Lane, lo: nat)
    requires k != m && k != Signal && m != Signal
    requires forall l: Lane :: l != Signal && s.owed.Get(l) ==> l == k || l == m
    ensures forall l: Lane :: Pair(k, m).Get(l) <==> l == k || l == m
    ensures var t := EvenTurn(Pair(k, m), lo);
            Follows(s, t) && CostsBetween(t.backlog, t.cost, lo, lo) && PlainTurn(t, lo) && Busy(t.backlog)
  {
  }

  /** Two lanes alone, earning less than lo together, come down until one of them has nothing. */
  lemma {:induction false} RunDown(s: Standing, w: PerLane<nat>, k: Lane, m: Lane, lo: nat) returns (ts: seq<Turn>)
    requires k != m && k != Signal && m != Signal && w.Get(k) + w.Get(m) < lo
    requires forall l: Lane :: l != Signal && s.owed.Get(l) ==> l == k || l == m
    ensures Legal(s, w, ts, lo, lo) && Plain(ts, lo)
    ensures var c := Played(s, w, ts).credit;
            && (c.Get(k) <= 0 || c.Get(m) <= 0)
            && (forall l: Lane :: l != k && l != m && l != Signal ==> c.Get(l) == s.credit.Get(l))
    decreases if s.credit.Get(k) + s.credit.Get(m) > 0 then s.credit.Get(k) + s.credit.Get(m) else 0
  {
    if s.credit.Get(k) <= 0 || s.credit.Get(m) <= 0 {
      ts := [];
    } else {
      var t := EvenTurn(Pair(k, m), lo);
      PairTurn(s, w, k, m, lo);
      hide Advance;
      hide Follows;
      hide CostsBetween;
      hide PlainTurn;
      var rest := RunDown(Advance(s, w, t), w, k, m, lo);
      OneTurn(s, w, [], t, lo, lo);
      assert [] + [t] == [t];
      PlayedConcat(s, w, [t], rest, lo, lo);
      ts := [t] + rest;
    }
  }

  /** The two lanes that are neither i nor j. */
  function Rest(i: Lane, j: Lane): (r: (Lane, Lane))
    requires i != j && i != Signal && j != Signal
    ensures r.0 != r.1 && r.0 != Signal && r.1 != Signal
    ensures r.0 != i && r.0 != j && r.1 != i && r.1 != j
  {
    var k := if i != Audio && j != Audio then Audio else if i != Cursor && j != Cursor then Cursor else Video;
    (k, if i != File && j != File then File
        else if i != Video && j != Video then Video
        else Cursor)
  }

  lemma OneOfFour(i: Lane, j: Lane, l: Lane)
    requires i != j && i != Signal && j != Signal && l != Signal && l != i && l != j
    ensures l == Rest(i, j).0 || l == Rest(i, j).1
  {
  }

  /** The winner of a turn with every lane backlogged, after a pile-up: it keeps a quarter, and its queue is empty. */
  lemma RichWinner(p: Standing, w: PerLane<nat>, n: int, lo: nat) returns (i: Lane)
    requires Total(p.credit) >= n >= 0
    ensures var t := EvenTurn(ALL, lo); var d := Advance(p, w, t);
            && Follows(p, t) && CostsBetween(t.backlog, t.cost, lo, lo) && PlainTurn(t, lo)
            && i != Signal && 4 * (d.credit.Get(i) + lo) >= n && !d.owed.Get(i)
  {
    var q := SomeoneHasAQuarter(p.credit);
    EvenRound(p.credit, w, ALL, lo);
    var best := Served(p, w, EvenTurn(ALL, lo));
    i := if best.Some? then best.value else q;
    hide Round;
  }

  /** A turn without i: either the others are all in debt, or one of them is served and only two are left. */
  lemma TurnWithout(p: Standing, w: PerLane<nat>, i: Lane, lo: nat) returns (j: Option<Lane>)
    requires i != Signal && !p.owed.Get(i)
    ensures var t := EvenTurn(AllBut(i), lo); var d := Advance(p, w, t);
            && Follows(p, t) && CostsBetween(t.backlog, t.cost, lo, lo) && PlainTurn(t, lo)
            && d.credit.Get(i) == p.credit.Get(i)
            && match j
               case None => forall l: Lane :: l != Signal && l != i ==> d.credit.Get(l) < 0
               case Some(j) =>
                 j != Signal && j != i && forall l: Lane :: l != Signal && d.owed.Get(l) ==> l != i && l != j
  {
    EvenRound(p.credit, w, AllBut(i), lo);
    j := Served(p, w, EvenTurn(AllBut(i), lo));
    hide Round;
  }

  /** When an item costs less than what all lanes earn in a turn, some lane can get any distance ahead of another. */
  lemma FindGap(w: PerLane<nat>, lo: nat, g: nat) returns (ts: seq<Turn>, i: Lane, k: Lane)
    requires AllPositive(w) && lo < SumW(w)
    ensures i != k && i != Signal && k != Signal && Legal(START, w, ts, lo, lo) && Plain(ts, lo)
    ensures var c := Played(START, w, ts).credit; c.Get(i) > c.Get(k) + g
  {
    if k0: Lane :| k0 != Signal && Total(w.Set(k0, 0)) > lo {
      k := k0;
      ts := PileUp(w, k, 4 * g + 4, lo);
      i := SomeoneHasAQuarter(Played(START, w, ts).credit);
    } else {
      ts, i, k := GapWithoutOutsider(w, lo, g);
    }
  }

  /** The harder case: no three lanes earn more than an item costs, only all four together do. */
  lemma GapWithoutOutsider(w: PerLane<nat>, lo: nat, g: nat) returns (ts: seq<Turn>, i: Lane, k: Lane)
    requires AllPositive(w) && lo < SumW(w)
    requires forall k: Lane :: k != Signal ==> Total(w.Set(k, 0)) <= lo
    ensures i != k && i != Signal && k != Signal && Legal(START, w, ts, lo, lo) && Plain(ts, lo)
    ensures var c := Played(START, w, ts).credit; c.Get(i) > c.Get(k) + g
  {
    hide Advance;
    hide Follows;
    hide CostsBetween;
    hide PlainTurn;
    var n := 4 * (g + lo + 1);
    assert Total(w.Set(Signal, 0)) == SumW(w);
    var t1 := PileUp(w, Signal, n, lo);
    var p1 := Played(START, w, t1);
    i := RichWinner(p1, w, n, lo);
    var t2 := EvenTurn(ALL, lo);
    OneTurn(START, w, t1, t2, lo, lo);
    var p2 := Advance(p1, w, t2);
    var j := TurnWithout(p2, w, i, lo);
    var t3 := EvenTurn(AllBut(i), lo);
    OneTurn(START, w, t1 + [t2], t3, lo, lo);
    var p3 := Advance(p2, w, t3);
    ts := t1 + [t2] + [t3];
    hide Legal;
    if j == None {
      k := if i == Audio then Cursor else Audio;
    } else {
      var (a, b) := Rest(i, j.value);
      forall l: Lane | l != Signal && p3.owed.Get(l) ensures l == a || l == b {
        OneOfFour(i, j.value, l);
      }
      PairsAreCheap(w, i, j.value, lo);
      var t4 := RunDown(p3, w, a, b, lo);
      PlayedConcat(START, w, ts, t4, lo, lo);
      ts := ts + t4;
      k := if Played(START, w, ts).credit.Get(a) <= 0 then a else b;
    }
  }

  lemma PairsAreCheap(w: PerLane<nat>, i: Lane, j: Lane, lo: nat)
    requires i != j && i != Signal && j != Signal && w.Get(j) >= 1 && Total(w.Set(i, 0)) <= lo
    ensures var (a, b) := Rest(i, j); w.Get(a) + w.Get(b) < lo
  {
  }

  /** No lane ever waits more than n turns, whatever the run. */
  ghost predicate WaitsAtMost(w: PerLane<nat>, lo: nat, hi: nat, n: nat) {
    forall ts, us, k: Lane :: CanWait(w, ts, us, k, lo, hi) ==> |us| <= n
  }

  ghost predicate CanWait(w: PerLane<nat>, ts: seq<Turn>, us: seq<Turn>, k: Lane, lo: nat, hi: nat) {
    && k != Signal && Legal(START, w, ts, lo, hi) && Legal(Played(START, w, ts), w, us, lo, hi)
    && Waits(Played(START, w, ts), w, us, k)
  }

  /** No credit ever exceeds m, whatever the run. */
  ghost predicate CreditsAtMost(w: PerLane<nat>, lo: nat, hi: nat, m: int) {
    forall ts :: Legal(START, w, ts, lo, hi) ==> AtMost(Played(START, w, ts).credit, m)
  }

  lemma {:induction false} WiderIsLegal(s: Standing, w: PerLane<nat>, ts: seq<Turn>, c: nat, lo: nat, hi: nat)
    requires lo <= c <= hi && Legal(s, w, ts, c, c)
    ensures Legal(s, w, ts, lo, hi)
    decreases |ts|
  {
    if ts != [] {
      WiderIsLegal(s, w, ts[..|ts| - 1], c, lo, hi);
    }
  }

  predicate AllPositive(w: PerLane<nat>) {
    w.audio >= 1 && w.cursor >= 1 && w.video >= 1 && w.file >= 1
  }

  /** A lane of weight 0 that has been served once never earns its debt back. */
  lemma {:induction false} InDebtForEver(w: PerLane<nat>, k: Lane, c: nat, n: nat)
    returns (ts: seq<Turn>, us: seq<Turn>)
    requires k != Signal && w.Get(k) == 0 && c >= 1
    ensures Legal(START, w, ts, c, c) && Plain(ts, c)
    ensures var p := Played(START, w, ts);
            && Legal(p, w, us, c, c) && Plain(us, c) && Waits(p, w, us, k) && |us| == n
            && Played(p, w, us).credit.Get(k) == -(c as int)
            && (forall l: Lane :: l != Signal && Played(p, w, us).owed.Get(l) ==> l == k)
    decreases n
  {
    var t := EvenTurn(Pair(k, k), c);
    hide Round;
    hide CostsBetween;
    hide PlainTurn;
    if n == 0 {
      JustOne(START, w, k, c);
      hide Advance;
      hide Follows;
      OneTurn(START, w, [], t, c, c);
      ts, us := [] + [t], [];
    } else {
      var front;
      ts, front := InDebtForEver(w, k, c, n - 1);
      var p := Played(START, w, ts);
      JustOne(Played(p, w, front), w, k, c);
      hide Advance;
      hide Follows;
      hide Served;
      OneTurn(p, w, front, t, c, c);
      us := front + [t];
      hide Legal;
    }
  }

  /** A turn in which only k is backlogged: it is served unless it is still in debt with what it earns. */
  lemma JustOne(p: Standing, w: PerLane<nat>, k: Lane, c: nat)
    requires k != Signal && (forall l: Lane :: l != Signal && p.owed.Get(l) ==> l == k)
    ensures var t := EvenTurn(Pair(k, k), c); var d := Advance(p, w, t);
            && Follows(p, t) && CostsBetween(t.backlog, t.cost, c, c) && PlainTurn(t, c) && t.backlog.Get(k)
            && (if p.credit.Get(k) + w.Get(k) >= 0
                then Served(p, w, t) == Some(k) && d.credit.Get(k) == p.credit.Get(k) + w.Get(k) - c
                     && d.owed == Pair(k, k).Set(k, false)
                else Served(p, w, t) == None && d.credit.Get(k) == p.credit.Get(k) + w.Get(k) && d.owed == Pair(k, k))
            && (forall l: Lane :: l != Signal && d.owed.Get(l) ==> l == k)
  {
    EvenRound(p.credit, w, Pair(k, k), c);
    hide Round;
  }

  /**
   * Exactly when fair queueing does not starve, for items of lo to hi bytes (a pick charges at least 1, so hi >= 1):
   * there is a bound on every wait in every run if and only if all weights are positive and the cheapest
   * item costs at least their sum.
   */
  lemma StarvationFreeIff(w: PerLane<nat>, lo: nat, hi: nat)
    requires lo <= hi && (hi >= 1 || AllPositive(w))
    ensures (exists n :: WaitsAtMost(w, lo, hi, n)) <==> AllPositive(w) && SumW(w) <= lo
  {
    if AllPositive(w) && SumW(w) <= lo {
      forall ts, us, k: Lane | CanWait(w, ts, us, k, lo, hi) ensures |us| <= hi + 3 * SumW(w) {
        ShortWait(w, ts, us, k, lo, hi);
      }
      hide CanWait;
      assert WaitsAtMost(w, lo, hi, hi + 3 * SumW(w));
    } else {
      forall n ensures !WaitsAtMost(w, lo, hi, n) {
        if AllPositive(w) {
          LongWait(w, lo, hi, n);
        } else {
          WeightlessWait(w, lo, hi, n);
        }
      }
    }
  }

  /** A lane of weight 0. */
  function Weightless(w: PerLane<nat>): (k: Lane)
    requires !AllPositive(w)
    ensures k != Signal && w.Get(k) == 0
  {
    if w.audio == 0 then Audio else if w.cursor == 0 then Cursor else if w.video == 0 then Video else File
  }

  lemma WeightlessWait(w: PerLane<nat>, lo: nat, hi: nat, n: nat)
    requires !AllPositive(w) && lo <= hi && hi >= 1
    ensures !WaitsAtMost(w, lo, hi, n)
  {
    hide Legal;
    hide Waits;
    hide Played;
    var k := Weightless(w);
    var ts, us := InDebtForEver(w, k, hi, n + 1);
    WiderIsLegal(START, w, ts, hi, lo, hi);
    WiderIsLegal(Played(START, w, ts), w, us, hi, lo, hi);
    assert CanWait(w, ts, us, k, lo, hi);
  }

  lemma ShortWait(w: PerLane<nat>, ts: seq<Turn>, us: seq<Turn>, k: Lane, lo: nat, hi: nat)
    requires CanWait(w, ts, us, k, lo, hi) && w.Get(k) >= 1 && SumW(w) <= lo
    ensures |us| <= hi + 3 * SumW(w)
  {
    NoStarvation(w, ts, us, k, lo, hi);
    Product(|us|, 1, w.Get(k));
  }

  lemma Product(n: nat, x: nat, y: nat)
    requires x <= y
    ensures n * x <= n * y
  {
  }

  lemma WeightAtMostSum(w: PerLane<nat>, k: Lane)
    requires k != Signal
    ensures w.Get(k) <= SumW(w)
  {
  }

  /** A lead that keeps any lane waiting for n + 1 turns. */
  function LeadFor(w: PerLane<nat>, lo: nat, n: nat): nat {
    (n + 1) * (SumW(w) + lo)
  }

  lemma LeadSuffices(w: PerLane<nat>, lo: nat, n: nat, k: Lane)
    requires k != Signal
    ensures (n + 1) * (w.Get(k) + lo) <= LeadFor(w, lo, n)
  {
    WeightAtMostSum(w, k);
    Product(n + 1, w.Get(k) + lo, SumW(w) + lo);
  }

  lemma LongWait(w: PerLane<nat>, lo: nat, hi: nat, n: nat)
    requires AllPositive(w) && lo <= hi && lo < SumW(w)
    ensures !WaitsAtMost(w, lo, hi, n)
  {
    hide Legal;
    hide Waits;
    hide Played;
    hide LeadFor;
    var ts, i, k := FindGap(w, lo, LeadFor(w, lo, n));
    LeadSuffices(w, lo, n, k);
    hide SumW;
    var s := Played(START, w, ts);
    var us := StarveBehind(s, w, i, k, n + 1, lo);
    WiderIsLegal(START, w, ts, lo, lo, hi);
    WiderIsLegal(s, w, us, lo, lo, hi);
    assert CanWait(w, ts, us, k, lo, hi);
  }

  /** Exactly when credit is bounded, for any weights: when the cheapest item costs at least their sum. */
  lemma CreditBoundedIff(w: PerLane<nat>, lo: nat, hi: nat)
    requires lo <= hi
    ensures (exists m :: CreditsAtMost(w, lo, hi, m)) <==> SumW(w) <= lo
  {
    if SumW(w) <= lo {
      forall ts | Legal(START, w, ts, lo, hi) ensures AtMost(Played(START, w, ts).credit, 3 * SumW(w)) {
        CreditsStayBounded(w, ts, lo, hi);
      }
      assert CreditsAtMost(w, lo, hi, 3 * SumW(w));
    } else {
      assert Total(w.Set(Signal, 0)) == SumW(w);
      forall m ensures !CreditsAtMost(w, lo, hi, m) {
        var n: nat := if m >= 0 then 4 * (m + 1) else 4;
        var ts := PileUp(w, Signal, n, lo);
        var i := SomeoneHasAQuarter(Played(START, w, ts).credit);
        WiderIsLegal(START, w, ts, lo, lo, hi);
        assert Played(START, w, ts).credit.Get(i) > m;
      }
    }
  }
}
