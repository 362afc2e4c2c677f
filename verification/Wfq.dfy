/** The credits of the weighted fair queueing: the arithmetic of scheduler/scheduler.go, pick. */
module Wfq {
  import opened Wrappers
  import opened Queues

  /** The order in which pick visits the non-signal lanes. */
  const READY: seq<Lane> := [Audio, Cursor, Video, File]

  type Credits = PerLane<int>

  /** Every backlogged lane earns its weight. */
  function Replenished(c: Credits, w: PerLane<nat>, backlog: PerLane<bool>): (r: Credits)
    ensures forall l: Lane :: r.Get(l) == c.Get(l) + if l != Signal && backlog.Get(l) then w.Get(l) else 0
  {
    c.(audio := c.audio + (if backlog.audio then w.audio else 0),
       cursor := c.cursor + (if backlog.cursor then w.cursor else 0),
       video := c.video + (if backlog.video then w.video else 0),
       file := c.file + (if backlog.file then w.file else 0))
  }

  predicate Busy(backlog: PerLane<bool>) {
    backlog.audio || backlog.cursor || backlog.video || backlog.file
  }

  /** l has the largest credit among the backlogged lanes, it is not negative, and no earlier lane ties with it. */
  ghost predicate Wins(c: Credits, backlog: PerLane<bool>, l: Lane) {
    && l != Signal && backlog.Get(l) && c.Get(l) >= 0
    && (backlog.audio ==> c.audio <= c.Get(l) && (l != Audio ==> c.audio < c.Get(l)))
    && (backlog.cursor ==> c.cursor <= c.Get(l) && (l == Video || l == File ==> c.cursor < c.Get(l)))
    && (backlog.video ==> c.video <= c.Get(l) && (l == File ==> c.video < c.Get(l)))
    && (backlog.file ==> c.file <= c.Get(l))
  }

  /** Every backlogged lane is in debt. */
  ghost predicate AllInDebt(c: Credits, backlog: PerLane<bool>) {
    && (backlog.audio ==> c.audio < 0) && (backlog.cursor ==> c.cursor < 0)
    && (backlog.video ==> c.video < 0) && (backlog.file ==> c.file < 0)
  }

  /** The scan of pick over the first n lanes: the best lane so far, and its credit (-1 when there is none). */
  function Scan(c: Credits, backlog: PerLane<bool>, n: nat): (Option<Lane>, int)
    requires n <= 4
  {
    if n == 0 then (None, -1)
    else
      var (best, credit) := Scan(c, backlog, n - 1);
      var l := READY[n - 1];
      if backlog.Get(l) && c.Get(l) > credit then (Some(l), c.Get(l)) else (best, credit)
  }

  function Best(c: Credits, backlog: PerLane<bool>): Option<Lane> {
    Scan(c, backlog, 4).0
  }

  /** pick serves the lane that Wins; it serves none exactly when every backlogged lane is in debt. */
  lemma BestWins(c: Credits, backlog: PerLane<bool>)
    ensures match Best(c, backlog) case Some(l) => Wins(c, backlog, l) case None => AllInDebt(c, backlog)
  {
    assert READY[0] == Audio && READY[1] == Cursor && READY[2] == Video && READY[3] == File;
    assert Scan(c, backlog, 0) == (None, -1);
    var s1, s2, s3 := Scan(c, backlog, 1), Scan(c, backlog, 2), Scan(c, backlog, 3);
    assert s1 == if backlog.audio && c.audio > -1 then (Some(Audio), c.audio) else (None, -1);
    assert s2 == if backlog.cursor && c.cursor > s1.1 then (Some(Cursor), c.cursor) else s1;
    assert s3 == if backlog.video && c.video > s2.1 then (Some(Video), c.video) else s2;
    assert Scan(c, backlog, 4) == if backlog.file && c.file > s3.1 then (Some(File), c.file) else s3;
    hide Scan;
  }

  /** One non-signal pick: the credits afterwards, and the lane served, if any; cost is what each head would cost. */
  function Round(c: Credits, w: PerLane<nat>, backlog: PerLane<bool>, cost: PerLane<nat>): (Credits, Option<Lane>) {
    var r := Replenished(c, w, backlog);
    match Best(r, backlog)
    case None => (r, None)
    case Some(l) => (r.Set(l, r.Get(l) - cost.Get(l)), Some(l))
  }

  // ---------- bounded credit ----------

  function SumW(w: PerLane<nat>): nat {
    w.audio + w.cursor + w.video + w.file
  }

  ghost predicate CostsBetween(backlog: PerLane<bool>, cost: PerLane<nat>, lo: int, hi: int) {
    forall l: Lane :: l != Signal && backlog.Get(l) ==> lo <= cost.Get(l) <= hi
  }

  ghost predicate AtLeast(c: Credits, floor: int) {
    c.audio >= floor && c.cursor >= floor && c.video >= floor && c.file >= floor
  }

  ghost predicate AtMost(c: Credits, ceiling: int) {
    c.audio <= ceiling && c.cursor <= ceiling && c.video <= ceiling && c.file <= ceiling
  }

  /** Any one, two, three or all four of the numbers add up to at most 3, 5, 6 and 6 times t. */
  ghost predicate Spread4(a: int, b: int, c: int, d: int, t: nat) {
    && a <= 3 * t && b <= 3 * t && c <= 3 * t && d <= 3 * t
    && a + b <= 5 * t && a + c <= 5 * t && a + d <= 5 * t && b + c <= 5 * t && b + d <= 5 * t && c + d <= 5 * t
    && a + b + c <= 6 * t && a + b + d <= 6 * t && a + c + d <= 6 * t && b + c + d <= 6 * t
    && a + b + c + d <= 6 * t
  }

  ghost predicate Spread(c: Credits, t: nat) {
    Spread4(c.audio, c.cursor, c.video, c.file, t)
  }

  /** A loser either kept its credit or earned its weight and still has no more than the winner's top. */
  ghost predicate Loses(old_: int, new_: int, w: nat, top: int) {
    new_ == old_ || (new_ == old_ + w && new_ <= top)
  }

  /** The winner's top is not negative, and it pays at least lo. */
  ghost predicate Pays(old_: int, new_: int, w: nat, lo: int) {
    old_ + w >= 0 && new_ <= old_ + w - lo
  }

  ghost predicate Sinks(old_: int, new_: int) {
    new_ == old_ || new_ < 0
  }

  /** What a round does to the four credits. */
  lemma RoundShape(c: Credits, w: PerLane<nat>, backlog: PerLane<bool>, cost: PerLane<nat>, lo: int, hi: int)
    requires CostsBetween(backlog, cost, lo, hi)
    ensures var (d, best) := Round(c, w, backlog, cost);
            match best
            case None =>
              Sinks(c.audio, d.audio) && Sinks(c.cursor, d.cursor) && Sinks(c.video, d.video) && Sinks(c.file, d.file)
            case Some(Audio) =>
              var top := c.audio + w.audio;
              && Pays(c.audio, d.audio, w.audio, lo) && Loses(c.cursor, d.cursor, w.cursor, top)
              && Loses(c.video, d.video, w.video, top) && Loses(c.file, d.file, w.file, top)
            case Some(Cursor) =>
              var top := c.cursor + w.cursor;
              && Pays(c.cursor, d.cursor, w.cursor, lo) && Loses(c.audio, d.audio, w.audio, top)
              && Loses(c.video, d.video, w.video, top) && Loses(c.file, d.file, w.file, top)
            case Some(Video) =>
              var top := c.video + w.video;
              && Pays(c.video, d.video, w.video, lo) && Loses(c.audio, d.audio, w.audio, top)
              && Loses(c.cursor, d.cursor, w.cursor, top) && Loses(c.file, d.file, w.file, top)
            case Some(File) =>
              var top := c.file + w.file;
              && Pays(c.file, d.file, w.file, lo) && Loses(c.audio, d.audio, w.audio, top)
              && Loses(c.cursor, d.cursor, w.cursor, top) && Loses(c.video, d.video, w.video, top)
            case Some(Signal) => false
  {
    BestWins(Replenished(c, w, backlog), backlog);
    hide Best;
  }

  /** The floor needs nothing but the largest cost: only a credit that is not negative is ever charged. */
  lemma RoundKeepsFloor(c: Credits, w: PerLane<nat>, backlog: PerLane<bool>, cost: PerLane<nat>, hi: int)
    requires hi >= 0 && AtLeast(c, -hi) && CostsBetween(backlog, cost, 0, hi)
    ensures AtLeast(Round(c, w, backlog, cost).0, -hi)
  {
    BestWins(Replenished(c, w, backlog), backlog);
    hide Best;
  }

  /** x wins and pays; a, b and c lose. */
  lemma WinnerPays(x: int, a: int, b: int, c: int, wx: nat, wa: nat, wb: nat, wc: nat,
                   x': int, a': int, b': int, c': int, t: nat)
    requires Spread4(x, a, b, c, t) && wx + wa + wb + wc <= t
    requires Pays(x, x', wx, t)
    requires Loses(a, a', wa, x + wx) && Loses(b, b', wb, x + wx) && Loses(c, c', wc, x + wx)
    ensures Spread4(x', a', b', c', t)
  {
    LosersShare(x, a, b, c, wx, wa, wb, wc, a', b', c', t);
  }

  /** The losers alone: the winner's top is at least each of theirs, so it holds back their sum. */
  lemma LosersShare(x: int, a: int, b: int, c: int, wx: nat, wa: nat, wb: nat, wc: nat,
                    a': int, b': int, c': int, t: nat)
    requires Spread4(x, a, b, c, t) && wx + wa + wb + wc <= t && x + wx >= 0
    requires Loses(a, a', wa, x + wx) && Loses(b, b', wb, x + wx) && Loses(c, c', wc, x + wx)
    ensures a' <= 3 * t && b' <= 3 * t && c' <= 3 * t
    ensures a' + b' <= 5 * t && a' + c' <= 5 * t && b' + c' <= 5 * t
    ensures a' + b' + c' <= 6 * t
  {
  }

  /** Nobody wins: whoever earned something is still below zero. */
  lemma NobodyPays(a: int, b: int, c: int, d: int, a': int, b': int, c': int, d': int, t: nat)
    requires Spread4(a, b, c, d, t)
    requires Sinks(a, a') && Sinks(b, b') && Sinks(c, c') && Sinks(d, d')
    ensures Spread4(a', b', c', d', t)
  {
  }

  /** The ceiling holds whenever every item costs at least what all lanes together earn in a round. */
  lemma RoundKeepsSpread(c: Credits, w: PerLane<nat>, backlog: PerLane<bool>, cost: PerLane<nat>, lo: nat, hi: nat)
    requires Spread(c, SumW(w)) && SumW(w) <= lo && CostsBetween(backlog, cost, lo, hi)
    ensures Spread(Round(c, w, backlog, cost).0, SumW(w))
  {
    var t := SumW(w);
    RoundShape(c, w, backlog, cost, t, hi);
    var (d, best) := Round(c, w, backlog, cost);
    assert w.audio + w.cursor + w.video + w.file == t;
    hide Round;
    hide CostsBetween;
    hide Loses;
    hide Pays;
    hide Sinks;
    hide Spread4;
    hide SumW;
    match best {
      case None => NobodyPays(c.audio, c.cursor, c.video, c.file, d.audio, d.cursor, d.video, d.file, t);
      case Some(Audio) =>
        WinnerPays(c.audio, c.cursor, c.video, c.file, w.audio, w.cursor, w.video, w.file,
                   d.audio, d.cursor, d.video, d.file, t);
      case Some(Cursor) =>
        Swap(c.audio, c.cursor, c.video, c.file, t);
        WinnerPays(c.cursor, c.audio, c.video, c.file, w.cursor, w.audio, w.video, w.file,
                   d.cursor, d.audio, d.video, d.file, t);
        Swap(d.cursor, d.audio, d.video, d.file, t);
      case Some(Video) =>
        Rotate(c.audio, c.cursor, c.video, c.file, t);
        WinnerPays(c.video, c.audio, c.cursor, c.file, w.video, w.audio, w.cursor, w.file,
                   d.video, d.audio, d.cursor, d.file, t);
        Rotate(d.audio, d.cursor, d.video, d.file, t);
      case Some(File) =>
        Rotate(c.audio, c.cursor, c.video, c.file, t);
        WinnerPays(c.file, c.audio, c.cursor, c.video, w.file, w.audio, w.cursor, w.video,
                   d.file, d.audio, d.cursor, d.video, t);
        Rotate(d.audio, d.cursor, d.video, d.file, t);
    }
  }

  lemma Swap(a: int, b: int, c: int, d: int, t: nat)
    ensures Spread4(a, b, c, d, t) <==> Spread4(b, a, c, d, t)
  {
  }

  lemma Rotate(a: int, b: int, c: int, d: int, t: nat)
    ensures Spread4(a, b, c, d, t) <==> Spread4(c, a, b, d, t)
    ensures Spread4(a, b, c, d, t) <==> Spread4(d, a, b, c, t)
  {
  }

  // ---------- the sharper ceiling when items cost four times the largest weight ----------

  function Count4(a: int, b: int, c: int, d: int, level: int): nat {
    (if a >= level then 1 else 0) + (if b >= level then 1 else 0) + (if c >= level then 1 else 0)
    + (if d >= level then 1 else 0)
  }

  /** At most 4 - j of the numbers reach j times w. */
  ghost predicate Stairs4(a: int, b: int, c: int, d: int, w: nat) {
    && Count4(a, b, c, d, w) <= 3 && Count4(a, b, c, d, 2 * w) <= 2
    && Count4(a, b, c, d, 3 * w) <= 1 && Count4(a, b, c, d, 4 * w) == 0
  }

  ghost predicate Stairs(c: Credits, w: nat) {
    Stairs4(c.audio, c.cursor, c.video, c.file, w)
  }

  function MaxW(w: PerLane<nat>): nat {
    var m := if w.audio > w.cursor then w.audio else w.cursor;
    var n := if w.video > w.file then w.video else w.file;
    if m > n then m else n
  }

  lemma WinnerDescends(x: int, a: int, b: int, c: int, wx: nat, wa: nat, wb: nat, wc: nat,
                       x': int, a': int, b': int, c': int, w: nat)
    requires Stairs4(x, a, b, c, w) && wx <= w && wa <= w && wb <= w && wc <= w && w >= 1
    requires Pays(x, x', wx, 4 * w)
    requires Loses(a, a', wa, x + wx) && Loses(b, b', wb, x + wx) && Loses(c, c', wc, x + wx)
    ensures Stairs4(x', a', b', c', w)
  {
    LevelKept(x, a, b, c, wx, wa, wb, wc, x', a', b', c', w, 0);
    LevelKept(x, a, b, c, wx, wa, wb, wc, x', a', b', c', w, w);
    LevelKept(x, a, b, c, wx, wa, wb, wc, x', a', b', c', w, 2 * w);
    LevelKept(x, a, b, c, wx, wa, wb, wc, x', a', b', c', w, 3 * w);
    hide Loses;
  }

  /** Whoever reaches the next step stood on this one, or was beaten to it by the winner, who comes down. */
  lemma LevelKept(x: int, a: int, b: int, c: int, wx: nat, wa: nat, wb: nat, wc: nat,
                  x': int, a': int, b': int, c': int, w: nat, low: int)
    requires wx <= w && wa <= w && wb <= w && wc <= w && w >= 1 && x' <= x + wx - 4 * w && low >= 0 && x < 4 * w
    requires Loses(a, a', wa, x + wx) && Loses(b, b', wb, x + wx) && Loses(c, c', wc, x + wx)
    ensures Count4(x', a', b', c', low + w) <= Count4(x, a, b, c, low + w)
            || Count4(x', a', b', c', low + w) <= Count4(x, a, b, c, low) - 1
  {
  }

  lemma StairsSwap(a: int, b: int, c: int, d: int, w: nat)
    ensures Stairs4(a, b, c, d, w) <==> Stairs4(b, a, c, d, w)
    ensures Stairs4(a, b, c, d, w) <==> Stairs4(c, a, b, d, w)
    ensures Stairs4(a, b, c, d, w) <==> Stairs4(d, a, b, c, w)
  {
  }

  lemma NobodyDescends(a: int, b: int, c: int, d: int, a': int, b': int, c': int, d': int, w: nat)
    requires Stairs4(a, b, c, d, w) && w >= 1
    requires Sinks(a, a') && Sinks(b, b') && Sinks(c, c') && Sinks(d, d')
    ensures Stairs4(a', b', c', d', w)
  {
  }

  /** Every credit stays below four times the largest weight. */
  lemma RoundKeepsStairs(c: Credits, w: PerLane<nat>, backlog: PerLane<bool>, cost: PerLane<nat>, lo: nat, hi: nat)
    requires Stairs(c, MaxW(w)) && 1 <= MaxW(w) && 4 * MaxW(w) <= lo && CostsBetween(backlog, cost, lo, hi)
    ensures Stairs(Round(c, w, backlog, cost).0, MaxW(w))
  {
    var t := MaxW(w);
    RoundShape(c, w, backlog, cost, 4 * t, hi);
    var (d, best) := Round(c, w, backlog, cost);
    WeightsAtMostMax(w);
    hide Round;
    hide CostsBetween;
    hide Loses;
    hide Pays;
    hide Sinks;
    hide Stairs4;
    hide MaxW;
    match best {
      case None => NobodyDescends(c.audio, c.cursor, c.video, c.file, d.audio, d.cursor, d.video, d.file, t);
      case Some(Audio) =>
        WinnerDescends(c.audio, c.cursor, c.video, c.file, w.audio, w.cursor, w.video, w.file,
                       d.audio, d.cursor, d.video, d.file, t);
      case Some(Cursor) =>
        StairsSwap(c.audio, c.cursor, c.video, c.file, t);
        WinnerDescends(c.cursor, c.audio, c.video, c.file, w.cursor, w.audio, w.video, w.file,
                       d.cursor, d.audio, d.video, d.file, t);
        StairsSwap(d.audio, d.cursor, d.video, d.file, t);
      case Some(Video) =>
        StairsSwap(c.audio, c.cursor, c.video, c.file, t);
        WinnerDescends(c.video, c.audio, c.cursor, c.file, w.video, w.audio, w.cursor, w.file,
                       d.video, d.audio, d.cursor, d.file, t);
        StairsSwap(d.audio, d.cursor, d.video, d.file, t);
      case Some(File) =>
        StairsSwap(c.audio, c.cursor, c.video, c.file, t);
        WinnerDescends(c.file, c.audio, c.cursor, c.video, w.file, w.audio, w.cursor, w.video,
                       d.file, d.audio, d.cursor, d.video, t);
        StairsSwap(d.audio, d.cursor, d.video, d.file, t);
    }
  }

  lemma WeightsAtMostMax(w: PerLane<nat>)
    ensures w.audio <= MaxW(w) && w.cursor <= MaxW(w) && w.video <= MaxW(w) && w.file <= MaxW(w)
  {
  }
}
