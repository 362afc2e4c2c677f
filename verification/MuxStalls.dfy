/** Rounds of the running multiplexer that pick nothing: they happen, and as many in a row as the bound allows. */
module MuxStalls {
  import opened Wrappers
  import opened Queues
  import opened Wfq
  import opened Mux
  import opened MuxRuns
  import opened MuxStarvation
  import opened Starvation

  const EMPTY: PerLane<bool> := PerLane(false, false, false, false, false)

  function Just(k: Lane): PerLane<bool> {
    EMPTY.Set(k, true)
  }

  lemma JustIsPair(k: Lane)
    ensures Just(k) == Pair(k, k) && Just(k).Set(k, false) == EMPTY
    ensures k != Signal ==> Busy(Just(k))
  {
  }

  /** What Stocked says of empty lanes does not depend on the size. */
  lemma EmptyAnySize(s: System, c: nat, d: nat)
    requires Stocked(s, EMPTY, c)
    ensures Stocked(s, EMPTY, d)
  {
  }

  /** One item comes, is picked and is sent: the credit of its lane changes by the weight less the size. */
  lemma ServeOne(s: System, k: Lane, size: nat) returns (es: seq<Event>)
    requires Stocked(s, EMPTY, size) && s.bucket.disabled && k != Signal && size >= 1
    requires s.credit.Get(k) + s.weights.Get(k) >= 0
    ensures Possible(s, es) && Offers(es, size, size)
    ensures var u := Ran(s, es);
            && Stocked(u, EMPTY, size) && u.bucket == s.bucket && u.weights == s.weights
            && u.credit.Get(k) == s.credit.Get(k) + s.weights.Get(k) - size
  {
    hide Possible;
    hide Ran;
    hide Turns;
    hide Offers;
    hide Quiet;
    hide Stocked;
    hide Advance;
    JustIsPair(k);
    es := Restock(s, EMPTY, k, size);
    var t, p := Ran(s, es), Standing(s.credit, EMPTY);
    JustOne(p, s.weights, k, size);
    var more := ServeTurn(t, p, Just(k), size);
    RunConcat(s, es, more);
    es := es + more;
  }

  /** One round that picks nothing, the only item being on a lane in debt. */
  lemma StallOnce(s: System, k: Lane, c: nat)
    requires Stocked(s, Just(k), c) && k != Signal && c >= 1 && s.credit.Get(k) + s.weights.Get(k) < 0
    ensures IsRound(s, Pick) && !s.qs.Get(k).Empty() && Enabled(s, Pick) && Next(s, Pick).drainer == Idle
    ensures var t := Next(s, Pick);
            && Stocked(t, Just(k), c) && t.weights == s.weights
            && t.credit.Get(k) == s.credit.Get(k) + s.weights.Get(k)
  {
    var p := Standing(s.credit, EMPTY);
    JustIsPair(k);
    JustOne(p, s.weights, k, c);
    PickTurn(s, p, Just(k), c);
    FollowsMirrors(s, p, Just(k), c);
    PickOutcome(s, p);
    hide Next;
    hide Advance;
    hide Served;
    hide Follows;
    hide Mirrors;
    var t := Next(s, Pick);
    assert t.(drainer := Idle) == t;
  }

  lemma {:induction false} StallRun(s: System, k: Lane, c: nat, n: nat) returns (es: seq<Event>)
    requires Stocked(s, Just(k), c) && k != Signal && c >= 1
    requires n >= 1 ==> s.credit.Get(k) + n * s.weights.Get(k) < 0
    ensures Possible(s, es) && (forall lo, hi :: Offers(es, lo, hi)) && AllStall(s, es, k) && |Turns(s, es)| == n
    ensures var t := Ran(s, es);
            && Stocked(t, Just(k), c) && t.weights == s.weights
            && t.credit.Get(k) == s.credit.Get(k) + n * s.weights.Get(k)
    decreases n
  {
    hide Stocked;
    hide Next;
    hide Enabled;
    hide IsRound;
    if n == 0 {
      es := [];
    } else {
      OneMore(n - 1, s.weights.Get(k));
      var front := StallRun(s, k, c, n - 1);
      StallOnce(Ran(s, front), k, c);
      OneEvent(s, front, Pick);
      es := front + [Pick];
      assert es[..|es| - 1] == front;
    }
  }

  /** From New on: a lane of weight w served an item of 2·w and then one of size S has credit -S. */
  lemma RunIntoDebt(s: System, k: Lane, size: nat) returns (ds: seq<Event>)
    requires Initial(s) && k != Signal && s.weights.Get(k) >= 1 && 2 * s.weights.Get(k) <= size
    ensures Possible(s, ds) && Offers(ds, 2 * s.weights.Get(k), size)
    ensures var t := Ran(s, ds);
            && Stocked(t, Just(k), size) && t.weights == s.weights && t.credit.Get(k) == -(size as int)
  {
    hide Possible;
    hide Ran;
    hide Turns;
    hide Offers;
    hide Stocked;
    var w := s.weights.Get(k);
    PacingOff(s, size);
    PacingOff(s, 2 * w);
    hide Initial;
    hide Next;
    ds := [SetDisabled(true)];
    assert START.owed == EMPTY && START.credit.Get(k) == 0;
    var a := ServeOne(Ran(s, ds), k, 2 * w);
    RunConcat(s, ds, a);
    OffersWider(ds, 2 * w, size);
    OffersWider(a, 2 * w, size);
    ds := ds + a;
    EmptyAnySize(Ran(s, ds), 2 * w, size);
    var b := ServeOne(Ran(s, ds), k, size);
    RunConcat(s, ds, b);
    OffersLarger(b, 2 * w, size);
    ds := ds + b;
    var c := Restock(Ran(s, ds), EMPTY, k, size);
    RunConcat(s, ds, c);
    OffersLarger(c, 2 * w, size);
    ds := ds + c;
  }

  lemma OffersLarger(es: seq<Event>, lo: nat, hi: nat)
    requires Offers(es, hi, hi) && lo <= hi
    ensures Offers(es, lo, hi)
  {
  }

  /**
   * The multiplexer does stall, and the bound of StallsAreShort is reached: for a lane of weight w and items between
   * 2·w and S, there is a run after which (S - 1) / w rounds in a row pick nothing although the lane has something
   * queued. That is at least one.
   */
  lemma StallBoundReached(s: System, k: Lane, size: nat) returns (ds: seq<Event>, es: seq<Event>)
    requires Initial(s) && k != Signal && s.weights.Get(k) >= 1 && 2 * s.weights.Get(k) <= size
    ensures Possible(s, ds) && Possible(Ran(s, ds), es)
    ensures Offers(ds, 2 * s.weights.Get(k), size) && Offers(es, 2 * s.weights.Get(k), size)
    ensures AllStall(Ran(s, ds), es, k)
    ensures |Turns(Ran(s, ds), es)| == (size - 1) / s.weights.Get(k) >= 1
  {
    hide Possible;
    hide Ran;
    hide Turns;
    hide Stocked;
    hide Initial;
    hide AllStall;
    var w := s.weights.Get(k);
    ds := RunIntoDebt(s, k, size);
    Rounds(size, w);
    es := StallRun(Ran(s, ds), k, size, (size - 1) / w);
  }

  lemma Rounds(size: nat, w: nat)
    requires w >= 1 && 2 * w <= size
    ensures (size - 1) / w >= 1 && (size - 1) / w * w <= size - 1
  {
    var q := (size - 1) / w;
    assert size - 1 == q * w + (size - 1) % w;
  }
}
