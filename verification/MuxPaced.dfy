/**
 * What pacing does to the share that a lane is delivered: with pacing off the share is safe; with pacing on, a lane can
 * be refused at every pick while another lane with the same claim is delivered (scheduler/scheduler.go).
 */
module MuxPaced {
  import opened Wrappers
  import opened Queues
  import opened Wfq
  import opened Mux
  import opened MuxRuns
  import opened MuxShare
  import opened MuxStarvation
  import opened Starvation
  import B = TokenBucket

  // ---------- pacing off ----------

  lemma NoRefusalStep(s: System, l: Log, e: Event)
    requires s.bucket.disabled && !s.drainer.Refused? && Enabled(s, e) && (e.SetDisabled? ==> e.off)
    ensures Next(s, e).bucket.disabled && !Next(s, e).drainer.Refused? && Recorded(s, l, e).putBacks == l.putBacks
  {
    hide Picked;
  }

  lemma {:induction false} NoRefusals(s: System, l: Log, es: seq<Event>)
    requires s.bucket.disabled && !s.drainer.Refused? && Possible(s, es) && SwitchKept(es, true)
    ensures Ran(s, es).bucket.disabled && !Ran(s, es).drainer.Refused? && Logged(s, l, es).putBacks == l.putBacks
    decreases |es|
  {
    hide Next;
    hide Recorded;
    hide Enabled;
    if es != [] {
      var front := es[..|es| - 1];
      NoRefusals(s, l, front);
      NoRefusalStep(Ran(s, front), Logged(s, l, front), es[|es| - 1]);
    }
  }

  /** With pacing kept off, the minimum share is delivered: nothing is refused. */
  lemma UnpacedDelivery(s: System, ds: seq<Event>, es: seq<Event>, k: Lane, lo: nat, hi: nat)
    requires Initial(s) && Possible(s, ds) && Possible(Ran(s, ds), es) && Offers(ds, lo, hi) && Offers(es, lo, hi)
    requires k != Signal && Queued(Ran(s, ds), es, k)
    requires s.bucket.disabled && SwitchKept(ds, true) && SwitchKept(es, true)
    ensures var n, w := |Turns(Ran(s, ds), es)|, s.weights;
            var l := Logged(s, NOTHING, ds);
            var delivered := DeliveredCost(Logged(Ran(s, ds), l, es), k) - DeliveredCost(l, k);
            && (SumW(w) <= lo ==> n * w.Get(k) <= 3 * SumW(w) + 2 * hi + delivered)
            && (1 <= MaxW(w) && 4 * MaxW(w) <= lo ==> n * w.Get(k) < 4 * MaxW(w) + 2 * hi + delivered)
  {
    hide Initial;
    hide Possible;
    hide Queued;
    hide SumW;
    hide MaxW;
    hide DeliveredCost;
    hide Taken;
    hide Offers;
    hide SwitchKept;
    hide Ran;
    hide Logged;
    hide Turns;
    MinimumDelivery(s, ds, es, k, lo, hi);
    InitialRests(s);
    NoRefusals(s, NOTHING, ds);
    NoRefusals(Ran(s, ds), Logged(s, NOTHING, ds), es);
  }

  lemma InitialRests(s: System)
    requires Initial(s)
    ensures s.drainer.Idle?
  {
  }

  // ---------- runs built event by event ----------

  /** The event takes nothing of k to the network and puts nothing of i back; at rounds both have something queued. */
  ghost predicate SparesOne(t: System, e: Event, i: Lane, k: Lane) {
    && (IsRound(t, e) ==> !t.qs.Get(i).Empty() && !t.qs.Get(k).Empty())
    && (e.Send? ==> t.drainer.Granted? && t.drainer.it.Lane() != k)
    && (e.PutBack? ==> t.drainer.Refused? && t.drainer.it.Lane() != i)
  }

  ghost predicate Spares(s: System, es: seq<Event>, i: Lane, k: Lane)
    decreases |es|
  {
    es == [] || (Spares(s, es[..|es| - 1], i, k) && SparesOne(Ran(s, es[..|es| - 1]), es[|es| - 1], i, k))
  }

  lemma {:induction false} SparesConcat(s: System, a: seq<Event>, b: seq<Event>, i: Lane, k: Lane)
    requires Possible(s, a) && Possible(Ran(s, a), b) && Spares(s, a, i, k) && Spares(Ran(s, a), b, i, k)
    ensures Spares(s, a + b, i, k)
    decreases |b|
  {
    hide Next;
    hide Enabled;
    hide SparesOne;
    if b == [] {
      assert a + b == a;
    } else {
      assert (a + b)[..|a + b| - 1] == a + b[..|b| - 1];
      SparesConcat(s, a, b[..|b| - 1], i, k);
      RunConcat(s, a, b[..|b| - 1]);
    }
  }

  lemma SparesStep(s: System, l: Log, e: Event, i: Lane, k: Lane)
    requires SparesOne(s, e, i, k)
    ensures Recorded(s, l, e).delivered.Get(k) == l.delivered.Get(k)
    ensures Recorded(s, l, e).putBacks.Get(i) == l.putBacks.Get(i)
  {
    hide IsRound;
  }

  lemma {:induction false} SparesMeans(s: System, l: Log, es: seq<Event>, i: Lane, k: Lane)
    requires Spares(s, es, i, k)
    ensures Queued(s, es, i) && Queued(s, es, k)
    ensures Logged(s, l, es).delivered.Get(k) == l.delivered.Get(k)
    ensures Logged(s, l, es).putBacks.Get(i) == l.putBacks.Get(i)
    decreases |es|
  {
    hide Next;
    hide Recorded;
    if es != [] {
      var front := es[..|es| - 1];
      SparesMeans(s, l, front, i, k);
      SparesStep(Ran(s, front), Logged(s, l, front), es[|es| - 1], i, k);
    }
  }

  /** A possible run from s, of items that cost c, that leaves the settings alone. */
  ghost predicate Plays(s: System, es: seq<Event>, c: nat) {
    Possible(s, es) && Offers(es, c, c) && Quiet(es)
  }

  lemma NoEvents(s: System, c: nat, i: Lane, k: Lane)
    ensures Plays(s, [], c) && Spares(s, [], i, k) && Ran(s, []) == s && Turns(s, []) == []
  {
  }

  lemma OneMoreEvent(s: System, es: seq<Event>, e: Event, c: nat, i: Lane, k: Lane)
    requires Plays(s, es, c) && Spares(s, es, i, k) && Enabled(Ran(s, es), e) && SparesOne(Ran(s, es), e, i, k)
    requires (e.Check? ==> ItemBetween(e.it, c, c)) && !e.SetDisabled? && !e.SetRate? && !e.Close?
    ensures Plays(s, es + [e], c) && Spares(s, es + [e], i, k) && Ran(s, es + [e]) == Next(Ran(s, es), e)
    ensures Turns(s, es + [e]) == Turns(s, es) + if IsRound(Ran(s, es), e) then [TurnOf(Ran(s, es))] else []
  {
    hide Next;
    hide Enabled;
    hide SparesOne;
    hide IsRound;
    OneEvent(s, es, e);
    assert (es + [e])[..|es + [e]| - 1] == es;
  }

  lemma PlaysBoth(s: System, a: seq<Event>, b: seq<Event>, c: nat, i: Lane, k: Lane)
    requires Plays(s, a, c) && Plays(Ran(s, a), b, c) && Spares(s, a, i, k) && Spares(Ran(s, a), b, i, k)
    ensures Plays(s, a + b, c) && Spares(s, a + b, i, k)
    ensures Ran(s, a + b) == Ran(Ran(s, a), b) && Turns(s, a + b) == Turns(s, a) + Turns(Ran(s, a), b)
  {
    hide Possible;
    hide Ran;
    hide Spares;
    hide Turns;
    RunConcat(s, a, b);
    SparesConcat(s, a, b, i, k);
    QuietBoth(a, b);
    hide Quiet;
    hide Offers;
  }

  // ---------- pacing on: one lane always refused ----------

  /** The bucket is on, holds less than one item of c bytes, and can grant one. */
  ghost predicate Short(b: B.State, c: nat) {
    && B.ValidState(b) && !b.disabled
    && b.tokens < c as real && c <= b.burst && b.rate < c * 1_000_000_000
  }

  /** Lanes i and k have one item of c bytes each, the others nothing, and the bucket is short. */
  ghost predicate Contended(s: System, i: Lane, k: Lane, c: nat) {
    Stocked(s, Pair(i, k), c) && Short(s.bucket, c)
  }

  /** At the same instant, the bucket refuses again. */
  lemma StillShort(b: B.State, c: nat)
    requires Short(b, c) && c >= 1
    ensures B.Allowed(b, c, b.last) == (b, false)
  {
    B.NothingAccrues(b);
    hide B.Refilled;
  }

  /** k was picked: refused on the spot, and put back. */
  lemma RefuseIt(t: System, have: PerLane<bool>, i: Lane, k: Lane, c: nat) returns (es: seq<Event>)
    requires t.drainer == Holding(Sample(k, c)) && Stocked(t.(drainer := Idle), have, c)
    requires !have.Get(k) && i != k && k != Signal && Short(t.bucket, c) && c >= 1
    ensures Plays(t, es, c) && Spares(t, es, i, k) && Turns(t, es) == []
    ensures var u := Ran(t, es); Stocked(u, have.Set(k, true), c) && u.bucket == t.bucket && u.weights == t.weights
  {
    StillShort(t.bucket, c);
    hide B.Allowed;
    hide Short;
    hide Plays;
    hide Spares;
    hide Ran;
    hide Turns;
    var d := Decide(t.bucket.last);
    NoEvents(t, c, i, k);
    OneMoreEvent(t, [], d, c, i, k);
    var u := Next(t, d);
    assert u == t.(drainer := Refused(Sample(k, c)));
    PutBackStocked(u, have, k, c);
    hide Stocked;
    OneMoreEvent(t, [] + [d], PutBack, c, i, k);
    es := [] + [d] + [PutBack];
  }

  lemma PutBackStocked(u: System, have: PerLane<bool>, k: Lane, c: nat)
    requires u.drainer == Refused(Sample(k, c)) && Stocked(u.(drainer := Idle), have, c) && !have.Get(k) && k != Signal
    ensures var v := Next(u, PutBack);
            Stocked(v, have.Set(k, true), c) && v.bucket == u.bucket && v.weights == u.weights
  {
    assert u.qs.Get(k).items == [] && [Sample(k, c)] + [] == [Sample(k, c)];
  }

  /** i was picked: sent as soon as the bucket allows it, and another one is queued. */
  lemma GrantIt(t: System, have: PerLane<bool>, i: Lane, k: Lane, c: nat) returns (es: seq<Event>)
    requires t.drainer == Holding(Sample(i, c)) && Stocked(t.(drainer := Idle), have, c)
    requires !have.Get(i) && i != k && i != Signal && Short(t.bucket, c) && c >= 1
    ensures Plays(t, es, c) && Spares(t, es, i, k) && Turns(t, es) == []
    ensures var u := Ran(t, es); Stocked(u, have.Set(i, true), c) && Short(u.bucket, c) && u.weights == t.weights
  {
    hide Plays;
    hide Spares;
    hide Ran;
    hide Turns;
    es := SendSoon(t, i, k, c);
    var u := Ran(t, es);
    SentStill(t, u, have, c);
    hide Stocked;
    hide Short;
    var more := Restock(u, have, i, c);
    CheckAndInsert(u, more, i, k);
    RestockPlays(u, more, c);
    PlaysBoth(t, es, more, c, i, k);
    es := es + more;
  }

  lemma RestockPlays(s: System, es: seq<Event>, c: nat)
    requires Possible(s, es) && Offers(es, c, c) && Quiet(es)
    ensures Plays(s, es, c)
  {
  }

  lemma SentStill(t: System, u: System, have: PerLane<bool>, c: nat)
    requires Stocked(t.(drainer := Idle), have, c) && u == t.(bucket := u.bucket, drainer := Idle, sent := u.sent)
    ensures Stocked(u, have, c)
  {
  }

  lemma CheckAndInsert(s: System, es: seq<Event>, i: Lane, k: Lane)
    requires |es| == 2 && es[0].Check? && es[1].Insert?
    ensures Spares(s, es, i, k)
  {
    assert es[..1][..0] == [];
    assert Spares(s, es[..1], i, k);
    hide Next;
  }

  lemma SendSoon(t: System, i: Lane, k: Lane, c: nat) returns (es: seq<Event>)
    requires t.drainer == Holding(Sample(i, c)) && i != k && Short(t.bucket, c) && c >= 1
    ensures Plays(t, es, c) && Spares(t, es, i, k) && Turns(t, es) == []
    ensures var u := Ran(t, es); u == t.(bucket := u.bucket, drainer := Idle, sent := u.sent) && Short(u.bucket, c)
  {
    var now := t.bucket.last + B.WaitFor(t.bucket, c) + 1;
    B.GrantAsSoon(t.bucket, c);
    var b := B.Allowed(t.bucket, c, now).0;
    assert Short(b, c);
    es := SendAt(t, now, c, i, k);
  }

  /** Granted at time now, and sent. */
  lemma SendAt(t: System, now: int, c: nat, i: Lane, k: Lane) returns (es: seq<Event>)
    requires t.drainer.Holding? && t.drainer.it.Lane() != k && now >= t.bucket.last
    requires B.Allowed(t.bucket, t.drainer.it.Size(), now).1
    ensures Plays(t, es, c) && Spares(t, es, i, k) && Turns(t, es) == []
    ensures Ran(t, es) == t.(bucket := B.Allowed(t.bucket, t.drainer.it.Size(), now).0, drainer := Idle,
                             sent := t.sent + 1)
  {
    hide B.Allowed;
    hide Plays;
    hide Spares;
    hide Ran;
    hide Turns;
    NoEvents(t, c, i, k);
    OneMoreEvent(t, [], Decide(now), c, i, k);
    OneMoreEvent(t, [] + [Decide(now)], Send(true), c, i, k);
    OneMoreEvent(t, [] + [Decide(now)] + [Send(true)], CountSend, c, i, k);
    es := [] + [Decide(now)] + [Send(true)] + [CountSend];
  }

  const NOBODY: PerLane<bool> := PerLane(false, false, false, false, false)

  /** One round: i is delivered if it is its turn, k is refused if it is its, and all is as before. */
  lemma PacedRound(s: System, i: Lane, k: Lane, c: nat) returns (es: seq<Event>)
    requires Contended(s, i, k, c) && i != k && i != Signal && k != Signal && c >= 1
    ensures Plays(s, es, c) && Spares(s, es, i, k) && |Turns(s, es)| == 1
    ensures Contended(Ran(s, es), i, k, c) && Ran(s, es).weights == s.weights
  {
    hide Plays;
    hide Spares;
    hide Ran;
    hide Turns;
    hide Short;
    var b := Pair(i, k);
    PairHas(i, k);
    var t, served := PickOne(s, i, k, c);
    hide Pair;
    hide Stocked;
    NoEvents(s, c, i, k);
    OneMoreEvent(s, [], Pick, c, i, k);
    hide Next;
    es := [] + [Pick];
    if served == None {
    } else if served == Some(k) {
      var more := RefuseIt(t, b.Set(k, false), i, k, c);
      PlaysBoth(s, es, more, c, i, k);
      es := es + more;
      SetBack(b, k);
    } else {
      var more := GrantIt(t, b.Set(i, false), i, k, c);
      PlaysBoth(s, es, more, c, i, k);
      es := es + more;
      SetBack(b, i);
    }
  }

  lemma PairHas(i: Lane, k: Lane)
    requires i != Signal && k != Signal
    ensures forall l: Lane :: Pair(i, k).Get(l) <==> l == i || l == k
    ensures Busy(Pair(i, k)) && !Pair(i, k).signal
  {
  }

  lemma SetBack(b: PerLane<bool>, l: Lane)
    requires b.Get(l)
    ensures b.Set(l, false).Set(l, true) == b
  {
  }

  lemma PickOne(s: System, i: Lane, k: Lane, c: nat) returns (t: System, served: Option<Lane>)
    requires Contended(s, i, k, c) && i != k && i != Signal && k != Signal && c >= 1
    ensures t == Next(s, Pick) && IsRound(s, Pick) && Enabled(s, Pick) && SparesOne(s, Pick, i, k)
    ensures t.bucket == s.bucket && t.weights == s.weights
    ensures served == None ==> Stocked(t, Pair(i, k), c)
    ensures served.Some? ==>
              && (served == Some(i) || served == Some(k))
              && t.drainer == Holding(Sample(served.value, c))
              && Stocked(t.(drainer := Idle), Pair(i, k).Set(served.value, false), c)
  {
    var p, b := Standing(s.credit, NOBODY), Pair(i, k);
    hide Short;
    PairHas(i, k);
    hide Pair;
    hide Round;
    PickTurn(s, p, b, c);
    FollowsMirrors(s, p, b, c);
    PickOutcome(s, p);
    RoundIsTurn(s, p);
    hide Next;
    t, served := Next(s, Pick), Served(p, s.weights, EvenTurn(b, c));
    hide Mirrors;
    hide Follows;
    if served == None {
      assert t.(drainer := Idle) == t;
    }
  }

  lemma {:induction false} PacedRounds(s: System, i: Lane, k: Lane, c: nat, n: nat) returns (es: seq<Event>)
    requires Contended(s, i, k, c) && i != k && i != Signal && k != Signal && c >= 1
    ensures Plays(s, es, c) && Spares(s, es, i, k) && |Turns(s, es)| == n
    ensures Contended(Ran(s, es), i, k, c) && Ran(s, es).weights == s.weights
    decreases n
  {
    hide Plays;
    hide Spares;
    hide Ran;
    hide Turns;
    hide Contended;
    if n == 0 {
      es := [];
      NoEvents(s, c, i, k);
    } else {
      es := PacedRounds(s, i, k, c, n - 1);
      var more := PacedRound(Ran(s, es), i, k, c);
      PlaysBoth(s, es, more, c, i, k);
      es := es + more;
    }
  }

  // ---------- how such a state comes about ----------

  /** At one instant, a signal of c bytes takes c tokens. */
  lemma SpendOne(s: System, c: nat) returns (es: seq<Event>)
    requires Stocked(s, NOBODY, c) && B.ValidState(s.bucket) && !s.bucket.disabled
    requires c >= 1 && s.bucket.tokens >= c as real
    ensures Plays(s, es, c) && Spares(s, es, Audio, Audio)
    ensures var u := Ran(s, es);
            && Stocked(u, NOBODY, c) && u.weights == s.weights
            && u.bucket == s.bucket.(tokens := s.bucket.tokens - c as real)
  {
    hide Plays;
    hide Spares;
    hide Ran;
    hide Turns;
    SpentAtOnce(s.bucket, c);
    hide B.Allowed;
    hide B.ValidState;
    var t;
    es, t := SignalPicked(s, c);
    var more := SendAt(t, s.bucket.last, c, Audio, Audio);
    PlaysBoth(s, es, more, c, Audio, Audio);
    es := es + more;
    EmptyAgain(s, t, Ran(t, more), c);
  }

  lemma SpentAtOnce(b: B.State, c: nat)
    requires B.ValidState(b) && !b.disabled && b.tokens >= c as real && c >= 1
    ensures B.Allowed(b, c, b.last) == (b.(tokens := b.tokens - c as real), true)
  {
    B.NothingAccrues(b);
    hide B.Refilled;
  }

  lemma EmptyAgain(s: System, t: System, u: System, c: nat)
    requires Stocked(s, NOBODY, c)
    requires t == s.(qs := t.qs, drainer := t.drainer) && t.qs == s.qs.(signal := t.qs.signal)
    requires t.qs.signal.items == [] && t.qs.signal.cap == s.qs.signal.cap
    requires u == t.(bucket := u.bucket, drainer := Idle, sent := u.sent)
    ensures Stocked(u, NOBODY, c)
  {
    forall l: Lane ensures u.qs.Get(l).cap >= 1 && u.qs.Get(l).items == [] {
      assert s.qs.Get(l).cap >= 1 && s.qs.Get(l).items == [];
      assert l != Signal ==> u.qs.Get(l) == s.qs.Get(l);
    }
  }

  lemma SignalPicked(s: System, c: nat) returns (es: seq<Event>, t: System)
    requires Stocked(s, NOBODY, c) && c >= 1
    ensures Plays(s, es, c) && Spares(s, es, Audio, Audio) && t == Ran(s, es)
    ensures t.drainer == Holding(Sample(Signal, c)) && t.bucket == s.bucket && t.weights == s.weights
    ensures t == s.(qs := t.qs, drainer := t.drainer) && t.qs == s.qs.(signal := t.qs.signal)
    ensures t.qs.signal.items == [] && t.qs.signal.cap == s.qs.signal.cap
  {
    hide Plays;
    hide Spares;
    hide Ran;
    hide Turns;
    hide Round;
    var it := Sample(Signal, c);
    assert s.qs.Get(Signal).items == [] && s.qs.Get(Signal).cap >= 1;
    hide Stocked;
    assert multiset{} + multiset{it} - multiset{it} == multiset{};
    NoEvents(s, c, Audio, Audio);
    OneMoreEvent(s, [], Check(it), c, Audio, Audio);
    OneMoreEvent(s, [] + [Check(it)], Insert(it), c, Audio, Audio);
    es := [] + [Check(it)] + [Insert(it)];
    var q := Ran(s, es);
    assert [] + [it] == [it] && [it][1..] == [];
    OneMoreEvent(s, es, Pick, c, Audio, Audio);
    es := es + [Pick];
    t := Ran(s, es);
  }

  lemma {:induction false} SpendAll(s: System, c: nat) returns (es: seq<Event>)
    requires Stocked(s, NOBODY, c) && c >= 1
    requires B.ValidState(s.bucket) && !s.bucket.disabled && c <= s.bucket.burst && s.bucket.rate < c * 1_000_000_000
    ensures Plays(s, es, c) && Spares(s, es, Audio, Audio)
    ensures var u := Ran(s, es); Stocked(u, NOBODY, c) && u.weights == s.weights && Short(u.bucket, c)
    decreases s.bucket.tokens.Floor
  {
    hide Plays;
    hide Spares;
    hide Ran;
    hide Turns;
    hide Stocked;
    if s.bucket.tokens < c as real {
      es := [];
      NoEvents(s, c, Audio, Audio);
    } else {
      es := SpendOne(s, c);
      var more := SpendAll(Ran(s, es), c);
      PlaysBoth(s, es, more, c, Audio, Audio);
      es := es + more;
    }
  }

  lemma Prepare(s: System, i: Lane, k: Lane, c: nat) returns (ds: seq<Event>)
    requires Stocked(s, NOBODY, c) && i != k && i != Signal && k != Signal && c >= 1
    requires B.ValidState(s.bucket) && !s.bucket.disabled && c <= s.bucket.burst && s.bucket.rate < c * 1_000_000_000
    ensures Plays(s, ds, c) && Contended(Ran(s, ds), i, k, c) && Ran(s, ds).weights == s.weights
  {
    hide Ran;
    hide Turns;
    hide Stocked;
    hide Possible;
    hide Offers;
    hide Quiet;
    hide Short;
    ds := SpendAll(s, c);
    var one := Restock(Ran(s, ds), NOBODY, i, c);
    RunConcat(s, ds, one);
    QuietBoth(ds, one);
    ds := ds + one;
    PairHas(i, k);
    var two := Restock(Ran(s, ds), NOBODY.Set(i, true), k, c);
    RunConcat(s, ds, two);
    QuietBoth(ds, two);
    ds := ds + two;
  }

  /**
   * Refused for ever. With pacing on, at a rate of less than one item a nanosecond, and items of any size c up to the
   * burst, take any two lanes i and k. For every n there is a run after which, over n rounds, both always
   * have something queued; nothing of k is delivered; and nothing of i is refused, so that i is delivered its full
   * minimum share. Nobody touches the bucket's settings.
   */
  lemma PacedStarves(s: System, i: Lane, k: Lane, c: nat, n: nat) returns (ds: seq<Event>, es: seq<Event>)
    requires Initial(s) && i != k && i != Signal && k != Signal
    requires !s.bucket.disabled && 1 <= c <= s.bucket.burst && s.bucket.rate < c * 1_000_000_000
    ensures Plays(s, ds, c) && Plays(Ran(s, ds), es, c) && |Turns(Ran(s, ds), es)| == n
    ensures Queued(Ran(s, ds), es, i) && Queued(Ran(s, ds), es, k)
    ensures var l := Logged(s, NOTHING, ds); var m := Logged(Ran(s, ds), l, es);
            && m.delivered.Get(k) == l.delivered.Get(k) && Refusals(l, m, i) == 0
            && (SumW(s.weights) <= c ==>
                  n * s.weights.Get(i) <= 3 * SumW(s.weights) + DeliveredCost(m, i) - DeliveredCost(l, i) + 2 * c)
  {
    InitialStocked(s, c);
    ds := Prepare(s, i, k, c);
    es := PacedRounds(Ran(s, ds), i, k, c, n);
    var l := Logged(s, NOTHING, ds);
    SparesMeans(Ran(s, ds), l, es, i, k);
    hide Initial;
    hide Ran;
    hide Turns;
    hide Logged;
    hide Possible;
    hide Offers;
    hide Queued;
    hide Spares;
    hide SumW;
    hide MaxW;
    hide DeliveredCost;
    hide Contended;
    MinimumDelivery(s, ds, es, i, c, c);
  }

  lemma InitialStocked(s: System, c: nat)
    requires Initial(s)
    ensures Stocked(s, NOBODY, c) && B.ValidState(s.bucket)
  {
    forall l: Lane ensures s.qs.Get(l).cap >= 1 && s.qs.Get(l).items == [] {
      assert FreshQueue(s.qs.Get(l));
    }
  }

  // ---------- the exact condition ----------

  /**
   * After history ds, lane k has something queued at every round of es and is delivered nothing; the switch
   * stays as it was.
   */
  ghost predicate Undelivered(s: System, ds: seq<Event>, es: seq<Event>, k: Lane, lo: int, hi: int) {
    && k != Signal && Possible(s, ds) && Possible(Ran(s, ds), es) && Offers(ds, lo, hi) && Offers(es, lo, hi)
    && SwitchKept(ds, s.bucket.disabled) && SwitchKept(es, s.bucket.disabled)
    && Queued(Ran(s, ds), es, k)
    && var l := Logged(s, NOTHING, ds); DeliveredCost(Logged(Ran(s, ds), l, es), k) == DeliveredCost(l, k)
  }

  ghost predicate UndeliveredAtMost(s: System, lo: int, hi: int, n: nat) {
    forall ds, es, k: Lane :: Undelivered(s, ds, es, k, lo, hi) ==> |Turns(Ran(s, ds), es)| <= n
  }

  /**
   * Exactly when every lane with something queued is delivered something within a bounded number of rounds, over
   * all runs that leave the switch alone: pacing is off, all weights are positive, and the smallest item has at least
   * as many bytes as they add up to.
   */
  lemma DeliveryIff(s: System, lo: nat, hi: nat)
    requires Initial(s) && 1 <= lo <= hi
    ensures (exists n :: UndeliveredAtMost(s, lo, hi, n)) <==>
              s.bucket.disabled && AllPositive(s.weights) && SumW(s.weights) <= lo
  {
    if s.bucket.disabled && AllPositive(s.weights) && SumW(s.weights) <= lo {
      forall ds, es, k: Lane | Undelivered(s, ds, es, k, lo, hi)
        ensures |Turns(Ran(s, ds), es)| <= 3 * SumW(s.weights) + 2 * hi
      {
        DeliveredSoon(s, ds, es, k, lo, hi);
      }
      hide Undelivered;
      assert UndeliveredAtMost(s, lo, hi, 3 * SumW(s.weights) + 2 * hi);
    } else {
      forall n: nat ensures !UndeliveredAtMost(s, lo, hi, n) {
        var ds, es, k;
        if s.bucket.disabled {
          ds, es, k := UnpacedWait(s, lo, hi, n + 1);
        } else {
          k := Video;
          ds, es := PacedWait(s, lo, hi, n + 1);
        }
        hide Undelivered;
        assert |Turns(Ran(s, ds), es)| == n + 1;
      }
    }
  }

  lemma DeliveredSoon(s: System, ds: seq<Event>, es: seq<Event>, k: Lane, lo: nat, hi: nat)
    requires Initial(s) && Undelivered(s, ds, es, k, lo, hi)
    requires s.bucket.disabled && AllPositive(s.weights) && SumW(s.weights) <= lo
    ensures |Turns(Ran(s, ds), es)| <= 3 * SumW(s.weights) + 2 * hi
  {
    UnpacedDelivery(s, ds, es, k, lo, hi);
    Product(|Turns(Ran(s, ds), es)|, 1, s.weights.Get(k));
    hide Initial;
    hide Possible;
    hide Queued;
    hide SumW;
    hide MaxW;
    hide DeliveredCost;
  }

  /** A lane that no round takes from is delivered nothing, if nothing of it was in hand. */
  lemma {:induction false} OverlookedTakesNothing(s: System, es: seq<Event>, k: Lane)
    requires Overlooked(s, es, k)
    ensures Queued(s, es, k) && Taken(s, es, k) == 0
    decreases |es|
  {
    hide Next;
    hide IsRound;
    if es != [] {
      OverlookedTakesNothing(s, es[..|es| - 1], k);
    }
  }

  lemma UnpacedWait(s: System, lo: nat, hi: nat, n: nat) returns (ds: seq<Event>, es: seq<Event>, k: Lane)
    requires Initial(s) && 1 <= lo <= hi && s.bucket.disabled
    requires !(AllPositive(s.weights) && SumW(s.weights) <= lo)
    ensures Undelivered(s, ds, es, k, lo, hi) && |Turns(Ran(s, ds), es)| == n
  {
    hide AllPositive;
    hide SumW;
    ds, es, k := LongMuxWait(s, lo, hi, n);
    InitialInv(s);
    hide Initial;
    hide Inv;
    hide Possible;
    hide Offers;
    hide Overlooked;
    hide Turns;
    hide SwitchKept;
    RunKeepsInv(s, NOTHING, ds);
    var t, l := Ran(s, ds), Logged(s, NOTHING, ds);
    OverlookedTakesNothing(t, es, k);
    RunSettled(t, l, es, k);
    hide Ran;
    hide Logged;
    hide Taken;
    NoCost();
    hide TotalCost;
    DeliveredOnlyMore(t, l, es, k);
  }

  lemma {:induction false} DeliveredOnlyMore(s: System, l: Log, es: seq<Event>, k: Lane)
    ensures DeliveredCost(Logged(s, l, es), k) >= DeliveredCost(l, k)
    decreases |es|
  {
    hide TotalCost;
    hide Ran;
    if es != [] {
      var front, e := es[..|es| - 1], es[|es| - 1];
      DeliveredOnlyMore(s, l, front, k);
      var t := Ran(s, front);
      if e.Send? && t.drainer.Granted? {
        CostOfOne(Logged(s, l, front).delivered.Get(k), t.drainer.it);
      }
    }
  }

  lemma {:induction false} LogConcat(s: System, l: Log, a: seq<Event>, b: seq<Event>)
    requires Possible(s, a) && Possible(Ran(s, a), b)
    ensures Logged(s, l, a + b) == Logged(Ran(s, a), Logged(s, l, a), b)
    decreases |b|
  {
    hide Next;
    hide Enabled;
    hide Recorded;
    if b == [] {
      assert a + b == a;
    } else {
      assert (a + b)[..|a + b| - 1] == a + b[..|b| - 1];
      LogConcat(s, l, a, b[..|b| - 1]);
      RunConcat(s, a, b[..|b| - 1]);
    }
  }

  /** Whatever the burst and the rate, a rate set before can make them fit. */
  lemma PacedWait(s: System, lo: nat, hi: nat, n: nat) returns (ds: seq<Event>, es: seq<Event>)
    requires Initial(s) && 1 <= lo <= hi && !s.bucket.disabled
    ensures Undelivered(s, ds, es, Video, lo, hi) && |Turns(Ran(s, ds), es)| == n
  {
    var first: seq<Event> :=
      if lo <= s.bucket.burst && s.bucket.rate < lo * 1_000_000_000 then [] else [SetRate(8 * lo)];
    FirstFits(s, first, lo);
    var t := Ran(s, first);
    hide Initial;
    hide Turns;
    hide Ran;
    hide Logged;
    hide Queued;
    hide Possible;
    hide DeliveredCost;
    hide Refusals;
    hide SumW;
    var more;
    more, es := PacedStarves(t, Audio, Video, lo, n);
    RunConcat(s, first, more);
    LogConcat(s, NOTHING, first, more);
    ds := first + more;
    OffersBoth(first, more, es, s.bucket.disabled, lo, hi);
    SameDelivered(Logged(t, NOTHING, more), Logged(Ran(t, more), Logged(t, NOTHING, more), es), Video);
  }

  lemma SameDelivered(l: Log, m: Log, k: Lane)
    requires m.delivered.Get(k) == l.delivered.Get(k)
    ensures DeliveredCost(m, k) == DeliveredCost(l, k)
  {
  }

  lemma OffersBoth(first: seq<Event>, more: seq<Event>, es: seq<Event>, off: bool, lo: nat, hi: nat)
    requires first == [] || first == [SetRate(8 * lo)]
    requires Offers(more, lo, lo) && Offers(es, lo, lo) && Quiet(more) && Quiet(es) && lo <= hi
    ensures Offers(first + more, lo, hi) && Offers(es, lo, hi)
    ensures SwitchKept(first + more, off) && SwitchKept(es, off)
  {
  }

  lemma FirstFits(s: System, first: seq<Event>, c: nat)
    requires Initial(s) && c >= 1 && !s.bucket.disabled
    requires first == if c <= s.bucket.burst && s.bucket.rate < c * 1_000_000_000 then [] else [SetRate(8 * c)]
    ensures Possible(s, first) && Logged(s, NOTHING, first) == NOTHING
    ensures var t := Ran(s, first);
            && Initial(t) && t.weights == s.weights
            && !t.bucket.disabled && c <= t.bucket.burst && t.bucket.rate < c * 1_000_000_000
  {
    if first != [] {
      var e := SetRate(8 * c);
      OneEvent(s, [], e);
      assert [] + [e] == [e] && [e][..0] == [];
      var t := Next(s, e);
      forall k: Lane ensures FreshQueue(t.qs.Get(k)) {
        assert FreshQueue(s.qs.Get(k));
      }
    }
  }
}
