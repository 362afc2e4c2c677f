/** The bucket in plain numbers: one visit, one rate change, whole runs and windows (scheduler/tokenbucket.go). */
module BucketLaws {
  import opened TokenBucket

  /** Bytes in ns nanoseconds at rate bytes a second. */
  function Worth(ns: int, rate: nat): real {
    ns as real * rate as real / 1000000000.0
  }

  lemma WorthIsEarned(ns: int, rate: nat)
    ensures Worth(ns, rate) == Earned(ns, rate) && Worth(0, rate) == 0.0
  {
    var x, r := ns as real, rate as real;
    assert x / 1000000000.0 * r == x * r / 1000000000.0;
  }

  lemma WorthAdds(a: int, b: int, rate: nat)
    ensures Worth(a, rate) + Worth(b, rate) == Worth(a + b, rate)
  {
    var x, y, r := a as real, b as real, rate as real;
    assert x * r + y * r == (x + y) * r;
  }

  /** What the bucket holds at time now, before the visit takes anything: it has filled at its rate, up to the burst. */
  function Full(s: State, now: int): real {
    var filled := s.tokens + Worth(now - s.last, s.rate);
    if filled > s.burst as real then s.burst as real else filled
  }

  /** One visit: first the bucket fills, up to the burst; then the bytes are taken, if they are there. */
  lemma VisitIs(s: State, n: int, now: int)
    ensures var (t, ok) := Allowed(s, n, now);
            if n <= 0 || s.disabled then t == s && ok
            else && (ok <==> n as real <= Full(s, now))
                 && t.tokens == Full(s, now) - (if ok then n as real else 0.0)
                 && t.last == now && t.rate == s.rate && t.burst == s.burst && !t.disabled
  {
    WorthIsEarned(now - s.last, s.rate);
    hide Worth;
    hide Earned;
  }

  /** A rate change: zero changes nothing; any other rate holds from now on, up or down, and may lift the burst. */
  lemma RateChangeIs(s: State, rate: nat)
    ensures var t := RateSet(s, rate);
            && t.rate == (if rate == 0 then s.rate else rate)
            && t.burst == (if rate == 0 || rate / 8 <= s.burst then s.burst else rate / 8)
            && t.tokens == s.tokens && t.last == s.last && t.disabled == s.disabled
  {
  }

  // ---------- between rate changes ----------

  ghost predicate NoRateChange(es: seq<Event>) {
    forall i :: 0 <= i < |es| ==> !es[i].SetRate?
  }

  /** What the visits have lost to the cap. */
  function Spilled(s: State, es: seq<Event>): real
    decreases |es|
  {
    if es == [] then 0.0
    else
      var t, e := After(s, es[..|es| - 1]), es[|es| - 1];
      Spilled(s, es[..|es| - 1])
      + (if Metered(t, e)
         then t.tokens + Worth(e.now - t.last, t.rate) - Full(t, e.now) else 0.0)
  }

  /**
   * Until the next rate change the bucket keeps its rate, and its account is exact: what it holds and has let
   * through is what it held, plus elapsed time times that rate, less what the cap cut off, which is never negative.
   */
  lemma {:induction false} AccruesAtRate(s: State, es: seq<Event>)
    requires NoRateChange(es)
    ensures var t := After(s, es);
            && t.rate == s.rate && t.burst == s.burst && Spilled(s, es) >= 0.0
            && t.tokens + TotalGranted(s, es) as real + Spilled(s, es)
               == s.tokens + Worth(t.last - s.last, s.rate)
    decreases |es|
  {
    WorthIsEarned(0, s.rate);
    hide Worth;
    hide Next;
    hide Granted;
    hide Full;
    if es != [] {
      var front, e := es[..|es| - 1], es[|es| - 1];
      AccruesAtRate(s, front);
      var t := After(s, front);
      AccrueStep(t, e);
      WorthAdds(t.last - s.last, Next(t, e).last - t.last, s.rate);
    }
  }

  lemma AccrueStep(t: State, e: Event)
    requires !e.SetRate?
    ensures var u := Next(t, e);
            var spilled := if Metered(t, e) then t.tokens + Worth(e.now - t.last, t.rate) - Full(t, e.now) else 0.0;
            && u.rate == t.rate && u.burst == t.burst && spilled >= 0.0
            && u.tokens + Granted(t, e) as real + spilled == t.tokens + Worth(u.last - t.last, t.rate)
  {
    WorthIsEarned(0, t.rate);
    hide Worth;
    if e.Allow? {
      VisitIs(t, e.n, e.now);
    }
    hide Allowed;
  }

  // ---------- every window that begins at a visit ----------

  /** At a visit the bucket cannot hand out more than the burst. */
  lemma FirstVisit(s: State, e: Event)
    requires ValidState(s) && Metered(s, e)
    ensures Next(s, e).tokens + Granted(s, e) as real <= s.burst as real && Next(s, e).last == e.now
  {
    VisitIs(s, e.n, e.now);
  }

  /**
   * Conformance over every window: from any visit on, what is let through, that visit included, is at most the burst
   * plus the highest rate times the time since that visit.
   */
  lemma {:induction false} WindowConforms(s: State, es: seq<Event>, top: nat)
    requires ValidState(s) && Paced(s, es, top) && es != [] && Metered(s, es[0])
    ensures var t := After(s, es);
            && ValidState(t) && t.rate <= top && t.last >= es[0].now
            && t.tokens + TotalGranted(s, es) as real
               <= s.burst as real + Worth(t.last - es[0].now, top)
    decreases |es|
  {
    hide Worth;
    hide Earned;
    hide Allowed;
    hide Accrued;
    hide ValidState;
    hide Granted;
    hide Next;
    var front, e := es[..|es| - 1], es[|es| - 1];
    var t := After(s, front);
    if front == [] {
      StepConforms(s, e, top);
      FirstVisit(s, e);
      WorthIsEarned(0, top);
      assert TotalGranted(s, es) == Granted(s, e);
    } else {
      WindowConforms(s, front, top);
      StepConforms(t, e, top);
      var d := Next(t, e).last - t.last;
      WorthIsEarned(d, top);
      EarnedMore(d, 0, top);
      WorthAdds(t.last - es[0].now, d, top);
    }
  }
}
