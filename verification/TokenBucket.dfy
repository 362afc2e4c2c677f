/** The byte-oriented token bucket: scheduler/tokenbucket.go. Times are nanosecond counts, tokens exact reals. */
module TokenBucket {
  datatype State = State(rate: nat, burst: nat, tokens: real, last: int, disabled: bool)

  ghost predicate ValidState(s: State) {
    s.rate >= 1 && s.burst >= 1 && 0.0 <= s.tokens <= s.burst as real
  }

  function Seconds(ns: int): real {
    ns as real / 1000000000.0
  }

  function Earned(ns: int, rate: nat): real {
    Seconds(ns) * rate as real
  }

  /** What accrues between the last visit and now. */
  function Accrued(s: State, now: int): real {
    Earned(now - s.last, s.rate)
  }

  function Refilled(s: State, now: int): State {
    var full := s.tokens + Accrued(s, now);
    s.(last := now, tokens := if full > s.burst as real then s.burst as real else full)
  }

  function Allowed(s: State, n: int, now: int): (State, bool) {
    if n <= 0 || s.disabled then (s, true)
    else
      var r := Refilled(s, now);
      if r.tokens >= n as real then (r.(tokens := r.tokens - n as real), true) else (r, false)
  }

  function RateSet(s: State, rate: nat): State {
    if rate == 0 then s
    else s.(rate := rate, burst := if s.burst < rate / 8 then rate / 8 else s.burst)
  }

  function WaitFor(s: State, n: int): int
    requires s.rate >= 1
  {
    if s.disabled || s.tokens >= n as real then 0
    else ((n as real - s.tokens) / s.rate as real * 1000000000.0).Floor
  }

  class Bucket {
    var rate: nat
    var burst: nat
    var tokens: real
    var last: int
    var disabled: bool

    function Value(): State
      reads this
    {
      State(rate, burst, tokens, last, disabled)
    }

    ghost predicate Valid()
      reads this
    {
      ValidState(Value())
    }

    /** NewBucket: starts full. */
    constructor (rate: nat, burst: nat, now: int)
      ensures Valid() && last == now && !disabled && tokens == this.burst as real
      ensures this.rate == if rate == 0 then 65536 else rate
      ensures burst != 0 ==> this.burst == burst
      ensures burst == 0 ==> this.burst >= 8192 && this.burst >= this.rate / 4
                             && (this.burst == 8192 || this.burst == this.rate / 4)
    {
      var r := if rate == 0 then 65536 else rate;
      var b := burst;
      if b == 0 {
        b := r / 4;
        if b < 8192 {
          b := 8192;
        }
      }
      this.rate, this.burst, this.tokens, this.last, this.disabled := r, b, b as real, now, false;
    }

    method SetRate(rate: nat)
      requires Valid()
      modifies this
      ensures Valid() && Value() == RateSet(old(Value()), rate)
    {
      if rate == 0 {
        return;
      }
      this.rate := rate;
      if this.burst < rate / 8 {
        this.burst := rate / 8;
      }
    }

    method SetDisabled(off: bool)
      modifies this
      ensures Value() == old(Value()).(disabled := off)
    {
      disabled := off;
    }

    /** The clock never runs backwards. */
    method Allow(n: int, now: int) returns (ok: bool)
      requires Valid() && now >= last
      modifies this
      ensures Valid() && (Value(), ok) == Allowed(old(Value()), n, now)
    {
      if n <= 0 {
        return true;
      }
      if disabled {
        return true;
      }
      AccruedNonNegative(Value(), now);
      var earned := Earned(now - last, rate);
      hide Earned;
      last := now;
      tokens := tokens + earned;
      if tokens > burst as real {
        tokens := burst as real;
      }
      var need := n as real;
      if tokens >= need {
        tokens := tokens - need;
        return true;
      }
      return false;
    }

    method WaitNs(n: int) returns (wait: int)
      requires Valid()
      ensures wait == WaitFor(Value(), n)
    {
      if disabled || tokens >= n as real {
        return 0;
      }
      var deficit := n as real - tokens;
      var sec := deficit / rate as real;
      wait := (sec * 1000000000.0).Floor;
    }
  }

  lemma AccruedNonNegative(s: State, now: int)
    requires now >= s.last
    ensures Accrued(s, now) >= 0.0
  {
    EarnedMore(now - s.last, 0, s.rate);
  }

  lemma EarnedMore(ns: int, slow: nat, fast: nat)
    requires ns >= 0 && slow <= fast
    ensures 0.0 <= Earned(ns, slow) <= Earned(ns, fast)
  {
    var t := Seconds(ns);
    assert t >= 0.0;
    assert t * slow as real <= t * fast as real;
  }

  lemma EarnedAdds(a: int, b: int, rate: nat)
    ensures Earned(a, rate) + Earned(b, rate) == Earned(a + b, rate)
  {
    assert Seconds(a + b) == Seconds(a) + Seconds(b);
  }

  // ---------- runs: allowances, rate changes and switching off and on ----------

  datatype Event = Allow(n: int, now: int) | SetRate(rate: nat) | SetDisabled(off: bool)

  function Next(s: State, e: Event): State {
    match e
    case Allow(n, now) => Allowed(s, n, now).0
    case SetRate(rate) => RateSet(s, rate)
    case SetDisabled(off) => s.(disabled := off)
  }

  function After(s: State, es: seq<Event>): State
    decreases |es|
  {
    if es == [] then s else Next(After(s, es[..|es| - 1]), es[|es| - 1])
  }

  predicate Metered(s: State, e: Event) {
    e.Allow? && e.n > 0 && !s.disabled
  }

  /** The bytes the event lets through the enabled bucket. */
  function Granted(s: State, e: Event): int {
    if Metered(s, e) && Allowed(s, e.n, e.now).1 then e.n else 0
  }

  function TotalGranted(s: State, es: seq<Event>): int
    decreases |es|
  {
    if es == [] then 0
    else TotalGranted(s, es[..|es| - 1]) + Granted(After(s, es[..|es| - 1]), es[|es| - 1])
  }

  /** Elapsed time × rate, summed over the metered visits. */
  function TotalAccrued(s: State, es: seq<Event>): real
    decreases |es|
  {
    if es == [] then 0.0
    else
      var t := After(s, es[..|es| - 1]);
      var e := es[|es| - 1];
      TotalAccrued(s, es[..|es| - 1]) + (if Metered(t, e) then Accrued(t, e.now) else 0.0)
  }

  /** Time does not run backwards from one metered visit to the next, and rates stay at most top. */
  ghost predicate Paced(s: State, es: seq<Event>, top: nat)
    decreases |es|
  {
    && s.rate <= top
    && (es == [] ||
        (&& Paced(s, es[..|es| - 1], top)
         && (es[|es| - 1].SetRate? ==> es[|es| - 1].rate <= top)
         && (es[|es| - 1].Allow? ==> After(s, es[..|es| - 1]).last <= es[|es| - 1].now)))
  }

  lemma StepConforms(t: State, e: Event, top: nat)
    requires ValidState(t) && t.rate <= top
    requires e.Allow? ==> t.last <= e.now
    requires e.SetRate? ==> e.rate <= top
    ensures var u := Next(t, e);
            && ValidState(u) && u.burst >= t.burst && u.rate <= top && u.last >= t.last
            && u.tokens + Granted(t, e) as real <= t.tokens + (if Metered(t, e) then Accrued(t, e.now) else 0.0)
            && (Metered(t, e) ==> Accrued(t, e.now) <= Earned(u.last - t.last, top))
  {
    if Metered(t, e) {
      AccruedNonNegative(t, e.now);
      EarnedMore(e.now - t.last, t.rate, top);
    }
  }

  /**
   * Conformance. Over any run of a reachable bucket, the tokens stay within [0, burst]; what the enabled bucket has
   * let through is at most what it held at the start plus elapsed time × rate at each visit; and so at most
   * the starting burst plus the highest rate times the time from the first to the last visit.
   */
  lemma {:induction false} BucketConforms(s: State, es: seq<Event>, top: nat)
    requires ValidState(s) && Paced(s, es, top)
    ensures var t := After(s, es);
            && ValidState(t) && t.rate <= top && t.burst >= s.burst && t.last >= s.last
            && t.tokens + TotalGranted(s, es) as real <= s.tokens + TotalAccrued(s, es)
            && TotalAccrued(s, es) <= Earned(t.last - s.last, top)
            && TotalGranted(s, es) as real <= s.burst as real + Earned(t.last - s.last, top)
    decreases |es|
  {
    EarnedMore(0, 0, top);
    if es == [] {
      assert Earned(0, top) == 0.0;
    } else {
      var front, e := es[..|es| - 1], es[|es| - 1];
      BucketConforms(s, front, top);
      var t := After(s, front);
      StepConforms(t, e, top);
      var u := Next(t, e);
      EarnedAdds(u.last - t.last, t.last - s.last, top);
      EarnedMore(u.last - t.last, 0, top);
      hide Earned;
      hide Allowed;
      hide Next;
      hide Accrued;
    }
  }

  /** Between two visits only the rate, the burst and the switch can change, and the burst only upward. */
  lemma {:induction false} QuietRun(s: State, es: seq<Event>)
    requires forall i :: 0 <= i < |es| ==> !es[i].Allow?
    ensures var t := After(s, es); t.tokens == s.tokens && t.last == s.last && t.burst >= s.burst
    decreases |es|
  {
    if es != [] {
      QuietRun(s, es[..|es| - 1]);
    }
  }

  /** Exactly when n bytes are let through: for n within the burst, once the deficit has accrued; beyond it, never. */
  lemma AllowedIff(s: State, n: int, now: int)
    requires ValidState(s) && n > 0 && !s.disabled
    ensures Allowed(s, n, now).1 <==> n <= s.burst && n as real - s.tokens <= Accrued(s, now)
  {
  }

  /**
   * WaitNs keeps its promise. If no other Allow comes in between, the bucket is still enabled and its rate has not
   * dropped, then n bytes, n within the burst, are let through at any time later than last + WaitNs(n);
   * and, the rate being unchanged, never before last + WaitNs(n).
   */
  lemma WaitIsExact(s: State, es: seq<Event>, n: int, now: int)
    requires ValidState(s) && 0 < n <= s.burst && !s.disabled
    requires forall i :: 0 <= i < |es| ==> !es[i].Allow?
    requires !After(s, es).disabled && now >= s.last
    ensures After(s, es).rate >= s.rate && now >= s.last + WaitFor(s, n) + 1 ==> Allowed(After(s, es), n, now).1
    ensures After(s, es).rate == s.rate && now < s.last + WaitFor(s, n) ==> !Allowed(After(s, es), n, now).1
  {
    QuietRun(s, es);
    var t, d := After(s, es), now - s.last;
    DeficitAccrues(s, n, d);
    if t.rate >= s.rate {
      EarnedMore(d, s.rate, t.rate);
    }
    hide WaitFor;
    hide Earned;
  }

  lemma DeficitAccrues(s: State, n: int, d: int)
    requires ValidState(s) && !s.disabled && d >= 0
    ensures d >= WaitFor(s, n) + 1 ==> n as real - s.tokens <= Earned(d, s.rate)
    ensures d < WaitFor(s, n) ==> n as real - s.tokens > Earned(d, s.rate)
  {
    EarnedMore(d, 0, s.rate);
    var deficit := n as real - s.tokens;
    if deficit > 0.0 {
      WaitArithmetic(deficit, s.rate, d, deficit / s.rate as real * 1000000000.0);
    }
    hide Earned;
  }

  lemma WaitArithmetic(deficit: real, rate: nat, d: int, w: real)
    requires rate >= 1 && w == deficit / rate as real * 1000000000.0
    ensures d >= w.Floor + 1 ==> deficit <= Earned(d, rate)
    ensures d < w.Floor ==> deficit > Earned(d, rate)
  {
    var r, x := rate as real, d as real / 1000000000.0;
    assert deficit == (deficit / r) * r;
    assert w / 1000000000.0 == deficit / r;
    if d >= w.Floor + 1 {
      assert d as real > w;
      assert x > deficit / r;
      assert x * r >= (deficit / r) * r;
    }
    if d < w.Floor {
      assert d as real < w;
      assert x < deficit / r;
      assert x * r < (deficit / r) * r;
    }
  }

  /** A second visit at the same instant finds the tokens as they were. */
  lemma NothingAccrues(s: State)
    requires ValidState(s)
    ensures Refilled(s, s.last) == s
  {
    assert Seconds(0) == 0.0;
    assert Accrued(s, s.last) == 0.0;
  }

  /**
   * A visit for n bytes as soon as WaitNs has passed leaves less than n tokens, when the bucket earns less than n
   * bytes a nanosecond.
   */
  lemma GrantAsSoon(s: State, n: nat)
    requires ValidState(s) && !s.disabled && s.tokens < n as real && n <= s.burst && s.rate < n * 1_000_000_000
    ensures var now := s.last + WaitFor(s, n) + 1; var (t, ok) := Allowed(s, n, now);
            && ok && now >= s.last && 0.0 <= t.tokens < n as real
            && t.rate == s.rate && t.burst == s.burst && !t.disabled
  {
    var d := WaitFor(s, n);
    var deficit := n as real - s.tokens;
    WaitPositive(deficit, s.rate);
    DeficitAccrues(s, n, d + 1);
    EarnedBy(deficit, s.rate, n);
  }

  lemma WaitPositive(deficit: real, rate: nat)
    requires deficit > 0.0 && rate >= 1
    ensures deficit / rate as real * 1000000000.0 >= 0.0
  {
  }

  lemma EarnedBy(deficit: real, rate: nat, n: nat)
    requires deficit > 0.0 && 1 <= rate < n * 1_000_000_000
    ensures Earned((deficit / rate as real * 1000000000.0).Floor + 1, rate) < deficit + n as real
  {
    var r, q := rate as real, deficit / rate as real;
    var ns := (q * 1000000000.0).Floor + 1;
    assert q * r == deficit;
    assert Seconds(ns) <= q + 1.0 / 1000000000.0;
    Larger(Seconds(ns), q + 1.0 / 1000000000.0, r);
    Distributes(q, 1.0 / 1000000000.0, r);
    assert 1.0 / 1000000000.0 * r < n as real;
    hide Seconds;
  }

  lemma Larger(x: real, y: real, r: real)
    requires x <= y && r >= 0.0
    ensures x * r <= y * r
  {
  }

  lemma Distributes(x: real, y: real, r: real)
    ensures (x + y) * r == x * r + y * r
  {
  }

  /** An item larger than the burst is refused at every visit, however long the bucket has been filling. */
  lemma TooBigNeverAllowed(s: State, n: int, now: int)
    requires ValidState(s) && !s.disabled && n > s.burst
    ensures !Allowed(s, n, now).1
  {
  }
}
