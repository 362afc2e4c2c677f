/**
 * The controller and the bucket together: samples, the two steps of the ApplyBBR that follows each, switching, and the
 * drainer's Allow calls, in any interleaving (congestion/bbr/bbr.go, scheduler/scheduler.go, scheduler/tokenbucket.go).
 */
module Pacing {
  import opened Bbr
  import R = BbrRuns
  import B = TokenBucket

  /** emitted: the pacing rates that OnSample has returned so far, for ApplyBBR calls that may still be under way. */
  datatype Pacer = Pacer(control: Control, bucket: B.State, emitted: set<nat>)

  /** ApplyBBR is two steps, Switch and then SetRate; anything may come in between, another ApplyBBR included. */
  datatype Event =
    | Observe(s: Sample)       // OnSample
    | Switch                   // ApplyBBR: the controller's switch goes to the bucket
    | SetRate(bps: nat)        // ApplyBBR: the rate that an earlier OnSample returned, unless it is zero
    | SetEnabled(on: bool)
    | Allow(n: int, now: int)

  function Switched(b: B.State, enabled: bool): B.State {
    b.(disabled := !enabled)
  }

  function Rated(b: B.State, bps: nat): B.State {
    if bps > 0 then B.RateSet(b, bps) else b
  }

  function Next(s: Pacer, e: Event): Pacer {
    match e
    case Observe(x) =>
      var c := Sampled(s.control, x);
      s.(control := c, emitted := s.emitted + {c.out.pacingBps})
    case Switch => s.(bucket := Switched(s.bucket, s.control.enabled))
    case SetRate(bps) => s.(bucket := Rated(s.bucket, bps))
    case SetEnabled(on) => s.(control := s.control.(enabled := on))
    case Allow(n, now) => s.(bucket := B.Allowed(s.bucket, n, now).0)
  }

  /** Rates come from OnSample, and the clock of the Allow calls does not run backwards. */
  predicate Enabled(s: Pacer, e: Event) {
    (e.SetRate? ==> e.bps in s.emitted) && (e.Allow? ==> s.bucket.last <= e.now)
  }

  function Ran(s: Pacer, es: seq<Event>): Pacer
    decreases |es|
  {
    if es == [] then s else Next(Ran(s, es[..|es| - 1]), es[|es| - 1])
  }

  /** Bytes let through while the bucket is enabled. */
  function Egress(s: Pacer, es: seq<Event>): int
    decreases |es|
  {
    if es == [] then 0
    else
      var t, e := Ran(s, es[..|es| - 1]), es[|es| - 1];
      Egress(s, es[..|es| - 1]) + (if e.Allow? then B.Granted(t.bucket, B.Allow(e.n, e.now)) else 0)
  }

  ghost predicate Possible(s: Pacer, es: seq<Event>)
    decreases |es|
  {
    es == [] || (Possible(s, es[..|es| - 1]) && Enabled(Ran(s, es[..|es| - 1]), es[|es| - 1]))
  }

  /** The largest burst the bucket can grow to. */
  function BurstCeiling(p: Params): nat {
    if p.minPacing < p.maxPacing / 8 then p.maxPacing / 8 else p.minPacing
  }

  ghost predicate Within(p: Params, s: Pacer) {
    && s.control.params == p && R.Ordered(s.control) && R.PacingOk(p, s.control.out.pacingBps)
    && (forall bps :: bps in s.emitted ==> R.PacingOk(p, bps))
    && B.ValidState(s.bucket) && p.minPacing <= s.bucket.rate <= p.maxPacing
    && p.minPacing <= s.bucket.burst <= BurstCeiling(p)
  }

  /** New builds both from the same configuration. */
  function Built(p: Params, enabled: bool, start: int, now: int): Pacer {
    Pacer(Started(p, enabled, start), B.State(p.minPacing, p.minPacing, p.minPacing as real, now, !enabled), {})
  }

  lemma BuiltWithin(p: Params, enabled: bool, start: int, now: int)
    requires ValidParams(p)
    ensures Within(p, Built(p, enabled, start, now))
  {
  }

  lemma AppliedWithin(p: Params, b: B.State, enabled: bool, bps: nat)
    requires ValidParams(p) && R.PacingOk(p, bps)
    requires B.ValidState(b) && p.minPacing <= b.rate <= p.maxPacing && p.minPacing <= b.burst <= BurstCeiling(p)
    ensures forall d :: d == Switched(b, enabled) || d == Rated(b, bps) ==>
            && B.ValidState(d) && p.minPacing <= d.rate <= p.maxPacing && p.minPacing <= d.burst <= BurstCeiling(p)
            && d.tokens == b.tokens && d.last == b.last && d.burst >= b.burst
  {
  }

  lemma StepWithin(p: Params, s: Pacer, e: Event)
    requires ValidParams(p) && Within(p, s) && Enabled(s, e)
    ensures Within(p, Next(s, e))
    ensures var t := Next(s, e); var g := if e.Allow? then B.Granted(s.bucket, B.Allow(e.n, e.now)) else 0;
            && t.bucket.last >= s.bucket.last
            && t.bucket.tokens + g as real <= s.bucket.tokens + B.Earned(t.bucket.last - s.bucket.last, p.maxPacing)
  {
    B.EarnedMore(0, 0, p.maxPacing);
    NothingEarned(p.maxPacing);
    match e {
      case Observe(x) =>
        R.StepOrdered(s.control, R.OnSample(x));
        R.StepOutput(s.control, R.OnSample(x));
        hide Sampled;
      case Switch => AppliedWithin(p, s.bucket, s.control.enabled, 0);
      case SetRate(bps) => AppliedWithin(p, s.bucket, true, bps);
      case SetEnabled(on) => R.StepOrdered(s.control, R.SetEnabled(on));
      case Allow(n, now) => AllowWithin(p, s.bucket, n, now);
    }
    hide R.Ordered;
    hide B.Earned;
    hide B.Granted;
    hide B.Allowed;
    hide Switched;
    hide Rated;
  }

  lemma NothingEarned(rate: nat)
    ensures B.Earned(0, rate) == 0.0
  {
  }

  lemma AllowWithin(p: Params, b: B.State, n: int, now: int)
    requires B.ValidState(b) && b.rate <= p.maxPacing && b.last <= now
    ensures var d := B.Allowed(b, n, now).0;
            && B.ValidState(d) && d.rate == b.rate && d.burst == b.burst && d.last >= b.last
            && d.tokens + B.Granted(b, B.Allow(n, now)) as real
               <= b.tokens + B.Earned(d.last - b.last, p.maxPacing)
  {
    B.StepConforms(b, B.Allow(n, now), p.maxPacing);
    if !B.Metered(b, B.Allow(n, now)) {
      NothingEarned(p.maxPacing);
    }
  }

  /**
   * The composed rate bound. In every run, enabled and disabled samples mixed, the bucket's rate stays within
   * [MinPacingBps, MaxPacingBps] and its burst at most max(MinPacingBps, MaxPacingBps / 8); and the bytes it lets
   * through while enabled, over any stretch of the run, are at most that burst plus MaxPacingBps times the time.
   */
  lemma {:induction false} EgressBounded(p: Params, s: Pacer, es: seq<Event>)
    requires ValidParams(p) && Within(p, s) && Possible(s, es)
    ensures var t := Ran(s, es); var d := t.bucket.last - s.bucket.last;
            && Within(p, t) && d >= 0
            && t.bucket.tokens + Egress(s, es) as real <= s.bucket.tokens + B.Earned(d, p.maxPacing)
            && Egress(s, es) as real <= BurstCeiling(p) as real + B.Earned(d, p.maxPacing)
    decreases |es|
  {
    NothingEarned(p.maxPacing);
    hide Next;
    hide B.Earned;
    hide B.Granted;
    if es != [] {
      var front, e := es[..|es| - 1], es[|es| - 1];
      EgressBounded(p, s, front);
      var t := Ran(s, front);
      StepWithin(p, t, e);
      B.EarnedAdds(t.bucket.last - s.bucket.last, Next(t, e).bucket.last - t.bucket.last, p.maxPacing);
      hide Within;
    }
    hide R.Ordered;
  }

  /** From New on, in particular: pacing 0 or within bounds, the bucket within bounds. */
  lemma PacedFromTheStart(p: Params, enabled: bool, start: int, now: int, es: seq<Event>)
    requires ValidParams(p) && Possible(Built(p, enabled, start, now), es)
    ensures var t := Ran(Built(p, enabled, start, now), es);
            && (t.control.out.pacingBps == 0 || p.minPacing <= t.control.out.pacingBps <= p.maxPacing)
            && p.minPacing <= t.bucket.rate <= p.maxPacing
            && t.bucket.burst <= (if p.minPacing < p.maxPacing / 8 then p.maxPacing / 8 else p.minPacing)
  {
    BuiltWithin(p, enabled, start, now);
    EgressBounded(p, Built(p, enabled, start, now), es);
  }

  /** An item larger than the ceiling of the burst is refused at every visit of every enabled run. */
  lemma OversizeNeverLeaves(p: Params, s: Pacer, es: seq<Event>, n: int, now: int)
    requires ValidParams(p) && Within(p, s) && Possible(s, es)
    requires n > BurstCeiling(p) && !Ran(s, es).bucket.disabled
    ensures !B.Allowed(Ran(s, es).bucket, n, now).1
  {
    EgressBounded(p, s, es);
    B.TooBigNeverAllowed(Ran(s, es).bucket, n, now);
    hide B.Allowed;
  }

  // ---------- what ApplyBBR has set stays ----------

  /** The latest rate other than zero. */
  function LatestRate(r: nat, es: seq<Event>): nat
    decreases |es|
  {
    if es == [] then r
    else
      var e := es[|es| - 1];
      if e.SetRate? && e.bps > 0 then e.bps else LatestRate(r, es[..|es| - 1])
  }

  /** Whether the controller was off at the latest Switch. */
  function LatestOff(s: Pacer, es: seq<Event>): bool
    decreases |es|
  {
    if es == [] then s.bucket.disabled
    else if es[|es| - 1].Switch? then !Ran(s, es[..|es| - 1]).control.enabled
    else LatestOff(s, es[..|es| - 1])
  }

  /** The bucket runs at the latest rate that ApplyBBR has set, up or down, and is off as at the latest Switch. */
  lemma {:induction false} SettingsStay(s: Pacer, es: seq<Event>)
    ensures var b := Ran(s, es).bucket; b.rate == LatestRate(s.bucket.rate, es) && b.disabled == LatestOff(s, es)
    decreases |es|
  {
    hide Sampled;
    if es != [] {
      SettingsStay(s, es[..|es| - 1]);
    }
  }
}
