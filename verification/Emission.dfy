/**
 * What the controller emits, from the samples alone: rates, estimates, phases and gains in plain arithmetic over the
 * run (congestion/bbr/bbr.go).
 */
module Emission {
  import opened Bbr
  import opened BbrRuns
  import RingFilters

  // ---------- the samples that count ----------

  function EnabledAfter(enabled: bool, es: seq<Event>): bool
    decreases |es|
  {
    if es == [] then enabled
    else if es[|es| - 1].SetEnabled? then es[|es| - 1].on else EnabledAfter(enabled, es[..|es| - 1])
  }

  /** The samples taken while the controller was enabled. */
  function Taken(enabled: bool, es: seq<Event>): seq<Sample>
    decreases |es|
  {
    if es == [] then []
    else
      var front, e := es[..|es| - 1], es[|es| - 1];
      Taken(enabled, front) + (if e.OnSample? && EnabledAfter(enabled, front) then [e.s] else [])
  }

  /** The last of the samples is measured against the one before it; a time of 0 counts as no sample. */
  predicate Measures(xs: seq<Sample>) {
    |xs| >= 2 && xs[|xs| - 2].nowNs != 0
  }

  /** Bytes a second between two samples: what was received, or else what was sent; the product is 64 bits wide. */
  function RateBetween(prev: Sample, cur: Sample): nat {
    var ns := if cur.nowNs > prev.nowNs then cur.nowNs - prev.nowNs else 1000000;
    var received := if cur.bytesReceived > prev.bytesReceived then cur.bytesReceived - prev.bytesReceived else 0;
    var sent := if cur.bytesSent > prev.bytesSent then cur.bytesSent - prev.bytesSent else 0;
    (if received > 0 then received else sent) * 1000000000 % 18446744073709551616 / ns
  }

  /** The positive rates, in order. */
  function RatesOf(xs: seq<Sample>): seq<int>
    decreases |xs|
  {
    if xs == [] then []
    else
      var n := |xs| - 1;
      RatesOf(xs[..n])
      + (if Measures(xs) && RateBetween(xs[n - 1], xs[n]) > 0 then [RateBetween(xs[n - 1], xs[n])] else [])
  }

  /** The round-trip times, in order; a sample that is not measured adds its own even if it is not positive. */
  function RttsOf(xs: seq<Sample>): seq<int>
    decreases |xs|
  {
    if xs == [] then []
    else
      var x := xs[|xs| - 1];
      var rtt := if x.minRTT > 0 then x.minRTT else x.smoothedRTT;
      RttsOf(xs[..|xs| - 1]) + (if !Measures(xs) || rtt > 0 then [rtt] else [])
  }

  /** How many of the samples are measured. */
  function RoundsOf(xs: seq<Sample>): nat
    decreases |xs|
  {
    if xs == [] then 0 else RoundsOf(xs[..|xs| - 1]) + (if Measures(xs) then 1 else 0)
  }

  function Recent(vals: seq<int>, n: int): seq<int> {
    if |vals| <= n || n < 0 then vals else vals[|vals| - n..]
  }

  // ---------- the controller remembers exactly that ----------

  /** Memory of the samples: the two filters, the last counters and the number of rounds. */
  ghost predicate Remembers(c: Control, xs: seq<Sample>) {
    && c.rates == RatesOf(xs) && c.rtts == RttsOf(xs) && c.rounds == RoundsOf(xs)
    && (if xs == [] then c.lastNs == 0
        else c.lastNs == xs[|xs| - 1].nowNs && c.lastSent == xs[|xs| - 1].bytesSent
             && c.lastRecv == xs[|xs| - 1].bytesReceived)
  }

  lemma MeasuredRemembers(c: Control, xs: seq<Sample>, s: Sample)
    requires Remembers(c, xs) && xs != [] && c.lastNs != 0
    ensures Remembers(Measured(c, s).(rounds := c.rounds + 1), xs + [s])
  {
    var ys := xs + [s];
    assert ys[..|ys| - 1] == xs && ys[|ys| - 2] == xs[|xs| - 1];
    assert Rate(c, s) == RateBetween(xs[|xs| - 1], s);
    hide Rate;
    hide RateBetween;
  }

  lemma FirstRemembers(c: Control, xs: seq<Sample>, s: Sample)
    requires Remembers(c, xs) && c.lastNs == 0
    ensures Remembers(FirstSample(c, s), xs + [s])
  {
    var ys := xs + [s];
    assert ys[..|ys| - 1] == xs;
  }

  lemma AdvancedRemembers(c: Control, s: Sample, btl: nat, rtp: nat)
    ensures var d := Advanced(c, s, btl, rtp);
            && d.rates == c.rates && d.rtts == c.rtts && d.rounds == c.rounds + 1 && d.params == c.params
            && d.lastNs == c.lastNs && d.lastSent == c.lastSent && d.lastRecv == c.lastRecv && d.enabled == c.enabled
  {
    hide Growth;
    hide Bdp;
  }

  lemma SampleRemembers(c: Control, xs: seq<Sample>, s: Sample)
    requires Remembers(c, xs) && c.enabled
    ensures Remembers(Sampled(c, s), xs + [s]) && Sampled(c, s).enabled && Sampled(c, s).params == c.params
  {
    if c.lastNs == 0 {
      FirstRemembers(c, xs, s);
    } else {
      var m := Measured(c, s);
      MeasuredRemembers(c, xs, s);
      AdvancedRemembers(m, s, BtlBw(m), RtProp(m));
      hide Advanced;
      hide Computed;
      hide BtlBw;
      hide RtProp;
      hide RatesOf;
      hide RttsOf;
      hide RoundsOf;
    }
  }

  lemma {:induction false} RunRemembers(p: Params, enabled: bool, start: int, es: seq<Event>)
    ensures var c := Ran(Started(p, enabled, start), es);
            Remembers(c, Taken(enabled, es)) && c.enabled == EnabledAfter(enabled, es) && c.params == p
    decreases |es|
  {
    hide Measured;
    hide FirstSample;
    hide Advanced;
    hide Computed;
    hide RatesOf;
    hide RttsOf;
    if es == [] {
      NothingTaken();
    } else {
      var front, e := es[..|es| - 1], es[|es| - 1];
      RunRemembers(p, enabled, start, front);
      var c := Ran(Started(p, enabled, start), front);
      hide Remembers;
      if e.OnSample? && c.enabled {
        SampleRemembers(c, Taken(enabled, front), e.s);
        assert Taken(enabled, es) == Taken(enabled, front) + [e.s];
      } else {
        OtherRemembers(c, Taken(enabled, front), e);
        assert Taken(enabled, es) == Taken(enabled, front);
      }
      hide Sampled;
    }
  }

  lemma OtherRemembers(c: Control, xs: seq<Sample>, e: Event)
    requires Remembers(c, xs) && !(e.OnSample? && c.enabled)
    ensures var d := Next(c, e);
            Remembers(d, xs) && d.params == c.params && d.enabled == if e.SetEnabled? then e.on else c.enabled
  {
    hide RatesOf;
    hide RttsOf;
    hide RoundsOf;
  }

  lemma NothingTaken()
    ensures RatesOf([]) == [] && RttsOf([]) == [] && RoundsOf([]) == 0
  {
  }

  // ---------- the two estimates ----------

  function Largest(vals: seq<int>): (m: nat)
    ensures (forall v :: v in vals ==> v <= m) && (m == 0 || m in vals)
    decreases |vals|
  {
    if vals == [] then 0
    else
      var n := |vals| - 1;
      assert vals == vals[..n] + [vals[n]];
      if vals[n] > Largest(vals[..n]) then vals[n] else Largest(vals[..n])
  }

  /** The least positive value, or 0. */
  function Least(vals: seq<int>): (m: nat)
    ensures m == 0 ==> forall v :: v in vals ==> v <= 0
    ensures m > 0 ==> m in vals && forall v :: v in vals && v > 0 ==> m <= v
    decreases |vals|
  {
    if vals == [] then 0
    else
      var n := |vals| - 1;
      assert vals == vals[..n] + [vals[n]];
      var m := Least(vals[..n]);
      if vals[n] > 0 && (m == 0 || vals[n] < m) then vals[n] else m
  }

  /** The largest of the last rates, as many as the window has, but at least 2. */
  function Bandwidth(p: Params, xs: seq<Sample>): nat {
    Largest(Recent(RatesOf(xs), if p.window < 2 then 2 else p.window))
  }

  /** The least positive of the last round-trip times, of as many as the window has, but at least 8; or 20 ms. */
  function RoundTrip(p: Params, xs: seq<Sample>): (rtp: nat)
    ensures rtp >= 1
  {
    var m := Least(Recent(RttsOf(xs), if p.window < 8 then 8 else p.window));
    if m == 0 then 20000000 else m
  }

  lemma EstimatesAre(c: Control, xs: seq<Sample>)
    requires Remembers(c, xs)
    ensures BtlBw(c) == Bandwidth(c.params, xs) && RtProp(c) == RoundTrip(c.params, xs)
  {
    hide RatesOf;
    hide RttsOf;
    hide Largest;
    hide Least;
  }

  /** The product of the two estimates: bytes in flight that fill the path. */
  function PathBytes(btl: nat, rtp: nat): nat {
    btl * rtp / 1000000000
  }

  // ---------- one step of the phases ----------

  /** The pacing gain after a measured sample; steps says how far the eight-step cycle of ProbeBW has come. */
  function GainAfter(p: Params, before: Phase, after: Phase, steps: nat): real {
    match after
    case Startup => p.startupGain
    case Drain => p.drainGain
    case ProbeRTT => 1.0
    case ProbeBW =>
      if before != ProbeBW then 1.0 else if steps % 8 == 0 then 1.25 else if steps % 8 == 1 then 0.75 else 1.0
  }

  lemma CycleIs(q: nat)
    ensures CYCLE[q % 8] == if q % 8 == 0 then 1.25 else if q % 8 == 1 then 0.75 else 1.0
  {
  }

  /** What a measured sample does to phase, gains and timers. */
  lemma AdvanceIs(c: Control, s: Sample, btl: nat, rtp: nat)
    requires c.filled <==> c.phase != Startup
    requires c.phase == Startup ==> c.fullBwCnt < 3
    ensures var d := Advanced(c, s, btl, rtp);
            && (c.phase == Startup ==>
                  && d.fullBw == (if 4 * btl > 5 * c.fullBw then btl else c.fullBw)
                  && d.fullBwCnt == (if btl == 0 then c.fullBwCnt else if 4 * btl > 5 * c.fullBw then 0
                                     else c.fullBwCnt + 1)
                  && d.phase == (if d.fullBwCnt >= 3 then Drain else Startup))
            && (c.phase == Drain ==>
                  d.phase == if s.bytesSent - s.bytesReceived <= PathBytes(btl, rtp) || c.rounds + 1 > 8 then ProbeBW
                             else Drain)
            && (c.phase == ProbeBW ==> d.phase == if s.nowNs >= c.probeDue then ProbeRTT else ProbeBW)
            && (c.phase == ProbeRTT ==> d.phase == if s.nowNs >= c.probeEnd then ProbeBW else ProbeRTT)
    ensures var d := Advanced(c, s, btl, rtp);
            && (d.filled <==> d.phase != Startup)
            && d.pacingGain == GainAfter(c.params, c.phase, d.phase, c.cycle)
            && (d.phase == Startup ==> d.cwndGain == c.params.startupGain)
            && (d.phase == Drain || d.phase == ProbeBW ==> d.cwndGain == 2.0)
            && d.probeDue == (if c.phase == ProbeRTT && d.phase != ProbeRTT then s.nowNs + c.params.interval
                              else c.probeDue)
            && d.probeEnd == (if c.phase != ProbeRTT && d.phase == ProbeRTT then s.nowNs + c.params.duration
                              else c.probeEnd)
            && d.cycle == (if c.phase == ProbeBW && d.phase == ProbeBW && (c.rounds + 1) % 2 == 0 then (c.cycle + 1) % 8
                           else c.cycle)
  {
    CycleIs(c.cycle);
    hide CYCLE;
  }

  // ---------- the phases over a run ----------

  /** The bandwidth estimates at the measured samples. */
  function Estimates(p: Params, xs: seq<Sample>): seq<nat>
    decreases |xs|
  {
    if xs == [] then []
    else Estimates(p, xs[..|xs| - 1]) + (if Measures(xs) then [Bandwidth(p, xs)] else [])
  }

  /** The last recorded peak: an estimate becomes the peak when it is more than 5/4 of the one before. */
  function Peak(bs: seq<nat>): nat
    decreases |bs|
  {
    if bs == [] then 0
    else
      var peak, b := Peak(bs[..|bs| - 1]), bs[|bs| - 1];
      if 4 * b > 5 * peak then b else peak
  }

  /** How many estimates in succession have not been more than 5/4 of the last peak; zeros are passed over. */
  function Flat(bs: seq<nat>): nat
    decreases |bs|
  {
    if bs == [] then 0
    else
      var front, b := bs[..|bs| - 1], bs[|bs| - 1];
      if b == 0 then Flat(front) else if 4 * b > 5 * Peak(front) then 0 else Flat(front) + 1
  }

  /** At some point three in succession were flat. */
  function EverFlat(bs: seq<nat>): bool
    decreases |bs|
  {
    Flat(bs) >= 3 || (bs != [] && EverFlat(bs[..|bs| - 1]))
  }

  lemma {:induction false} EverFlatIff(bs: seq<nat>)
    ensures EverFlat(bs) <==> exists n :: 0 <= n <= |bs| && Flat(bs[..n]) >= 3
    decreases |bs|
  {
    hide Flat;
    assert bs[..|bs|] == bs;
    if bs != [] {
      var front := bs[..|bs| - 1];
      EverFlatIff(front);
      assert forall n :: 0 <= n <= |front| ==> front[..n] == bs[..n];
    }
  }

  function PhaseAfter(p: Params, enabled: bool, start: int, es: seq<Event>): Phase {
    Ran(Started(p, enabled, start), es).phase
  }

  /** When the next ProbeRTT is due: an interval after New, and after each end of ProbeRTT. */
  function DueAfter(p: Params, enabled: bool, start: int, es: seq<Event>): int
    decreases |es|
  {
    if es == [] then start + p.interval
    else
      var front, e := es[..|es| - 1], es[|es| - 1];
      if e.OnSample? && PhaseAfter(p, enabled, start, front) == ProbeRTT
         && PhaseAfter(p, enabled, start, es) != ProbeRTT
      then e.s.nowNs + p.interval
      else DueAfter(p, enabled, start, front)
  }

  /** When ProbeRTT may end: a duration after it was entered. */
  function EndAfter(p: Params, enabled: bool, start: int, es: seq<Event>): int
    decreases |es|
  {
    if es == [] then 0
    else
      var front, e := es[..|es| - 1], es[|es| - 1];
      if e.OnSample? && PhaseAfter(p, enabled, start, front) != ProbeRTT
         && PhaseAfter(p, enabled, start, es) == ProbeRTT
      then e.s.nowNs + p.duration
      else EndAfter(p, enabled, start, front)
  }

  /** How far the cycle has come: the measured samples with an even number that began and ended in ProbeBW. */
  function StepsAfter(p: Params, enabled: bool, start: int, es: seq<Event>): nat
    decreases |es|
  {
    if es == [] then 0
    else
      var front, e := es[..|es| - 1], es[|es| - 1];
      StepsAfter(p, enabled, start, front)
      + (if e.OnSample? && EnabledAfter(enabled, front) && Measures(Taken(enabled, es))
              && RoundsOf(Taken(enabled, es)) % 2 == 0
              && PhaseAfter(p, enabled, start, front) == ProbeBW && PhaseAfter(p, enabled, start, es) == ProbeBW
         then 1 else 0)
  }

  /** The controller's private fields, in these terms. */
  ghost predicate Fits(c: Control, bs: seq<nat>, due: int, end: int, steps: nat) {
    && (c.filled <==> c.phase != Startup)
    && (c.phase == Startup <==> !EverFlat(bs))
    && (c.phase == Startup ==> c.fullBw == Peak(bs) && c.fullBwCnt == Flat(bs) < 3)
    && c.probeDue == due && c.probeEnd == end && c.cycle == steps % 8
  }

  ghost predicate Follows(c: Control, p: Params, enabled: bool, start: int, es: seq<Event>) {
    Fits(c, Estimates(p, Taken(enabled, es)), DueAfter(p, enabled, start, es), EndAfter(p, enabled, start, es),
         StepsAfter(p, enabled, start, es))
  }

  /** A measured sample, as the run sees it. */
  lemma MeasuredStep(c: Control, xs: seq<Sample>, s: Sample)
    requires Remembers(c, xs) && c.enabled && Measures(xs + [s])
    ensures var m := Measured(c, s);
            var d := Advanced(m, s, Bandwidth(c.params, xs + [s]), RoundTrip(c.params, xs + [s]));
            && c.lastNs != 0 && Remembers(d, xs + [s])
            && Sampled(c, s) == d.(out := Computed(d, Bandwidth(c.params, xs + [s]), RoundTrip(c.params, xs + [s])))
            && m == c.(lastSent := m.lastSent, lastRecv := m.lastRecv, lastNs := m.lastNs,
                       rates := m.rates, rtts := m.rtts)
  {
    var m := Measured(c, s);
    assert (xs + [s])[|xs| - 1] == xs[|xs| - 1];
    MeasuredRemembers(c, xs, s);
    EstimatesAre(m.(rounds := m.rounds + 1), xs + [s]);
    AdvanceOf(c, s);
    AdvancedRemembers(m, s, BtlBw(m), RtProp(m));
    hide Advanced;
    hide Computed;
    hide Measured;
    hide RatesOf;
    hide RttsOf;
    hide RoundsOf;
    hide Bandwidth;
    hide RoundTrip;
  }

  lemma Appended(p: Params, xs: seq<Sample>, s: Sample)
    ensures var ys := xs + [s];
            && Estimates(p, ys) == Estimates(p, xs) + (if Measures(ys) then [Bandwidth(p, ys)] else [])
            && RoundsOf(ys) == RoundsOf(xs) + (if Measures(ys) then 1 else 0)
  {
    assert (xs + [s])[..|xs|] == xs;
    hide Bandwidth;
  }

  lemma FlatStep(bs: seq<nat>, b: nat)
    ensures Peak(bs + [b]) == (if 4 * b > 5 * Peak(bs) then b else Peak(bs))
    ensures Flat(bs + [b]) == (if b == 0 then Flat(bs) else if 4 * b > 5 * Peak(bs) then 0 else Flat(bs) + 1)
    ensures EverFlat(bs + [b]) <==> EverFlat(bs) || Flat(bs + [b]) >= 3
  {
    assert (bs + [b])[..|bs|] == bs;
  }

  lemma {:induction false} RunFollows(p: Params, enabled: bool, start: int, es: seq<Event>)
    ensures Follows(Ran(Started(p, enabled, start), es), p, enabled, start, es)
    decreases |es|
  {
    hide Next;
    hide Started;
    if es == [] {
      StartFollows(p, enabled, start);
    } else {
      hide Follows;
      var front, e := es[..|es| - 1], es[|es| - 1];
      RunFollows(p, enabled, start, front);
      RunRemembers(p, enabled, start, front);
      var c := Ran(Started(p, enabled, start), front);
      if e.OnSample? && c.enabled && Measures(Taken(enabled, front) + [e.s]) {
        MeasuredFollows(c, p, enabled, start, es);
      } else {
        UnmeasuredFollows(c, p, enabled, start, es);
      }
    }
  }

  lemma StartFollows(p: Params, enabled: bool, start: int)
    ensures Follows(Started(p, enabled, start), p, enabled, start, [])
  {
  }

  /** The functions above, one event further. */
  lemma LastEvent(p: Params, enabled: bool, start: int, es: seq<Event>)
    requires es != []
    ensures var front, e := es[..|es| - 1], es[|es| - 1];
            var a, b := PhaseAfter(p, enabled, start, front), PhaseAfter(p, enabled, start, es);
            var counts := e.OnSample? && EnabledAfter(enabled, front);
            && Taken(enabled, es) == (if counts then Taken(enabled, front) + [e.s] else Taken(enabled, front))
            && DueAfter(p, enabled, start, es)
               == (if e.OnSample? && a == ProbeRTT && b != ProbeRTT then e.s.nowNs + p.interval
                   else DueAfter(p, enabled, start, front))
            && EndAfter(p, enabled, start, es)
               == (if e.OnSample? && a != ProbeRTT && b == ProbeRTT then e.s.nowNs + p.duration
                   else EndAfter(p, enabled, start, front))
            && StepsAfter(p, enabled, start, es)
               == StepsAfter(p, enabled, start, front)
                  + (if counts && Measures(Taken(enabled, es)) && RoundsOf(Taken(enabled, es)) % 2 == 0
                          && a == ProbeBW && b == ProbeBW then 1 else 0)
  {
    hide PhaseAfter;
    hide RoundsOf;
  }

  lemma UnmeasuredFollows(c: Control, p: Params, enabled: bool, start: int, es: seq<Event>)
    requires es != [] && c == Ran(Started(p, enabled, start), es[..|es| - 1])
    requires Follows(c, p, enabled, start, es[..|es| - 1]) && Remembers(c, Taken(enabled, es[..|es| - 1]))
    requires c.enabled == EnabledAfter(enabled, es[..|es| - 1])
    requires !(es[|es| - 1].OnSample? && c.enabled && Measures(Taken(enabled, es[..|es| - 1]) + [es[|es| - 1].s]))
    ensures Follows(Next(c, es[|es| - 1]), p, enabled, start, es)
  {
    var front, e := es[..|es| - 1], es[|es| - 1];
    var xs := Taken(enabled, front);
    assert PhaseAfter(p, enabled, start, es) == Next(c, e).phase;
    assert PhaseAfter(p, enabled, start, front) == c.phase;
    hide PhaseAfter;
    hide Next;
    hide RoundsOf;
    hide EverFlat;
    hide Peak;
    hide Flat;
    UnmeasuredKeeps(c, xs, e);
    hide Remembers;
    LastEvent(p, enabled, start, es);
    hide Taken;
    hide DueAfter;
    hide EndAfter;
    hide StepsAfter;
    var ys := Taken(enabled, es);
    assert Estimates(p, ys) == Estimates(p, xs) by {
      if e.OnSample? && c.enabled {
        Appended(p, xs, e.s);
      }
    }
    hide Estimates;
    assert StepsAfter(p, enabled, start, es) == StepsAfter(p, enabled, start, front);
  }

  lemma UnmeasuredKeeps(c: Control, xs: seq<Sample>, e: Event)
    requires Remembers(c, xs) && !(e.OnSample? && c.enabled && Measures(xs + [e.s]))
    ensures var d := Next(c, e);
            && d.phase == c.phase && d.filled == c.filled && d.fullBw == c.fullBw && d.fullBwCnt == c.fullBwCnt
            && d.probeDue == c.probeDue && d.probeEnd == c.probeEnd && d.cycle == c.cycle
  {
    hide Sampled;
    hide Remembers;
    hide Measures;
    if e.OnSample? && c.enabled {
      NotMeasuredMeans(c, xs, e.s);
      FirstKeeps(c, e.s);
    } else {
      DisabledKeeps(c, e);
    }
  }

  lemma NotMeasuredMeans(c: Control, xs: seq<Sample>, s: Sample)
    requires Remembers(c, xs) && !Measures(xs + [s])
    ensures c.lastNs == 0
  {
    if xs != [] {
      assert (xs + [s])[|xs| - 1] == xs[|xs| - 1];
    }
    hide RatesOf;
    hide RttsOf;
    hide RoundsOf;
  }

  lemma FirstKeeps(c: Control, s: Sample)
    requires c.enabled && c.lastNs == 0
    ensures var d := Sampled(c, s);
            && d.phase == c.phase && d.filled == c.filled && d.fullBw == c.fullBw && d.fullBwCnt == c.fullBwCnt
            && d.probeDue == c.probeDue && d.probeEnd == c.probeEnd && d.cycle == c.cycle
  {
    hide Measured;
    hide Advanced;
    hide Computed;
  }

  lemma DisabledKeeps(c: Control, e: Event)
    requires !(e.OnSample? && c.enabled)
    ensures var d := Next(c, e); d == c.(out := d.out, enabled := d.enabled)
  {
    hide Measured;
    hide FirstSample;
    hide Advanced;
    hide Computed;
  }

  lemma MeasuredFollows(c: Control, p: Params, enabled: bool, start: int, es: seq<Event>)
    requires es != [] && c == Ran(Started(p, enabled, start), es[..|es| - 1])
    requires Follows(c, p, enabled, start, es[..|es| - 1]) && Remembers(c, Taken(enabled, es[..|es| - 1]))
    requires c.enabled == EnabledAfter(enabled, es[..|es| - 1]) && c.params == p
    requires es[|es| - 1].OnSample? && c.enabled && Measures(Taken(enabled, es[..|es| - 1]) + [es[|es| - 1].s])
    ensures Follows(Next(c, es[|es| - 1]), p, enabled, start, es)
  {
    hide Sampled;
    hide RoundsOf;
    hide Remembers;
    hide Started;
    var front, s := es[..|es| - 1], es[|es| - 1].s;
    var xs := Taken(enabled, front);
    PhaseStep(p, enabled, start, es);
    hide PhaseAfter;
    hide Ran;
    hide Measures;
    hide Bandwidth;
    hide Estimates;
    hide Fits;
    LastEvent(p, enabled, start, es);
    hide Taken;
    hide DueAfter;
    hide EndAfter;
    hide StepsAfter;
    Appended(p, xs, s);
    FitsStep(c, xs, s, Estimates(p, xs), DueAfter(p, enabled, start, front), EndAfter(p, enabled, start, front),
             StepsAfter(p, enabled, start, front));
  }

  lemma PhaseStep(p: Params, enabled: bool, start: int, es: seq<Event>)
    requires es != []
    ensures var c := Ran(Started(p, enabled, start), es[..|es| - 1]);
            PhaseAfter(p, enabled, start, es) == Next(c, es[|es| - 1]).phase
            && PhaseAfter(p, enabled, start, es[..|es| - 1]) == c.phase
  {
    hide Next;
    hide Started;
  }

  lemma FitsStep(c: Control, xs: seq<Sample>, s: Sample, bs: seq<nat>, due: int, end: int, steps: nat)
    requires Remembers(c, xs) && c.enabled && Measures(xs + [s]) && Fits(c, bs, due, end, steps)
    ensures var d, n := Sampled(c, s), RoundsOf(xs + [s]);
            Fits(d, bs + [Bandwidth(c.params, xs + [s])],
                 if c.phase == ProbeRTT && d.phase != ProbeRTT then s.nowNs + c.params.interval else due,
                 if c.phase != ProbeRTT && d.phase == ProbeRTT then s.nowNs + c.params.duration else end,
                 steps + (if n % 2 == 0 && c.phase == ProbeBW && d.phase == ProbeBW then 1 else 0))
  {
    hide Sampled;
    hide Remembers;
    hide RoundsOf;
    hide Measures;
    hide Bandwidth;
    hide RoundTrip;
    hide EverFlat;
    hide Peak;
    hide Flat;
    hide GainAfter;
    hide Computed;
    MeasuredLaw(c, xs, s);
    StartupPart(c, Sampled(c, s), bs, Bandwidth(c.params, xs + [s]));
    NextStep(steps);
  }

  /** Startup and its plateau, one estimate further. */
  lemma StartupPart(c: Control, d: Control, bs: seq<nat>, b: nat)
    requires (c.phase == Startup <==> !EverFlat(bs)) && (d.phase == Startup ==> c.phase == Startup)
    requires c.phase == Startup ==>
               && c.fullBw == Peak(bs) && c.fullBwCnt == Flat(bs) < 3
               && d.fullBw == (if 4 * b > 5 * c.fullBw then b else c.fullBw)
               && d.fullBwCnt == (if b == 0 then c.fullBwCnt else if 4 * b > 5 * c.fullBw then 0 else c.fullBwCnt + 1)
               && d.phase == (if d.fullBwCnt >= 3 then Drain else Startup)
    ensures d.phase == Startup <==> !EverFlat(bs + [b])
    ensures d.phase == Startup ==> d.fullBw == Peak(bs + [b]) && d.fullBwCnt == Flat(bs + [b]) < 3
  {
    FlatStep(bs, b);
    hide EverFlat;
    hide Peak;
    hide Flat;
  }

  lemma NextStep(n: nat)
    ensures (n + 1) % 8 == (n % 8 + 1) % 8
  {
  }

  /** What a measured sample does, in terms of the samples. */
  lemma MeasuredLaw(c: Control, xs: seq<Sample>, s: Sample)
    requires Remembers(c, xs) && c.enabled && Measures(xs + [s])
    requires (c.filled <==> c.phase != Startup) && (c.phase == Startup ==> c.fullBwCnt < 3)
    ensures var d, n := Sampled(c, s), RoundsOf(xs + [s]);
            var btl, rtp := Bandwidth(c.params, xs + [s]), RoundTrip(c.params, xs + [s]);
            && (c.phase == Startup ==>
                  && d.fullBw == (if 4 * btl > 5 * c.fullBw then btl else c.fullBw)
                  && d.fullBwCnt == (if btl == 0 then c.fullBwCnt else if 4 * btl > 5 * c.fullBw then 0
                                     else c.fullBwCnt + 1)
                  && d.phase == (if d.fullBwCnt >= 3 then Drain else Startup))
            && (c.phase == Drain ==>
                  d.phase == if s.bytesSent - s.bytesReceived <= PathBytes(btl, rtp) || n > 8 then ProbeBW else Drain)
            && (c.phase == ProbeBW ==> d.phase == if s.nowNs >= c.probeDue then ProbeRTT else ProbeBW)
            && (c.phase == ProbeRTT ==> d.phase == if s.nowNs >= c.probeEnd then ProbeBW else ProbeRTT)
    ensures var d, n := Sampled(c, s), RoundsOf(xs + [s]);
            && (d.filled <==> d.phase != Startup) && n == c.rounds + 1
            && d.probeDue == (if c.phase == ProbeRTT && d.phase != ProbeRTT then s.nowNs + c.params.interval
                              else c.probeDue)
            && d.probeEnd == (if c.phase != ProbeRTT && d.phase == ProbeRTT then s.nowNs + c.params.duration
                              else c.probeEnd)
            && d.cycle == (if c.phase == ProbeBW && d.phase == ProbeBW && n % 2 == 0 then (c.cycle + 1) % 8
                           else c.cycle)
    ensures var d := Sampled(c, s);
            && d.pacingGain == GainAfter(c.params, c.phase, d.phase, c.cycle)
            && (d.phase == Startup ==> d.cwndGain == c.params.startupGain)
            && (d.phase == Drain || d.phase == ProbeBW ==> d.cwndGain == 2.0)
            && d.out == Computed(d, Bandwidth(c.params, xs + [s]), RoundTrip(c.params, xs + [s]))
            && d.params == c.params
  {
    hide Remembers;
    hide Sampled;
    hide Measured;
    hide Advanced;
    hide Computed;
    hide GainAfter;
    hide Bandwidth;
    hide RoundTrip;
    hide RoundsOf;
    hide Measures;
    var btl, rtp, m := Bandwidth(c.params, xs + [s]), RoundTrip(c.params, xs + [s]), Measured(c, s);
    Appended(c.params, xs, s);
    RoundsKept(c, xs);
    MeasuredStep(c, xs, s);
    ComputedOut(Advanced(m, s, btl, rtp), btl, rtp);
    AdvanceIs(m, s, btl, rtp);
    AdvancedRemembers(m, s, btl, rtp);
  }

  /** The output does not depend on the previous one. */
  lemma ComputedOut(d: Control, btl: nat, rtp: nat)
    ensures forall o :: Computed(d.(out := o), btl, rtp) == Computed(d, btl, rtp)
  {
  }

  lemma RoundsKept(c: Control, xs: seq<Sample>)
    requires Remembers(c, xs)
    ensures c.rounds == RoundsOf(xs)
  {
  }

  // ---------- what is emitted ----------

  function Within(p: Params, x: int): int {
    if x < p.minPacing then p.minPacing else if x > p.maxPacing then p.maxPacing else x
  }

  /** The bandwidth estimate, at least 1, times the gain, rounded down and within the bounds. */
  function PacingFor(p: Params, btl: nat, gain: real): int {
    Within(p, ((if btl < 1 then 1 else btl) as real * gain).Floor)
  }

  /** The product of the estimates, at least 4800, times its gain; 4800 in ProbeRTT. */
  function WindowFor(p: Params, phase: Phase, btl: nat, rtp: nat): int {
    var bytes := if PathBytes(btl, rtp) < 4800 then 4800 else PathBytes(btl, rtp);
    match phase
    case ProbeRTT => 4800
    case Startup => (bytes as real * p.startupGain).Floor
    case _ => (bytes as real * 2.0).Floor
  }

  /** The output after a measured sample. */
  ghost predicate Emits(o: Output, p: Params, phase: Phase, btl: nat, rtp: nat, rounds: nat, gain: real) {
    && o.pacingBps == PacingFor(p, btl, gain) && o.cwndBytes == WindowFor(p, phase, btl, rtp)
    && o.btlBwBps == btl && o.rtPropNs == rtp && o.phase == phase && o.roundCount == rounds
    && o.filledPipe == (phase != Startup) && o.pacingGain == gain
  }

  lemma ComputedIs(c: Control, btl: nat, rtp: nat)
    requires ValidParams(c.params) && c.pacingGain > 0.0 && (c.filled <==> c.phase != Startup)
    requires c.phase == Startup ==> c.cwndGain == c.params.startupGain
    requires c.phase == Drain || c.phase == ProbeBW ==> c.cwndGain == 2.0
    ensures Emits(Computed(c, btl, rtp), c.params, c.phase, btl, rtp, c.rounds, c.pacingGain)
  {
    NotNegative(if btl < 1 then 1 else btl, c.pacingGain);
    assert Bdp(btl, rtp) == PathBytes(btl, rtp);
    hide Bdp;
    hide PathBytes;
  }

  lemma NotNegative(x: nat, gain: real)
    requires gain > 0.0
    ensures x as real * gain >= 0.0
  {
  }

  /** A disabled controller emits MaxPacingBps and remembers nothing. */
  lemma DisabledEmits(p: Params, enabled: bool, start: int, es: seq<Event>, s: Sample)
    requires !EnabledAfter(enabled, es)
    ensures var c := Ran(Started(p, enabled, start), es); var d := Next(c, OnSample(s));
            d == c.(out := d.out) && d.out.pacingBps == p.maxPacing && d.out.cwndBytes == p.maxPacing
  {
    RunRemembers(p, enabled, start, es);
    hide Ran;
    hide Remembers;
  }

  /** The first sample, and one after a sample at time 0, is the baseline: phase, pacing and window stay. */
  lemma BaselineEmits(p: Params, enabled: bool, start: int, es: seq<Event>, s: Sample)
    requires EnabledAfter(enabled, es) && !Measures(Taken(enabled, es) + [s])
    ensures var c := Ran(Started(p, enabled, start), es); var d := Next(c, OnSample(s));
            && d.phase == c.phase && d.out.pacingBps == c.out.pacingBps && d.out.cwndBytes == c.out.cwndBytes
            && d.out.rtPropNs == Least(Recent(RttsOf(Taken(enabled, es) + [s]), if p.window < 8 then 8 else p.window))
  {
    RunRemembers(p, enabled, start, es);
    var c, xs := Ran(Started(p, enabled, start), es), Taken(enabled, es);
    hide Ran;
    hide RatesOf;
    hide RoundsOf;
    if xs != [] {
      assert (xs + [s])[|xs| - 1] == xs[|xs| - 1];
    }
    FirstRemembers(c, xs, s);
    hide RttsOf;
    LeastIs(FirstSample(c, s), xs + [s]);
    hide Least;
  }

  lemma LeastIs(c: Control, xs: seq<Sample>)
    requires Remembers(c, xs)
    ensures var n := if c.params.window < 8 then 8 else c.params.window;
            RingFilters.LeastPositiveOf(RingFilters.LastN(c.rtts, RttWindow(c.params))) == Least(Recent(RttsOf(xs), n))
  {
    hide RatesOf;
    hide RttsOf;
    hide RoundsOf;
    hide Least;
    hide RingFilters.LeastPositiveOf;
    var n := if c.params.window < 8 then 8 else c.params.window;
    assert RingFilters.LastN(c.rtts, RttWindow(c.params)) == Recent(RttsOf(xs), n);
    SameLeast(Recent(RttsOf(xs), n));
    hide Recent;
  }

  lemma SameLeast(vals: seq<int>)
    ensures RingFilters.LeastPositiveOf(vals) == Least(vals)
  {
    hide Least;
    hide RingFilters.LeastPositiveOf;
  }

  /** The phase after a measured sample, by what was before. */
  function NextPhase(
    before: Phase, flat: nat, inflight: int, bdp: nat, rounds: nat, now: int, due: int, end: int): Phase
  {
    match before
    case Startup => if flat >= 3 then Drain else Startup
    case Drain => if inflight <= bdp || rounds > 8 then ProbeBW else Drain
    case ProbeBW => if now >= due then ProbeRTT else ProbeBW
    case ProbeRTT => if now >= end then ProbeBW else ProbeRTT
  }

  /**
   * What a measured sample emits, from the samples alone. The phase is Startup until for the first time three estimates
   * in succession were not more than 5/4 of the last peak; it leaves Drain when what is in flight is at most the
   * product of the two estimates, or after round 8; and it enters and leaves ProbeRTT by the clock. Pacing is the
   * bandwidth estimate, at least 1, times the gain of the phase, within the bounds; the window likewise from the
   * product of the estimates, at least 4800.
   */
  lemma Emitted(p: Params, enabled: bool, start: int, es: seq<Event>, s: Sample)
    requires ValidParams(p) && EnabledAfter(enabled, es) && Measures(Taken(enabled, es) + [s])
    ensures var xs := Taken(enabled, es) + [s];
            var btl, rtp, n := Bandwidth(p, xs), RoundTrip(p, xs), RoundsOf(xs);
            var before, d := PhaseAfter(p, enabled, start, es), Next(Ran(Started(p, enabled, start), es), OnSample(s));
            && (before == Startup <==> !EverFlat(Estimates(p, Taken(enabled, es))))
            && d.phase == NextPhase(before, Flat(Estimates(p, xs)), s.bytesSent - s.bytesReceived, PathBytes(btl, rtp),
                                    n, s.nowNs, DueAfter(p, enabled, start, es), EndAfter(p, enabled, start, es))
    ensures var xs := Taken(enabled, es) + [s];
            var btl, rtp, n := Bandwidth(p, xs), RoundTrip(p, xs), RoundsOf(xs);
            var before, d := PhaseAfter(p, enabled, start, es), Next(Ran(Started(p, enabled, start), es), OnSample(s));
            var gain := GainAfter(p, before, d.phase, StepsAfter(p, enabled, start, es));
            Emits(d.out, p, d.phase, btl, rtp, n, gain)
  {
    hide Emits;
    hide PathBytes;
    hide Sampled;
    hide Computed;
    hide Bandwidth;
    hide RoundTrip;
    hide RoundsOf;
    hide Measures;
    hide EverFlat;
    hide Started;
    hide DueAfter;
    hide EndAfter;
    hide StepsAfter;
    hide Taken;
    hide Ran;
    hide Estimates;
    var c, xs := Ran(Started(p, enabled, start), es), Taken(enabled, es);
    RunRemembers(p, enabled, start, es);
    RunFollows(p, enabled, start, es);
    MeasuredRound(c, xs, s);
    Appended(p, xs, s);
    FlatStep(Estimates(p, xs), Bandwidth(p, xs + [s]));
    hide Remembers;
    MeasuredEmits(c, xs, s, StepsAfter(p, enabled, start, es));
    hide Peak;
    hide Flat;
  }

  /** The same, in terms of the state before. */
  lemma MeasuredEmits(c: Control, xs: seq<Sample>, s: Sample, steps: nat)
    requires Remembers(c, xs) && c.enabled && Measures(xs + [s]) && ValidParams(c.params) && c.cycle == steps % 8
    requires (c.filled <==> c.phase != Startup) && (c.phase == Startup ==> c.fullBwCnt < 3)
    ensures var d, btl, rtp := Sampled(c, s), Bandwidth(c.params, xs + [s]), RoundTrip(c.params, xs + [s]);
            && d.phase == NextPhase(c.phase, d.fullBwCnt, s.bytesSent - s.bytesReceived, PathBytes(btl, rtp),
                                    RoundsOf(xs + [s]), s.nowNs, c.probeDue, c.probeEnd)
            && (c.phase == Startup ==>
                  d.fullBwCnt == if btl == 0 then c.fullBwCnt else if 4 * btl > 5 * c.fullBw then 0
                                 else c.fullBwCnt + 1)
    ensures var d, btl, rtp := Sampled(c, s), Bandwidth(c.params, xs + [s]), RoundTrip(c.params, xs + [s]);
            Emits(d.out, c.params, d.phase, btl, rtp, RoundsOf(xs + [s]), GainAfter(c.params, c.phase, d.phase, steps))
  {
    hide Sampled;
    hide Computed;
    hide Bandwidth;
    hide RoundTrip;
    hide RoundsOf;
    hide Measures;
    hide Remembers;
    hide Emits;
    var d, btl, rtp := Sampled(c, s), Bandwidth(c.params, xs + [s]), RoundTrip(c.params, xs + [s]);
    hide PathBytes;
    MeasuredLaw(c, xs, s);
    MeasuredRound(c, xs, s);
    SameGain(c.params, c.phase, d.phase, steps);
    hide GainAfter;
    ComputedIs(d, btl, rtp);
  }

  lemma SameGain(p: Params, before: Phase, after: Phase, steps: nat)
    requires ValidParams(p)
    ensures GainAfter(p, before, after, steps % 8) == GainAfter(p, before, after, steps) > 0.0
  {
  }

  lemma MeasuredRound(c: Control, xs: seq<Sample>, s: Sample)
    requires Remembers(c, xs) && c.enabled && Measures(xs + [s])
    requires (c.filled <==> c.phase != Startup) && (c.phase == Startup ==> c.fullBwCnt < 3)
    ensures Sampled(c, s).rounds == RoundsOf(xs + [s])
  {
    hide Sampled;
    SampleRemembers(c, xs, s);
    hide RoundsOf;
    hide RatesOf;
    hide RttsOf;
  }
}
