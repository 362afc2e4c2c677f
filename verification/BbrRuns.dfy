/** Whole runs of the BBR controller, samples and switching mixed: congestion/bbr/bbr.go. */
module BbrRuns {
  import opened RingFilters
  import opened Bbr

  datatype Event = OnSample(s: Sample) | SetEnabled(on: bool)

  function Next(c: Control, e: Event): Control {
    match e
    case OnSample(s) => Sampled(c, s)
    case SetEnabled(on) => c.(enabled := on)
  }

  function Ran(c: Control, es: seq<Event>): Control
    decreases |es|
  {
    if es == [] then c else Next(Ran(c, es[..|es| - 1]), es[|es| - 1])
  }

  /** The event is a sample that the state machine advances on. */
  predicate Advances(c: Control, e: Event) {
    e.OnSample? && c.enabled && c.lastNs != 0
  }

  lemma AdvanceOf(c: Control, s: Sample)
    requires c.enabled && c.lastNs != 0
    ensures var m := Measured(c, s); var d := Advanced(m, s, BtlBw(m), RtProp(m));
            Sampled(c, s) == d.(out := Computed(d, BtlBw(m), RtProp(m)))
    ensures var m := Measured(c, s);
            m == c.(lastSent := m.lastSent, lastRecv := m.lastRecv, lastNs := m.lastNs,
                    rates := m.rates, rtts := m.rtts)
  {
  }

  // ---------- the order of the states ----------

  /** filled means out of Startup; gains fit the state; the plateau and round counters are in step. */
  ghost predicate Ordered(c: Control) {
    && (c.filled <==> c.phase != Startup)
    && c.cwndGain == GainsOf(c.params, c.phase).1
    && (c.phase != ProbeBW ==> c.pacingGain == GainsOf(c.params, c.phase).0)
    && (c.phase == ProbeBW ==> c.pacingGain == 1.25 || c.pacingGain == 0.75 || c.pacingGain == 1.0)
    && c.cycle < 8
    && (c.phase == Startup ==>
          && c.fullBwCnt < PLATEAU && (c.fullBw == 0 ==> c.fullBwCnt == 0)
          && (c.fullBw > 0 ==> c.fullBwCnt + 1 <= c.rounds))
    && (c.phase == Drain ==> 4 <= c.rounds)
  }

  /** Startup to Drain to ProbeBW, then back and forth with ProbeRTT; Startup is never entered. */
  predicate Move(from: Phase, to: Phase) {
    || from == to
    || (from == Startup && to == Drain) || (from == Drain && to == ProbeBW)
    || (from == ProbeBW && to == ProbeRTT) || (from == ProbeRTT && to == ProbeBW)
  }

  lemma CycleGains(i: nat)
    ensures var g := CYCLE[i % 8]; g == 1.25 || g == 0.75 || g == 1.0
  {
  }

  lemma AdvanceOrdered(c: Control, s: Sample, btl: nat, rtp: nat)
    requires Ordered(c)
    ensures var d := Advanced(c, s, btl, rtp); Ordered(d) && Move(c.phase, d.phase) && d.rounds == c.rounds + 1
    ensures Advanced(c, s, btl, rtp).phase == Drain && c.phase == Drain ==> c.rounds <= 7
  {
    CycleGains(c.cycle);
    hide Bdp;
  }

  /** Every run keeps the order, one allowed move at a time; so Startup, once left, is never seen again. */
  lemma StepOrdered(c: Control, e: Event)
    requires Ordered(c)
    ensures Ordered(Next(c, e)) && Move(c.phase, Next(c, e).phase)
    ensures c.phase != Startup ==> Next(c, e).phase != Startup
    ensures !Advances(c, e) ==> var d := Next(c, e); d.phase == c.phase && d.rounds == c.rounds && d.cycle == c.cycle
                                                     && d.fullBw == c.fullBw && d.fullBwCnt == c.fullBwCnt
  {
    if Advances(c, e) {
      AdvanceOf(c, e.s);
      var m := Measured(c, e.s);
      hide Measured;
      hide Sampled;
      AdvanceOrdered(m, e.s, BtlBw(m), RtProp(m));
      hide Advanced;
      hide Computed;
    }
  }

  lemma {:induction false} RunOrdered(c: Control, es: seq<Event>)
    requires Ordered(c)
    ensures Ordered(Ran(c, es))
    ensures c.phase != Startup ==> Ran(c, es).phase != Startup
    ensures forall n :: 0 <= n < |es| ==> Move(Ran(c, es[..n]).phase, Ran(c, es[..n + 1]).phase)
    ensures forall m, n :: 0 <= m <= n <= |es| && Ran(c, es[..m]).phase != Startup ==> Ran(c, es[..n]).phase != Startup
    decreases |es|
  {
    hide Next;
    hide Ordered;
    hide Move;
    if es != [] {
      var front := es[..|es| - 1];
      RunOrdered(c, front);
      StepOrdered(Ran(c, front), es[|es| - 1]);
      assert forall n :: 0 <= n < |es| ==> es[..n] == front[..n];
      assert es[..|es|] == es;
    } else {
      assert es[..0] == es;
    }
  }

  lemma StartOrdered(p: Params, enabled: bool, start: int)
    ensures Ordered(Started(p, enabled, start))
  {
  }

  /** How many samples the state machine has spent in a phase. */
  function SpentIn(c: Control, es: seq<Event>, phase: Phase): nat
    decreases |es|
  {
    if es == [] then 0
    else
      var d := Ran(c, es[..|es| - 1]);
      SpentIn(c, es[..|es| - 1], phase) + (if Advances(d, es[|es| - 1]) && d.phase == phase then 1 else 0)
  }

  /** Drain handles at most five samples in the whole life of a controller. */
  lemma {:induction false} DrainIsShort(p: Params, enabled: bool, start: int, es: seq<Event>)
    ensures var c := Started(p, enabled, start); var d := Ran(c, es); var n := SpentIn(c, es, Drain);
            && n <= 5 && Ordered(d) && (d.phase == Startup ==> n == 0)
            && (d.phase == Drain ==> n == 0 || n + 4 <= d.rounds <= 8)
    decreases |es|
  {
    var c := Started(p, enabled, start);
    StartOrdered(p, enabled, start);
    if es != [] {
      var front, e := es[..|es| - 1], es[|es| - 1];
      DrainIsShort(p, enabled, start, front);
      var d := Ran(c, front);
      StepOrdered(d, e);
      if Advances(d, e) {
        RoundCounted(d, e);
      }
      hide Next;
      hide Started;
    }
  }

  lemma RoundCounted(c: Control, e: Event)
    requires Ordered(c) && Advances(c, e)
    ensures Next(c, e).rounds == c.rounds + 1
    ensures Next(c, e).phase == Drain && c.phase == Drain ==> c.rounds <= 7
  {
    AdvanceOf(c, e.s);
    var m := Measured(c, e.s);
    hide Measured;
    hide Sampled;
    AdvanceOrdered(m, e.s, BtlBw(m), RtProp(m));
    hide Advanced;
    hide Computed;
  }

  // ---------- Startup ends ----------

  /** How often a bandwidth can grow by the startup factor without exceeding top. */
  function Climb(bw: nat, top: nat): nat
    decreases top - Growth(bw)
  {
    if Growth(bw) + 1 > top then 0 else 1 + Climb(Growth(bw) + 1, top)
  }

  lemma {:induction false} ClimbMonotone(a: nat, b: nat, top: nat)
    requires a <= b
    ensures Climb(b, top) <= Climb(a, top)
    decreases top - Growth(a)
  {
    GrowthMonotone(a, b);
    if Growth(b) + 1 <= top {
      ClimbMonotone(Growth(a) + 1, Growth(b) + 1, top);
    }
  }

  lemma GrowthMonotone(a: nat, b: nat)
    requires a <= b
    ensures Growth(a) <= Growth(b)
  {
  }

  function Pow(b: nat, e: nat): nat {
    if e == 0 then 1 else b * Pow(b, e - 1)
  }

  /** The climb is logarithmic: (5/4)^(g-1) <= top, for g climbs from nothing. */
  lemma ClimbIsLogarithmic(top: nat)
    requires Climb(0, top) >= 1
    ensures Pow(5, Climb(0, top) - 1) <= top * Pow(4, Climb(0, top) - 1)
  {
    ClimbFrom(1, top, Climb(1, top));
  }

  lemma {:induction false} ClimbFrom(bw: nat, top: nat, n: nat)
    requires 1 <= bw <= top && n == Climb(bw, top)
    ensures bw * Pow(5, n) <= top * Pow(4, n)
    decreases n
  {
    if n > 0 {
      var up := Growth(bw) + 1;
      ClimbFrom(up, top, n - 1);
      assert 4 * up >= 5 * bw;
      hide Growth;
      hide Climb;
      ClimbArithmetic(bw, up, top, Pow(5, n - 1), Pow(4, n - 1));
    }
  }

  lemma ClimbArithmetic(bw: nat, up: nat, top: nat, a: nat, b: nat)
    requires 4 * up >= 5 * bw && up * a <= top * b
    ensures bw * (5 * a) <= top * (4 * b)
  {
    Scale(4 * up, 5 * bw, a);
    assert (4 * up) * a == 4 * (up * a);
    assert (5 * bw) * a == bw * (5 * a);
    assert top * (4 * b) == 4 * (top * b);
  }

  lemma Scale(x: nat, y: nat, z: nat)
    requires x >= y
    ensures x * z >= y * z
  {
  }

  /** No measured rate exceeds top. */
  ghost predicate RatesAtMost(c: Control, top: nat) {
    forall v :: v in c.rates ==> v <= top
  }

  ghost predicate SampleAtMost(c: Control, e: Event, top: nat) {
    Advances(c, e) ==> Rate(c, e.s) <= top
  }

  ghost predicate RunAtMost(c: Control, es: seq<Event>, top: nat)
    decreases |es|
  {
    es == [] || (RunAtMost(c, es[..|es| - 1], top) && SampleAtMost(Ran(c, es[..|es| - 1]), es[|es| - 1], top))
  }

  /** The event advances Startup with a bandwidth estimate in hand. */
  predicate StartupSample(c: Control, e: Event) {
    Advances(c, e) && c.phase == Startup && BtlBw(Measured(c, e.s)) > 0
  }

  function StartupSamples(c: Control, es: seq<Event>): nat
    decreases |es|
  {
    if es == [] then 0
    else StartupSamples(c, es[..|es| - 1]) + (if StartupSample(Ran(c, es[..|es| - 1]), es[|es| - 1]) then 1 else 0)
  }

  /** In Startup: the samples seen so far are paid for by growth and by the plateau counter. */
  ghost predicate StartupBudget(c: Control, n: nat, top: nat) {
    if c.phase == Startup then
      && c.fullBw <= top
      && if c.fullBw == 0 then n == 0 else n + 2 <= 3 * (Climb(0, top) - Climb(c.fullBw, top)) + c.fullBwCnt
    else n <= 3 * Climb(0, top) + 1
  }

  lemma BtlBwAtMost(c: Control, top: nat)
    requires RatesAtMost(c, top)
    ensures BtlBw(c) <= top
  {
    var last := LastN(c.rates, RateWindow(c.params));
    assert forall v :: v in last ==> v in c.rates;
  }

  lemma StepRates(c: Control, e: Event, top: nat)
    requires RatesAtMost(c, top) && SampleAtMost(c, e, top)
    ensures RatesAtMost(Next(c, e), top)
    ensures Advances(c, e) ==> RatesAtMost(Measured(c, e.s), top)
  {
    hide Rate;
    if Advances(c, e) {
      AdvanceOf(c, e.s);
      var m := Measured(c, e.s);
      RatesKept(m, e.s, BtlBw(m), RtProp(m));
      hide Sampled;
      hide Advanced;
    }
  }

  lemma RatesKept(c: Control, s: Sample, btl: nat, rtp: nat)
    ensures Advanced(c, s, btl, rtp).rates == c.rates
  {
    hide Bdp;
  }

  /** One step of Startup: growth spends a climb, the plateau spends the counter. */
  lemma StartupPays(c: Control, btl: nat, n: nat, top: nat)
    requires Ordered(c) && c.phase == Startup && StartupBudget(c, n, top) && 0 < btl <= top
    ensures StartupBudget(StartupStep(c.(rounds := c.rounds + 1), btl), n + 1, top)
  {
    GrowthMonotone(0, c.fullBw);
    if btl > Growth(c.fullBw) {
      ClimbMonotone(Growth(c.fullBw) + 1, btl, top);
      ClimbMonotone(0, c.fullBw, top);
    } else {
      ClimbMonotone(0, c.fullBw, top);
    }
  }

  lemma StepBudget(c: Control, e: Event, n: nat, top: nat)
    requires Ordered(c) && RatesAtMost(c, top) && SampleAtMost(c, e, top) && StartupBudget(c, n, top)
    ensures StartupBudget(Next(c, e), if StartupSample(c, e) then n + 1 else n, top)
  {
    StepRates(c, e, top);
    StepOrdered(c, e);
    if Advances(c, e) {
      AdvanceOf(c, e.s);
      var m := Measured(c, e.s);
      hide Measured;
      hide Sampled;
      BtlBwAtMost(m, top);
      hide BtlBw;
      if c.phase == Startup && BtlBw(m) > 0 {
        StartupPays(m, BtlBw(m), n, top);
      }
    }
  }

  /**
   * Startup terminates. If no measured rate exceeds top, then in every run at most 3·G + 1 enabled samples with a
   * nonzero bandwidth estimate fall into Startup, where G = Climb(0, top) is at most 1 + log(top) to the base 1.25.
   */
  lemma {:induction false} StartupTerminates(p: Params, enabled: bool, start: int, es: seq<Event>, top: nat)
    requires RunAtMost(Started(p, enabled, start), es, top)
    ensures var c := Started(p, enabled, start); var d := Ran(c, es);
            && StartupSamples(c, es) <= 3 * Climb(0, top) + 1
            && StartupBudget(d, StartupSamples(c, es), top) && RatesAtMost(d, top) && Ordered(d)
    decreases |es|
  {
    var c := Started(p, enabled, start);
    StartOrdered(p, enabled, start);
    if es != [] {
      var front, e := es[..|es| - 1], es[|es| - 1];
      StartupTerminates(p, enabled, start, front, top);
      StepBudget(Ran(c, front), e, StartupSamples(c, front), top);
      StepRates(Ran(c, front), e, top);
      StepOrdered(Ran(c, front), e);
    }
    hide Next;
    hide Started;
    BudgetBounds(Ran(c, es), StartupSamples(c, es), top);
  }

  lemma BudgetBounds(c: Control, n: nat, top: nat)
    requires StartupBudget(c, n, top) && Ordered(c)
    ensures n <= 3 * Climb(0, top) + 1
  {
  }

  // ---------- the time between probes ----------

  predicate EntersProbe(c: Control, e: Event) {
    c.phase == ProbeBW && Next(c, e).phase == ProbeRTT
  }

  ghost predicate NoProbe(c: Control, es: seq<Event>)
    decreases |es|
  {
    es == [] || (NoProbe(c, es[..|es| - 1]) && !EntersProbe(Ran(c, es[..|es| - 1]), es[|es| - 1]))
  }

  /** Since a probe that began at time t: it still lasts, or the next one is not due before t + duration + interval. */
  ghost predicate Probing(c: Control, p: Params, t: int) {
    && c.params == p && Ordered(c)
    && ((c.phase == ProbeRTT && c.probeEnd == t + p.duration)
        || (c.phase == ProbeBW && c.probeDue >= t + p.duration + p.interval))
  }

  lemma ProbeStep(c: Control, s: Sample, btl: nat, rtp: nat)
    requires Ordered(c) && (c.phase == ProbeBW || c.phase == ProbeRTT)
    ensures var d := Advanced(c, s, btl, rtp);
            && d.params == c.params
            && match c.phase
               case ProbeBW =>
                 if s.nowNs >= c.probeDue then d.phase == ProbeRTT && d.probeEnd == s.nowNs + c.params.duration
                 else d.phase == ProbeBW && d.probeDue == c.probeDue
               case ProbeRTT =>
                 if s.nowNs >= c.probeEnd then d.phase == ProbeBW && d.probeDue == s.nowNs + c.params.interval
                 else d.phase == ProbeRTT && d.probeEnd == c.probeEnd
               case _ => true
  {
  }

  lemma ProbeEvent(c: Control, e: Event)
    requires Ordered(c) && (c.phase == ProbeBW || c.phase == ProbeRTT)
    ensures var d := Next(c, e);
            && Ordered(d) && d.params == c.params
            && if !Advances(c, e) then d.phase == c.phase && d.probeEnd == c.probeEnd && d.probeDue == c.probeDue
               else match c.phase
                    case ProbeBW =>
                      if e.s.nowNs >= c.probeDue then d.phase == ProbeRTT && d.probeEnd == e.s.nowNs + c.params.duration
                      else d.phase == ProbeBW && d.probeDue == c.probeDue
                    case ProbeRTT =>
                      if e.s.nowNs >= c.probeEnd then d.phase == ProbeBW && d.probeDue == e.s.nowNs + c.params.interval
                      else d.phase == ProbeRTT && d.probeEnd == c.probeEnd
                    case _ => true
  {
    StepOrdered(c, e);
    if Advances(c, e) {
      AdvanceOf(c, e.s);
      var m := Measured(c, e.s);
      hide Measured;
      hide Sampled;
      ProbeStep(m, e.s, BtlBw(m), RtProp(m));
      hide Advanced;
      hide Computed;
    }
  }

  lemma {:induction false} ProbingHolds(c: Control, es: seq<Event>, p: Params, t: int)
    requires Probing(c, p, t) && NoProbe(c, es)
    ensures Probing(Ran(c, es), p, t)
    decreases |es|
  {
    hide Next;
    if es != [] {
      ProbingHolds(c, es[..|es| - 1], p, t);
      ProbeEvent(Ran(c, es[..|es| - 1]), es[|es| - 1]);
    }
  }

  /** Two successive probes begin at least duration + interval apart in sample time, whatever comes in between. */
  lemma ProbesAreApart(c: Control, first: Event, es: seq<Event>, second: Event)
    requires Ordered(c) && EntersProbe(c, first)
    requires NoProbe(Next(c, first), es) && EntersProbe(Ran(Next(c, first), es), second)
    ensures first.OnSample? && second.OnSample?
    ensures second.s.nowNs >= first.s.nowNs + c.params.duration + c.params.interval
  {
    ProbeEvent(c, first);
    var d := Next(c, first);
    ProbingHolds(d, es, c.params, first.s.nowNs);
    ProbeEvent(Ran(d, es), second);
    hide Sampled;
  }

  // ---------- the gain cycle ----------

  /** Every event advances the machine in ProbeBW and leaves it there. */
  ghost predicate Cruises(c: Control, es: seq<Event>)
    decreases |es|
  {
    c.phase == ProbeBW &&
    (es == [] ||
     (var d := Ran(c, es[..|es| - 1]);
      Cruises(c, es[..|es| - 1]) && Advances(d, es[|es| - 1]) && Next(d, es[|es| - 1]).phase == ProbeBW))
  }

  /** The pacing gains used by the samples of the run, added up. */
  function GainSum(c: Control, es: seq<Event>): real
    decreases |es|
  {
    if es == [] then 0.0 else GainSum(c, es[..|es| - 1]) + Ran(c, es).pacingGain
  }

  /** Where the cycle stands n samples after cycle; odd says that the gain there has been used once already. */
  function At(cycle: nat, odd: nat, n: nat): nat {
    (cycle + (n + odd) / 2) % 8
  }

  /** The gains of n samples from position cycle on, each used for two samples. */
  function CycleSum(cycle: nat, odd: nat, n: nat): real {
    if n == 0 then 0.0 else CycleSum(cycle, odd, n - 1) + Gain(cycle + (n - 1 + odd) / 2)
  }

  function Gain(i: nat): real {
    CYCLE[i % 8]
  }

  lemma CruiseStep(c: Control, s: Sample, btl: nat, rtp: nat)
    requires c.phase == ProbeBW && Advanced(c, s, btl, rtp).phase == ProbeBW
    ensures var d := Advanced(c, s, btl, rtp);
            && d.rounds == c.rounds + 1 && d.pacingGain == Gain(c.cycle)
            && d.cycle == if d.rounds % 2 == 0 then (c.cycle + 1) % 8 else c.cycle
  {
  }

  lemma CruiseEvent(c: Control, e: Event)
    requires c.phase == ProbeBW && Advances(c, e) && Next(c, e).phase == ProbeBW
    ensures var d := Next(c, e);
            && d.rounds == c.rounds + 1 && d.pacingGain == Gain(c.cycle)
            && d.cycle == if d.rounds % 2 == 0 then (c.cycle + 1) % 8 else c.cycle
  {
    AdvanceOf(c, e.s);
    var m := Measured(c, e.s);
    hide Measured;
    hide Sampled;
    CruiseStep(m, e.s, BtlBw(m), RtProp(m));
    hide Advanced;
    hide Computed;
  }

  lemma CycleMoves(cycle: nat, odd: nat, n: nat)
    requires odd < 2 && cycle < 8
    ensures At(cycle, odd, 0) == cycle
    ensures At(cycle, odd, n + 1) == if (n + 1 + odd) % 2 == 0 then (At(cycle, odd, n) + 1) % 8 else At(cycle, odd, n)
    ensures Gain(At(cycle, odd, n)) == Gain(cycle + (n + odd) / 2)
  {
    NextHalf(n + odd);
    NextEighth(cycle + (n + odd) / 2);
  }

  lemma NextHalf(k: nat)
    ensures (k + 1) / 2 == k / 2 + if (k + 1) % 2 == 0 then 1 else 0
  {
  }

  lemma NextEighth(x: nat)
    ensures (x + 1) % 8 == (x % 8 + 1) % 8 && (x % 8) % 8 == x % 8
  {
  }

  lemma {:induction false} CruiseSums(c: Control, es: seq<Event>)
    requires c.cycle < 8 && Cruises(c, es)
    ensures var d := Ran(c, es); var odd := c.rounds % 2;
            && d.phase == ProbeBW && d.rounds == c.rounds + |es|
            && d.cycle == At(c.cycle, odd, |es|)
            && GainSum(c, es) == CycleSum(c.cycle, odd, |es|)
    decreases |es|
  {
    hide Next;
    hide Advances;
    hide At;
    hide Gain;
    var odd := c.rounds % 2;
    if es == [] {
      CycleMoves(c.cycle, odd, 0);
    } else {
      var front, e := es[..|es| - 1], es[|es| - 1];
      CruiseSums(c, front);
      CruiseEvent(Ran(c, front), e);
      CycleMoves(c.cycle, odd, |front|);
      SameParity(c.rounds, |es|);
    }
  }

  lemma SameParity(rounds: nat, n: nat)
    ensures (rounds + n) % 2 == (n + rounds % 2) % 2
  {
  }

  /** m successive gains. */
  function GainRun(cycle: nat, m: nat): real {
    if m == 0 then 0.0 else GainRun(cycle, m - 1) + Gain(cycle + m - 1)
  }

  lemma {:induction false} PairsOfGains(cycle: nat, m: nat)
    ensures CycleSum(cycle, 0, 2 * m) == GainRun(cycle, m) + GainRun(cycle, m)
    ensures CycleSum(cycle, 1, 2 * m) == GainRun(cycle, m) + GainRun(cycle + 1, m)
  {
    hide Gain;
    if m > 0 {
      PairsOfGains(cycle, m - 1);
      assert CycleSum(cycle, 0, 2 * m) == CycleSum(cycle, 0, 2 * m - 2) + Gain(cycle + m - 1) + Gain(cycle + m - 1);
      assert CycleSum(cycle, 1, 2 * m) == CycleSum(cycle, 1, 2 * m - 2) + Gain(cycle + m - 1) + Gain(cycle + m);
    }
  }

  lemma {:induction false} GainRunShifts(cycle: nat, m: nat)
    ensures GainRun(cycle + 1, m) == GainRun(cycle, m) - Gain(cycle) + Gain(cycle + m)
  {
    hide Gain;
    if m > 0 {
      GainRunShifts(cycle, m - 1);
    }
  }

  /** Any eight successive gains add up to eight: a whole turn of the cycle. */
  lemma {:induction false} EightGains(cycle: nat)
    ensures GainRun(cycle, 8) == 8.0
  {
    if cycle == 0 {
      assert Gain(0) == 1.25 && Gain(1) == 0.75 && Gain(2) == 1.0 && Gain(3) == 1.0;
      assert Gain(4) == 1.0 && Gain(5) == 1.0 && Gain(6) == 1.0 && Gain(7) == 1.0;
      assert GainRun(0, 4) == 4.0;
      assert GainRun(0, 8) == GainRun(0, 4) + 4.0;
    } else {
      EightGains(cycle - 1);
      GainRunShifts(cycle - 1, 8);
      assert Gain(cycle - 1) == Gain(cycle - 1 + 8);
    }
  }

  lemma SixteenGains(cycle: nat, odd: nat)
    requires odd < 2
    ensures CycleSum(cycle, odd, 16) == 16.0
  {
    PairsOfGains(cycle, 8);
    EightGains(cycle);
    EightGains(cycle + 1);
  }

  /** Over any sixteen samples that start and stay in ProbeBW the gains average one, wherever the cycle stands. */
  lemma SixteenSamplesAverageOne(c: Control, es: seq<Event>)
    requires Ordered(c) && Cruises(c, es) && |es| == 16
    ensures GainSum(c, es) == 16.0
  {
    CruiseSums(c, es);
    SixteenGains(c.cycle, c.rounds % 2);
    hide Cruises;
    hide GainSum;
    hide CycleSum;
  }

  // ---------- the outputs ----------

  ghost predicate PacingOk(p: Params, bps: nat) {
    bps == 0 || p.minPacing <= bps <= p.maxPacing
  }

  lemma ScaledAtLeast(x: nat, gain: real)
    requires gain >= 1.0
    ensures Scaled(x, gain) >= x
  {
    assert x as real * gain >= x as real;
  }

  /** What an advancing sample decides: pacing within the configured bounds, a window of at least four packets. */
  lemma ComputedBounds(c: Control, btl: nat, rtp: nat)
    requires Ordered(c) && ValidParams(c.params)
    ensures var o := Computed(c, btl, rtp);
            && o.phase == c.phase && c.params.minPacing <= o.pacingBps <= c.params.maxPacing
            && o.cwndBytes >= MIN_CWND && (c.phase == ProbeRTT ==> o.cwndBytes == MIN_CWND)
  {
    var bdp := if Bdp(btl, rtp) < MIN_CWND then MIN_CWND else Bdp(btl, rtp);
    ScaledAtLeast(bdp, c.cwndGain);
    hide Bdp;
    hide Scaled;
  }

  lemma ParamsKept(c: Control, s: Sample, btl: nat, rtp: nat)
    ensures Advanced(c, s, btl, rtp).params == c.params
  {
    hide Bdp;
  }

  lemma StepOutput(c: Control, e: Event)
    requires Ordered(c) && ValidParams(c.params) && PacingOk(c.params, c.out.pacingBps)
    ensures var d := Next(c, e);
            && d.params == c.params && PacingOk(c.params, d.out.pacingBps)
            && (Advances(c, e) ==>
                  && d.out.phase == d.phase && d.out.pacingBps != 0 && d.out.cwndBytes >= MIN_CWND
                  && (d.phase == ProbeRTT ==> d.out.cwndBytes == MIN_CWND))
  {
    if Advances(c, e) {
      AdvanceOf(c, e.s);
      var m := Measured(c, e.s);
      hide Measured;
      hide Sampled;
      var btl, rtp := BtlBw(m), RtProp(m);
      AdvanceOrdered(m, e.s, btl, rtp);
      var d := Advanced(m, e.s, btl, rtp);
      ParamsKept(m, e.s, btl, rtp);
      hide Advanced;
      ComputedBounds(d, btl, rtp);
      hide Computed;
    }
  }

  /**
   * In every run the pacing output is 0 or within [MinPacingBps, MaxPacingBps]; and every enabled sample after the
   * first yields a window of at least 4800 bytes, exactly 4800 in ProbeRTT.
   */
  lemma {:induction false} OutputsBounded(p: Params, enabled: bool, start: int, es: seq<Event>)
    requires ValidParams(p)
    ensures var c := Started(p, enabled, start); var d := Ran(c, es);
            && Ordered(d) && d.params == p && PacingOk(p, d.out.pacingBps)
            && (es != [] && Advances(Ran(c, es[..|es| - 1]), es[|es| - 1]) ==>
                  && d.out.pacingBps != 0 && d.out.cwndBytes >= MIN_CWND
                  && (d.phase == ProbeRTT ==> d.out.cwndBytes == MIN_CWND))
    decreases |es|
  {
    var c := Started(p, enabled, start);
    StartOrdered(p, enabled, start);
    if es != [] {
      OutputsBounded(p, enabled, start, es[..|es| - 1]);
      StepOrdered(Ran(c, es[..|es| - 1]), es[|es| - 1]);
      StepOutput(Ran(c, es[..|es| - 1]), es[|es| - 1]);
    }
    hide Next;
    hide Ordered;
  }
}
