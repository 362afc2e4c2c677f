/** The application-layer BBR controller: congestion/bbr/bbr.go, state.go. Gains are exact reals, times nanoseconds. */
module Bbr {
  import opened RingFilters

  datatype Phase = Startup | Drain | ProbeBW | ProbeRTT

  datatype Params = Params(
    interval: int, duration: int, startupGain: real, drainGain: real, window: int, minPacing: nat, maxPacing: nat)

  /** What config.go checks. */
  ghost predicate ValidParams(p: Params) {
    p.startupGain > 1.0 && 0.0 < p.drainGain < 1.0 && 1 <= p.minPacing < p.maxPacing
  }

  datatype Sample = Sample(minRTT: int, smoothedRTT: int, bytesSent: nat, bytesReceived: nat, nowNs: int)

  datatype Output = Output(
    phase: Phase, pacingBps: nat, cwndBytes: nat, btlBwBps: nat, rtPropNs: int,
    pacingGain: real, cwndGain: real, cycleIndex: nat, filledPipe: bool, roundCount: nat)

  /** The controller's state; rates and rtts are everything ever added to the two filters. */
  datatype Control = Control(
    params: Params, enabled: bool, phase: Phase, rates: seq<int>, rtts: seq<int>,
    pacingGain: real, cwndGain: real, cycle: nat, filled: bool, rounds: nat, fullBw: nat, fullBwCnt: nat,
    lastSent: nat, lastRecv: nat, lastNs: int, probeDue: int, probeEnd: int, out: Output)

  const CYCLE: seq<real> := [1.25, 0.75, 1.0, 1.0, 1.0, 1.0, 1.0, 1.0]
  const PLATEAU: nat := 3
  const MIN_CWND: nat := 4800
  const SECOND: nat := 1_000_000_000

  function AtLeast2(n: int): nat {
    if n < 2 then 2 else n
  }

  function RateWindow(p: Params): nat {
    AtLeast2(p.window)
  }

  function RttWindow(p: Params): nat {
    AtLeast2(if p.window > 8 then p.window else 8)
  }

  /** delta: growth of a counter, zero when it went back. */
  function Delta(cur: nat, prev: nat): nat {
    if cur >= prev then cur - prev else 0
  }

  function Nonzero(a: int, b: int): int {
    if a > 0 then a else b
  }

  function Interval(c: Control, s: Sample): (dt: int)
    ensures dt >= 1
  {
    if s.nowNs - c.lastNs <= 0 then 1_000_000 else s.nowNs - c.lastNs
  }

  function Delivered(c: Control, s: Sample): nat {
    if Delta(s.bytesReceived, c.lastRecv) == 0 then Delta(s.bytesSent, c.lastSent)
    else Delta(s.bytesReceived, c.lastRecv)
  }

  const WORD: nat := 0x1_0000_0000_0000_0000

  /** The product is uint64 arithmetic, and wraps. */
  function PerSecond(delivered: nat, dt: int): nat
    requires dt >= 1
  {
    delivered * SECOND % WORD / dt
  }

  /** The measured rate of a sample, in bytes a second. */
  function Rate(c: Control, s: Sample): nat {
    PerSecond(Delivered(c, s), Interval(c, s))
  }

  /**
   * The measured rate never exceeds the true one; and, the interval being an int64, it is the true one exactly when the
   * product does not wrap: below 18446744074 delivered bytes.
   */
  lemma RateTrueIff(delivered: nat, dt: int)
    requires 1 <= dt < WORD
    ensures PerSecond(delivered, dt) <= delivered * SECOND / dt
    ensures PerSecond(delivered, dt) == delivered * SECOND / dt <==> delivered < 18446744074
  {
    var x := delivered * SECOND;
    var r := x % WORD;
    assert delivered < 18446744074 <==> x < WORD;
    DivMonotone(r, x, dt);
    if x >= WORD {
      assert x == x / WORD * WORD + r && x / WORD >= 1;
      assert x / WORD * WORD >= WORD;
      DivStep(r, dt);
      DivMonotone(r + dt, x, dt);
    }
  }

  lemma DivMonotone(a: nat, b: nat, d: int)
    requires a <= b && d >= 1
    ensures a / d <= b / d
  {
    if a / d > b / d {
      Product(d, b / d + 1, a / d);
      assert false;
    }
  }

  lemma DivStep(a: nat, d: int)
    requires d >= 1
    ensures (a + d) / d == a / d + 1
  {
    Quotient(a + d, a / d + 1, a % d, d);
  }

  lemma Quotient(x: nat, q: nat, r: nat, d: int)
    requires x == d * q + r && r < d
    ensures x / d == q
  {
    if x / d < q {
      Product(d, x / d + 1, q);
    } else if x / d > q {
      Product(d, q + 1, x / d);
    }
  }

  lemma Product(d: nat, x: nat, y: nat)
    requires x <= y
    ensures d * x <= d * y
  {
  }

  function BtlBw(c: Control): nat {
    MaxOf(LastN(c.rates, RateWindow(c.params)))
  }

  /** 20 ms stands in while there is no positive round-trip time. */
  function RtProp(c: Control): (rt: nat)
    ensures rt >= 1
  {
    var m := LeastPositiveOf(LastN(c.rtts, RttWindow(c.params)));
    if m == 0 then 20_000_000 else m
  }

  function Bdp(btl: nat, rtp: nat): nat {
    btl * rtp / SECOND
  }

  /** uint64(float64(x) * gain); no gain in use is negative. */
  function Scaled(x: nat, gain: real): nat {
    if gain < 0.0 then 0 else ScaledUp(x, gain)
  }

  function ScaledUp(x: nat, gain: real): nat
    requires gain >= 0.0
  {
    assert x as real * gain >= 0.0;
    (x as real * gain).Floor
  }

  /** uint64(float64(fullBw) * 1.25), the threshold for growth. */
  function Growth(bw: nat): nat {
    5 * bw / 4
  }

  function GainsOf(p: Params, phase: Phase): (real, real) {
    match phase
    case Startup => (p.startupGain, p.startupGain)
    case Drain => (p.drainGain, 2.0)
    case ProbeBW => (1.0, 2.0)
    case ProbeRTT => (1.0, 1.0)
  }

  /** enter. */
  function Entered(c: Control, phase: Phase): Control {
    var (p, w) := GainsOf(c.params, phase);
    c.(phase := phase, pacingGain := p, cwndGain := w)
  }

  // advance, phase by phase; rounds has been counted already.

  function StartupStep(c: Control, btl: nat): Control {
    var d := c.(pacingGain := c.params.startupGain, cwndGain := c.params.startupGain);
    if btl == 0 then d
    else
      var e := if btl > Growth(c.fullBw) then d.(fullBw := btl, fullBwCnt := 0) else d.(fullBwCnt := c.fullBwCnt + 1);
      if e.fullBwCnt >= PLATEAU then Entered(e.(filled := true), Drain) else e
  }

  function DrainStep(c: Control, s: Sample, btl: nat, rtp: nat): Control {
    var d := c.(pacingGain := c.params.drainGain, cwndGain := 2.0);
    if Delta(s.bytesSent, s.bytesReceived) <= Bdp(btl, rtp) || c.rounds > 8 then Entered(d, ProbeBW) else d
  }

  function ProbeBWStep(c: Control, now: int): Control {
    var d := c.(cwndGain := 2.0);
    if now >= c.probeDue then Entered(d.(probeEnd := now + c.params.duration), ProbeRTT)
    else d.(pacingGain := CYCLE[c.cycle % 8], cycle := if c.rounds % 2 == 0 then (c.cycle + 1) % 8 else c.cycle)
  }

  function ProbeRTTStep(c: Control, now: int): Control {
    var d := c.(pacingGain := 1.0, cwndGain := 1.0);
    if now >= c.probeEnd then
      Entered(d.(probeDue := now + c.params.interval), if c.filled then ProbeBW else Startup)
    else d
  }

  function Advanced(c: Control, s: Sample, btl: nat, rtp: nat): Control {
    var d := c.(rounds := c.rounds + 1);
    match d.phase
    case Startup => StartupStep(d, btl)
    case Drain => DrainStep(d, s, btl, rtp)
    case ProbeBW => ProbeBWStep(d, s.nowNs)
    case ProbeRTT => ProbeRTTStep(d, s.nowNs)
  }

  function Clamp(x: nat, lo: nat, hi: nat): nat {
    var y := if x < lo then lo else x;
    if y > hi then hi else y
  }

  /** The output computed after advance. */
  function Computed(c: Control, btl: nat, rtp: nat): Output {
    var pacing := Clamp(Scaled(if btl > 1 then btl else 1, c.pacingGain), c.params.minPacing, c.params.maxPacing);
    var bdp := if Bdp(btl, rtp) < MIN_CWND then MIN_CWND else Bdp(btl, rtp);
    var cwnd := if c.phase == ProbeRTT then MIN_CWND else Scaled(bdp, c.cwndGain);
    Output(c.phase, pacing, cwnd, btl, rtp,
           c.pacingGain, c.cwndGain, c.cycle, c.filled, c.rounds)
  }

  /** The counters and the filters after a measuring sample. */
  function Measured(c: Control, s: Sample): Control {
    var bps, rt := Rate(c, s), Nonzero(s.minRTT, s.smoothedRTT);
    c.(lastSent := s.bytesSent, lastRecv := s.bytesReceived, lastNs := s.nowNs,
       rates := if bps > 0 then c.rates + [bps] else c.rates,
       rtts := if rt > 0 then c.rtts + [rt] else c.rtts)
  }

  /** The first sample only sets the baselines. */
  function FirstSample(c: Control, s: Sample): Control {
    var d := c.(lastNs := s.nowNs, lastSent := s.bytesSent, lastRecv := s.bytesReceived,
                rtts := c.rtts + [Nonzero(s.minRTT, s.smoothedRTT)]);
    d.(out := c.out.(rtPropNs := LeastPositiveOf(LastN(d.rtts, RttWindow(c.params)))))
  }

  function OpenOutput(c: Control): Output {
    Output(c.phase, c.params.maxPacing, c.params.maxPacing, 0, 0, 1.0, 1.0, 0, false, 0)
  }

  /** OnSample. */
  function Sampled(c: Control, s: Sample): Control {
    if !c.enabled then c.(out := OpenOutput(c))
    else if c.lastNs == 0 then FirstSample(c, s)
    else
      var m := Measured(c, s);
      var btl, rtp := BtlBw(m), RtProp(m);
      var d := Advanced(m, s, btl, rtp);
      d.(out := Computed(d, btl, rtp))
  }

  /** New, at time start. */
  function Started(p: Params, enabled: bool, start: int): Control {
    var g := p.startupGain;
    Control(p, enabled, Startup, [], [], g, g, 0, false, 0, 0, 0, 0, 0, 0, start + p.interval, 0,
            Output(Startup, 0, 0, 0, 0, g, g, 0, false, 0))
  }

  /** The controller object. */
  class Controller {
    const params: Params
    const btlbw: MaxFilter
    const rtprop: MinFilter
    var enabled: bool
    var phase: Phase
    var pacingGain: real
    var cwndGain: real
    var cycle: nat
    var filled: bool
    var rounds: nat
    var fullBw: nat
    var fullBwCnt: nat
    var lastSent: nat
    var lastRecv: nat
    var lastNs: int
    var probeDue: int
    var probeEnd: int
    var out: Output

    ghost function Value(): Control
      reads this, btlbw, rtprop
    {
      Control(params, enabled, phase, btlbw.history, rtprop.history, pacingGain, cwndGain, cycle, filled, rounds,
              fullBw, fullBwCnt, lastSent, lastRecv, lastNs, probeDue, probeEnd, out)
    }

    ghost predicate Valid()
      reads this, btlbw, btlbw.vals, rtprop, rtprop.vals
    {
      && btlbw.Valid() && rtprop.Valid() && btlbw.vals != rtprop.vals
      && btlbw.window == RateWindow(params) && rtprop.window == RttWindow(params)
    }

    constructor (params: Params, enabled: bool, start: int)
      ensures Valid() && Value() == Started(params, enabled, start)
      ensures fresh(btlbw) && fresh(btlbw.vals) && fresh(rtprop) && fresh(rtprop.vals)
    {
      this.params, this.enabled := params, enabled;
      phase := Startup;
      var b := new MaxFilter(params.window);
      var r := new MinFilter(if params.window > 8 then params.window else 8);
      btlbw, rtprop := b, r;
      pacingGain, cwndGain := params.startupGain, params.startupGain;
      cycle, filled, rounds, fullBw, fullBwCnt := 0, false, 0, 0, 0;
      lastSent, lastRecv, lastNs := 0, 0, 0;
      probeDue, probeEnd := start + params.interval, 0;
      out := Output(Startup, 0, 0, 0, 0, params.startupGain, params.startupGain, 0, false, 0);
    }

    method SetEnabled(on: bool)
      requires Valid()
      modifies this`enabled
      ensures Valid() && Value() == old(Value()).(enabled := on)
    {
      enabled := on;
    }

    method Enter(st: Phase)
      modifies this`phase, this`pacingGain, this`cwndGain
      ensures Value() == Entered(old(Value()), st)
    {
      phase := st;
      match st {
        case Startup =>
          pacingGain, cwndGain := params.startupGain, params.startupGain;
        case Drain =>
          pacingGain, cwndGain := params.drainGain, 2.0;
        case ProbeBW =>
          pacingGain, cwndGain := 1.0, 2.0;
        case ProbeRTT =>
          pacingGain, cwndGain := 1.0, 1.0;
      }
    }

    method Advance(s: Sample, btl: nat, rtp: nat)
      modifies this`phase, this`pacingGain, this`cwndGain, this`cycle, this`filled, this`rounds,
               this`fullBw, this`fullBwCnt, this`probeDue, this`probeEnd
      ensures Value() == Advanced(old(Value()), s, btl, rtp)
    {
      hide StartupStep;
      hide DrainStep;
      hide ProbeBWStep;
      hide ProbeRTTStep;
      rounds := rounds + 1;
      match phase {
        case Startup => InStartup(btl);
        case Drain => InDrain(s, btl, rtp);
        case ProbeBW => InProbeBW(s.nowNs);
        case ProbeRTT => InProbeRTT(s.nowNs);
      }
    }

    method InStartup(btl: nat)
      modifies this`phase, this`pacingGain, this`cwndGain, this`filled, this`fullBw, this`fullBwCnt
      ensures Value() == StartupStep(old(Value()), btl)
    {
      hide Growth;
      pacingGain, cwndGain := params.startupGain, params.startupGain;
      if btl > 0 {
        if btl > Growth(fullBw) {
          fullBw, fullBwCnt := btl, 0;
        } else {
          fullBwCnt := fullBwCnt + 1;
        }
        if fullBwCnt >= PLATEAU {
          filled := true;
          Enter(Drain);
        }
      }
    }

    method InDrain(s: Sample, btl: nat, rtp: nat)
      modifies this`phase, this`pacingGain, this`cwndGain
      ensures Value() == DrainStep(old(Value()), s, btl, rtp)
    {
      pacingGain, cwndGain := params.drainGain, 2.0;
      var inflight := Delta(s.bytesSent, s.bytesReceived);
      if inflight <= Bdp(btl, rtp) || rounds > 8 {
        Enter(ProbeBW);
      }
    }

    method InProbeBW(now: int)
      modifies this`phase, this`pacingGain, this`cwndGain, this`cycle, this`probeEnd
      ensures Value() == ProbeBWStep(old(Value()), now)
    {
      cwndGain := 2.0;
      if now >= probeDue {
        probeEnd := now + params.duration;
        Enter(ProbeRTT);
        return;
      }
      pacingGain := CYCLE[cycle % 8];
      if rounds % 2 == 0 {
        cycle := (cycle + 1) % 8;
      }
    }

    method InProbeRTT(now: int)
      modifies this`phase, this`pacingGain, this`cwndGain, this`probeDue
      ensures Value() == ProbeRTTStep(old(Value()), now)
    {
      pacingGain, cwndGain := 1.0, 1.0;
      if now >= probeEnd {
        probeDue := now + params.interval;
        if filled {
          Enter(ProbeBW);
        } else {
          Enter(Startup);
        }
      }
    }

    method OnSample(s: Sample) returns (o: Output)
      requires Valid()
      modifies this, btlbw, btlbw.vals, rtprop, rtprop.vals
      ensures Valid() && Value() == Sampled(old(Value()), s) && o == out
    {
      hide Measured;
      hide Advanced;
      hide Computed;
      if !enabled {
        out := Output(phase, params.maxPacing, params.maxPacing, 0, 0, 1.0, 1.0, 0, false, 0);
        return out;
      }
      if lastNs == 0 {
        Baseline(s);
        hide FirstSample;
        return out;
      }
      Refresh(s);
      hide Sampled;
      o := out;
    }

    /** The first sample. */
    method Baseline(s: Sample)
      requires Valid()
      modifies this`lastNs, this`lastSent, this`lastRecv, this`out, rtprop, rtprop.vals
      ensures Valid() && Value() == FirstSample(old(Value()), s)
    {
      hide RingHolds;
      hide LeastPositiveOf;
      hide IsLeastPositive;
      hide LastN;
      lastNs, lastSent, lastRecv := s.nowNs, s.bytesSent, s.bytesReceived;
      var least := rtprop.Add(Nonzero(s.minRTT, s.smoothedRTT));
      out := out.(rtPropNs := least);
    }

    /** The rest of OnSample, when there is an earlier sample to measure against. */
    method Refresh(s: Sample)
      requires Valid() && enabled && lastNs != 0
      modifies this, btlbw, btlbw.vals, rtprop, rtprop.vals
      ensures Valid() && Value() == Sampled(old(Value()), s)
    {
      ghost var c := Value();
      var _, _ := Measure(s);
      hide Measured;
      ghost var m := Value();
      var btl, rtp := Estimates();
      hide Valid;
      hide Advanced;
      hide BtlBw;
      hide RtProp;
      assert btlbw.Valid() && rtprop.Valid();
      Advance(s, btl, rtp);
      out := Decide(btl, rtp);
      hide Computed;
    }

    method Estimates() returns (btl: nat, rtp: nat)
      requires Valid()
      ensures btl == BtlBw(Value()) && rtp == RtProp(Value())
    {
      hide RingHolds;
      btl := btlbw.Max();
      rtp := rtprop.Min();
      if rtp == 0 {
        rtp := 20_000_000;
      }
    }

    /** The counters, and the two filters. */
    method Measure(s: Sample) returns (bps: nat, rt: int)
      requires Valid()
      modifies this`lastSent, this`lastRecv, this`lastNs, btlbw, btlbw.vals, rtprop, rtprop.vals
      ensures Valid() && Value() == Measured(old(Value()), s)
      ensures bps == Rate(old(Value()), s) && rt == Nonzero(s.minRTT, s.smoothedRTT)
    {
      hide PerSecond;
      hide RingHolds;
      hide MaxOf;
      hide LeastPositiveOf;
      hide IsMax;
      hide IsLeastPositive;
      var dt := s.nowNs - lastNs;
      if dt <= 0 {
        dt := 1_000_000;
      }
      var sent := Delta(s.bytesSent, lastSent);
      var recv := Delta(s.bytesReceived, lastRecv);
      lastSent, lastRecv, lastNs := s.bytesSent, s.bytesReceived, s.nowNs;
      var delivered := recv;
      if delivered == 0 {
        delivered := sent;
      }
      bps := PerSecond(delivered, dt);
      if bps > 0 {
        var _ := btlbw.Add(bps);
      }
      rt := Nonzero(s.minRTT, s.smoothedRTT);
      if rt > 0 {
        var _ := rtprop.Add(rt);
      }
    }

    /** Pacing and window from the new state. */
    method Decide(btl: nat, rtp: nat) returns (o: Output)
      ensures o == Computed(Value(), btl, rtp)
    {
      var pacing := Scaled(if btl > 1 then btl else 1, pacingGain);
      if pacing < params.minPacing {
        pacing := params.minPacing;
      }
      if pacing > params.maxPacing {
        pacing := params.maxPacing;
      }
      var bdp := Bdp(btl, rtp);
      if bdp < MIN_CWND {
        bdp := MIN_CWND;
      }
      var cwnd := Scaled(bdp, cwndGain);
      if phase == ProbeRTT {
        cwnd := MIN_CWND;
      }
      o := Output(phase, pacing, cwnd, btl, rtp, pacingGain, cwndGain, cycle, filled, rounds);
    }

    method Snapshot() returns (o: Output)
      ensures o == out
    {
      o := out;
    }
  }
}
