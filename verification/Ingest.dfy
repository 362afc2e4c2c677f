/** The receive path of a session: decode, reassemble, encode, hand on (session/session.go, ingest). */
module Ingest {
  import opened Wrappers
  import opened Bytes
  import opened Frames
  import opened Fragments
  import opened Reassembly
  import opened ReassemblyRuns
  import opened Redelivery
  import WireFormat

  /** What handleFrame is called with: the frame and the bytes to relay. */
  datatype Handed = Handed(frame: Frame, raw: seq<byte>)

  datatype Arrival = Arrival(raw: seq<byte>, now: int)

  /** An arrival that does not decode, or completes nothing, is dropped without a trace. */
  function Ingested(s: State, a: Arrival): (State, Option<Handed>) {
    match Decode(a.raw)
    case Err(_) => (s, None)
    case Ok(f) =>
      var (t, out) := Pushed(s, f, a.now);
      (t, if out.Done? then Some(Handed(out.frame, RelayBytes(out.frame, a.raw))) else None)
  }

  /** A message too long for one frame is relayed as the raw bytes of its last fragment. */
  function RelayBytes(f: Frame, raw: seq<byte>): seq<byte> {
    match Encoding(f) case Ok(enc) => enc case Err(_) => raw
  }

  /**
   * What is relayed: the bytes of the completed frame itself, or, if its payload is above 65535 bytes, the bytes that
   * have just arrived.
   */
  lemma RelayIs(s: State, a: Arrival)
    requires ValidState(s)
    ensures match Ingested(s, a).1
            case None => true
            case Some(h) =>
              if |h.frame.payload| > 65535 then h.raw == a.raw else WireFormat.FrameBytes(h.raw, h.frame)
  {
    hide Decode;
    hide Wire;
    if Decode(a.raw).Ok? {
      var f := Decode(a.raw).value;
      PushKeepsValid(s, f, a.now);
      var out := Pushed(s, f, a.now).1;
      hide Pushed;
      if out.Done? {
        WireFormat.EncodeAnswers(out.frame);
        if Encoding(out.frame).Ok? {
          WireFormat.EncodeWrites(out.frame);
        }
        hide WireFormat.FrameBytes;
      }
    }
  }

  class Session {
    const reasm: Reassembler
    var handed: seq<Handed>

    constructor (ttl: int, maxPayload: int)
      ensures fresh(reasm) && reasm.Valid() && reasm.items == map[] && handed == []
    {
      reasm := new Reassembler(ttl, maxPayload);
      handed := [];
    }

    method Ingest(raw: seq<byte>, now: int)
      requires reasm.Valid()
      modifies this, reasm
      ensures reasm.Valid()
      ensures var (t, h) := Ingested(old(reasm.Value()), Arrival(raw, now));
              && reasm.Value() == t
              && handed == if h.Some? then old(handed) + [h.value] else old(handed)
    {
      var r := Decode(raw);
      if r.Err? {
        return;
      }
      var out := reasm.Push(r.value, now);
      if !out.Done? {
        return;
      }
      var enc := Encode(out.frame);
      if enc.Err? {
        handed := handed + [Handed(out.frame, raw)];
        return;
      }
      handed := handed + [Handed(out.frame, enc.value)];
    }
  }

  // ---------- whole runs ----------

  function AfterArrivals(s: State, arr: seq<Arrival>): State
    decreases |arr|
  {
    if arr == [] then s else Ingested(AfterArrivals(s, arr[..|arr| - 1]), arr[|arr| - 1]).0
  }

  /** Everything handed on for message k. */
  function HandedOn(s: State, arr: seq<Arrival>, k: Key): seq<Handed>
    decreases |arr|
  {
    if arr == [] then []
    else
      var front := arr[..|arr| - 1];
      var h := Ingested(AfterArrivals(s, front), arr[|arr| - 1]).1;
      HandedOn(s, front, k) + (if h.Some? && KeyOf(h.value.frame) == k then [h.value] else [])
  }

  /** The reassembler events that the arrivals amount to. */
  function Pushes(arr: seq<Arrival>): seq<Event>
    decreases |arr|
  {
    if arr == [] then []
    else Pushes(arr[..|arr| - 1]) + Pushing(arr[|arr| - 1])
  }

  function Pushing(a: Arrival): seq<Event> {
    match Decode(a.raw) case Ok(f) => [Push(f, a.now)] case Err(_) => []
  }

  lemma {:induction false} ArrivalsArePushes(s: State, arr: seq<Arrival>)
    ensures AfterArrivals(s, arr) == After(s, Pushes(arr))
    decreases |arr|
  {
    hide Decode;
    hide Pushed;
    if arr != [] {
      var front, a := arr[..|arr| - 1], arr[|arr| - 1];
      ArrivalsArePushes(s, front);
      if Decode(a.raw).Ok? {
        var es := Pushes(front) + [Push(Decode(a.raw).value, a.now)];
        assert es[..|es| - 1] == Pushes(front);
      } else {
        assert Pushes(arr) == Pushes(front);
      }
    }
  }

  /**
   * Arrivals that carry the message base/payload cut into pieces of max bytes: whatever decodes to its key is the
   * encoding of one of its fragments, in any order and any number of times; anything else may come in between.
   */
  ghost predicate Carries(arr: seq<Arrival>, base: Frame, payload: seq<byte>, max: nat)
    requires Splittable(base, payload, max)
  {
    forall i :: 0 <= i < |arr| ==> CarriesOne(arr[i], base, payload, max)
  }

  ghost predicate CarriesOne(a: Arrival, base: Frame, payload: seq<byte>, max: nat)
    requires Splittable(base, payload, max)
  {
    Decode(a.raw).Ok? && KeyOf(Decode(a.raw).value) == KeyOf(base) ==> IsFragment(a.raw, base, payload, max)
  }

  /** No arrival makes the reassembler expire a pending entry of k. */
  ghost predicate NoneLost(s: State, arr: seq<Arrival>, k: Key) {
    Undisturbed(s, Pushes(arr), k)
  }

  ghost predicate IsFragment(raw: seq<byte>, base: Frame, payload: seq<byte>, max: nat)
    requires Splittable(base, payload, max)
  {
    exists f :: f in FragmentsOf(base, payload, max) && raw == Wire(f)
  }

  lemma FragmentDecodes(raw: seq<byte>, base: Frame, payload: seq<byte>, max: nat)
    requires Splittable(base, payload, max) && |payload| < 0x1_0000 && IsFragment(raw, base, payload, max)
    ensures Decode(raw).Ok? && Decode(raw).value in FragmentsOf(base, payload, max)
    ensures KeyOf(Decode(raw).value) == KeyOf(base)
  {
    var f :| f in FragmentsOf(base, payload, max) && raw == Wire(f);
    SameKey(base, payload, max, f);
    DecodeEncode(f);
    hide Wire;
    hide Decode;
    hide FragmentsOf;
  }

  lemma {:induction false} CarriesDelivers(
    arr: seq<Arrival>, base: Frame, payload: seq<byte>, max: nat)
    requires Splittable(base, payload, max) && |payload| < 0x1_0000 && Carries(arr, base, payload, max)
    ensures Only(Pushes(arr), KeyOf(base), FragmentsOf(base, payload, max))
    decreases |arr|
  {
    hide Decode;
    hide FragmentsOf;
    hide Splittable;
    hide IsFragment;
    if arr != [] {
      var a := arr[|arr| - 1];
      CarriesDelivers(arr[..|arr| - 1], base, payload, max);
      assert CarriesOne(a, base, payload, max);
      if IsFragment(a.raw, base, payload, max) {
        FragmentDecodes(a.raw, base, payload, max);
      }
    }
  }

  /** The indices of the fragments that have arrived. */
  function Arrived(arr: seq<Arrival>, k: Key): set<nat> {
    Seen(Pushes(arr), k)
  }

  /** One more arrival of the message: what Ingest makes of it is what the reassembler answers. */
  lemma LastArrival(s: State, arr: seq<Arrival>, base: Frame, payload: seq<byte>, max: nat)
    requires Splittable(base, payload, max) && KeyOf(base) !in s.items
    requires |payload| <= s.maxPay && |payload| < 0x1_0000
    requires arr != [] && Carries(arr, base, payload, max) && NoneLost(s, arr, KeyOf(base))
    requires IsFragment(arr[|arr| - 1].raw, base, payload, max)
    requires !(Below(|FragmentsOf(base, payload, max)|) <= Arrived(arr[..|arr| - 1], KeyOf(base)))
    ensures var h := Ingested(AfterArrivals(s, arr[..|arr| - 1]), arr[|arr| - 1]).1;
            h == if Below(|FragmentsOf(base, payload, max)|) <= Arrived(arr, KeyOf(base))
                 then Some(Handed(Whole(base, payload), Wire(Whole(base, payload)))) else None
  {
    var front, a := arr[..|arr| - 1], arr[|arr| - 1];
    FragmentDecodes(a.raw, base, payload, max);
    CarriesDelivers(arr, base, payload, max);
    ArrivalsArePushes(s, front);
    var es := Pushes(arr);
    assert es == Pushes(front) + [Push(Decode(a.raw).value, a.now)];
    assert es[..|es| - 1] == Pushes(front);
    hide Decode;
    hide FragmentsOf;
    ReassemblyUndoesSplit(s, es, base, payload, max);
    WholeEncodes(base, payload, max);
    hide Pushed;
    hide Encoding;
    hide Wire;
    hide Splittable;
  }

  lemma WholeEncodes(base: Frame, payload: seq<byte>, max: nat)
    requires Splittable(base, payload, max) && |payload| < 0x1_0000
    ensures Encoding(Whole(base, payload)) == Ok(Wire(Whole(base, payload)))
  {
    hide Wire;
  }

  /** Arrivals that are no fragment of the message hand on nothing under its key. */
  lemma OtherArrival(s: State, a: Arrival, base: Frame, payload: seq<byte>, max: nat)
    requires Splittable(base, payload, max) && CarriesOne(a, base, payload, max)
    requires !IsFragment(a.raw, base, payload, max)
    ensures var h := Ingested(s, a).1; h.Some? ==> KeyOf(h.value.frame) != KeyOf(base)
  {
    hide Decode;
    if Decode(a.raw).Ok? {
      hide Pushed;
      DoneKey(s, Decode(a.raw).value, a.now);
    }
  }

  lemma DoneKey(s: State, f: Frame, now: int)
    ensures Pushed(s, f, now).1.Done? ==> KeyOf(Pushed(s, f, now).1.frame) == KeyOf(f)
  {
  }

  lemma {:induction false} NothingYet(s: State, arr: seq<Arrival>, base: Frame, payload: seq<byte>, max: nat)
    requires Splittable(base, payload, max) && KeyOf(base) !in s.items
    requires |payload| <= s.maxPay && |payload| < 0x1_0000
    requires Carries(arr, base, payload, max) && NoneLost(s, arr, KeyOf(base))
    requires !(Below(|FragmentsOf(base, payload, max)|) <= Arrived(arr, KeyOf(base)))
    ensures HandedOn(s, arr, KeyOf(base)) == []
    decreases |arr|
  {
    if arr != [] {
      var front, a := arr[..|arr| - 1], arr[|arr| - 1];
      ArrivedGrows(arr, KeyOf(base));
      NoneLostFront(s, arr, KeyOf(base));
      hide NoneLost;
      hide FragmentsOf;
      hide Splittable;
      hide Ingested;
      hide Arrived;
      NothingYet(s, front, base, payload, max);
      if IsFragment(a.raw, base, payload, max) {
        LastArrival(s, arr, base, payload, max);
      } else {
        OtherArrival(AfterArrivals(s, front), a, base, payload, max);
      }
    }
  }

  lemma NoneLostFront(s: State, arr: seq<Arrival>, k: Key)
    requires arr != [] && NoneLost(s, arr, k)
    ensures NoneLost(s, arr[..|arr| - 1], k)
  {
    hide Decode;
    hide Undisturbed;
    var front, a := arr[..|arr| - 1], arr[|arr| - 1];
    if Decode(a.raw).Ok? {
      var es := Pushes(arr);
      assert es == Pushes(front) + [Push(Decode(a.raw).value, a.now)] && es[..|es| - 1] == Pushes(front);
      UndisturbedFront(s, es, k);
    } else {
      assert Pushes(arr) == Pushes(front);
    }
  }

  /** On a reliable channel nothing expires; on another, nothing that comes within ttl does. */
  lemma {:induction false} InTimeNoneLost(s: State, arr: seq<Arrival>, k: Key, t0: int)
    requires k !in s.items
    requires Reliable(k.ch) || forall i :: 0 <= i < |arr| ==> t0 <= arr[i].now <= t0 + s.ttl
    ensures NoneLost(s, arr, k)
  {
    PushesInTime(arr, k, s.ttl, t0);
    InTimeUndisturbed(s, Pushes(arr), k, t0);
  }

  lemma {:induction false} PushesInTime(arr: seq<Arrival>, k: Key, ttl: int, t0: int)
    requires Reliable(k.ch) || forall i :: 0 <= i < |arr| ==> t0 <= arr[i].now <= t0 + ttl
    ensures InTime(Pushes(arr), k, ttl, t0)
    decreases |arr|
  {
    hide Decode;
    if arr != [] {
      PushesInTime(arr[..|arr| - 1], k, ttl, t0);
      assert Reliable(k.ch) || t0 <= arr[|arr| - 1].now <= t0 + ttl;
    }
  }

  lemma ArrivedGrows(arr: seq<Arrival>, k: Key)
    requires arr != []
    ensures Arrived(arr[..|arr| - 1], k) <= Arrived(arr, k)
  {
    hide Decode;
    var front, a := arr[..|arr| - 1], arr[|arr| - 1];
    if Decode(a.raw).Ok? {
      var es := Pushes(arr);
      assert es[..|es| - 1] == Pushes(front);
    } else {
      assert Pushes(arr) == Pushes(front);
    }
  }

  /**
   * End to end. The encoded fragments of a message of at most 65535 bytes, in any order, repeated, and among any
   * other traffic that lets no pending entry of the message expire: when the last missing one arrives, ingest has
   * handed on for this message exactly once, the whole frame together with its own encoding.
   */
  lemma MessageArrivesOnce(s: State, arr: seq<Arrival>, base: Frame, payload: seq<byte>, max: nat)
    requires Splittable(base, payload, max) && KeyOf(base) !in s.items
    requires |payload| <= s.maxPay && |payload| < 0x1_0000
    requires arr != [] && Carries(arr, base, payload, max) && NoneLost(s, arr, KeyOf(base))
    requires IsFragment(arr[|arr| - 1].raw, base, payload, max)
    requires Below(|FragmentsOf(base, payload, max)|) <= Arrived(arr, KeyOf(base))
    requires !(Below(|FragmentsOf(base, payload, max)|) <= Arrived(arr[..|arr| - 1], KeyOf(base)))
    ensures HandedOn(s, arr, KeyOf(base)) == [Handed(Whole(base, payload), Wire(Whole(base, payload)))]
  {
    hide FragmentsOf;
    hide Splittable;
    hide Ingested;
    hide Arrived;
    hide Wire;
    hide NoneLost;
    hide Whole;
    NoneLostFront(s, arr, KeyOf(base));
    NothingYet(s, arr[..|arr| - 1], base, payload, max);
    LastArrival(s, arr, base, payload, max);
    WholeKey(base, payload);
  }

  lemma WholeKey(base: Frame, payload: seq<byte>)
    ensures KeyOf(Whole(base, payload)) == KeyOf(base)
  {
  }

  // ---------- how often ----------

  /** What ingest hands on is what the reassembler delivers, each message with its encoding when it has one. */
  lemma {:induction false} HandedIsDelivered(s: State, arr: seq<Arrival>, k: Key)
    ensures var h, d := HandedOn(s, arr, k), Delivered(s, Pushes(arr), k);
            |h| == |d| && forall i :: 0 <= i < |h| ==> HandedFor(h[i], d[i])
    decreases |arr|
  {
    hide Decode;
    hide Pushed;
    hide HandedFor;
    if arr != [] {
      var front, a := arr[..|arr| - 1], arr[|arr| - 1];
      HandedIsDelivered(s, front, k);
      ArrivalsArePushes(s, front);
      if Decode(a.raw).Ok? {
        var f := Decode(a.raw).value;
        var es := Pushes(front) + [Push(f, a.now)];
        assert es == Pushes(arr) && es[..|es| - 1] == Pushes(front);
        DoneKey(AfterArrivals(s, front), f, a.now);
        OneHanded(AfterArrivals(s, front), a, f);
      } else {
        assert Pushes(arr) == Pushes(front);
      }
    }
  }

  ghost predicate HandedFor(h: Handed, f: Frame) {
    h.frame == f && (Encoding(f).Ok? ==> h.raw == Encoding(f).value)
  }

  lemma OneHanded(s: State, a: Arrival, f: Frame)
    requires Decode(a.raw) == Ok(f)
    ensures var h, out := Ingested(s, a).1, Pushed(s, f, a.now).1;
            (h.Some? <==> out.Done?) && (h.Some? ==> HandedFor(h.value, out.frame))
  {
    hide Decode;
    hide Encoding;
    hide Pushed;
  }

  lemma {:induction false} PushesConcat(a: seq<Arrival>, b: seq<Arrival>)
    ensures Pushes(a + b) == Pushes(a) + Pushes(b)
    decreases |b|
  {
    hide Decode;
    if b == [] {
      assert a + b == a;
    } else {
      assert (a + b)[..|a + b| - 1] == a + b[..|b| - 1];
      PushesConcat(a, b[..|b| - 1]);
    }
  }

  /** A cut of the pushes is a cut of the arrivals. */
  lemma {:induction false} CutOfPushes(arr: seq<Arrival>, j: nat) returns (i: nat)
    requires j <= |Pushes(arr)|
    ensures i <= |arr| && Pushes(arr[..i]) == Pushes(arr)[..j] && Pushes(arr[i..]) == Pushes(arr)[j..]
    decreases |arr|
  {
    hide Pushes;
    PushesOf(arr);
    if j == |Pushes(arr)| {
      i := |arr|;
      assert arr[..i] == arr && arr[i..] == [];
      PushesOf([]);
    } else {
      var front, last := arr[..|arr| - 1], [arr[|arr| - 1]];
      i := CutOfPushes(front, j);
      assert arr[..i] == front[..i] && arr[i..] == front[i..] + last;
      PushesConcat(front[i..], last);
      PushesConcat(front, last);
      assert front + last == arr;
    }
  }

  lemma PushesOf(arr: seq<Arrival>)
    ensures arr == [] ==> Pushes(arr) == []
    ensures arr != [] ==> |Pushes(arr)| <= |Pushes(arr[..|arr| - 1])| + 1
  {
  }

  /** Every fragment of the message is among the arrivals. */
  ghost predicate AllArrive(arr: seq<Arrival>, base: Frame, payload: seq<byte>, max: nat)
    requires Splittable(base, payload, max)
  {
    Below(|FragmentsOf(base, payload, max)|) <= Arrived(arr, KeyOf(base))
  }

  ghost predicate AllArriveTwice(arr: seq<Arrival>, base: Frame, payload: seq<byte>, max: nat, i: nat)
    requires Splittable(base, payload, max)
  {
    i <= |arr| && AllArrive(arr[..i], base, payload, max) && AllArrive(arr[i..], base, payload, max)
  }

  /**
   * Whatever the clock: ingest hands a message of at most 65535 bytes on only as the whole frame with its own
   * encoding, only if every fragment arrives, and more than once only if at some point all of them have arrived before
   * and all of them arrive again after.
   */
  lemma HandedOnAtMostOnce(s: State, arr: seq<Arrival>, base: Frame, payload: seq<byte>, max: nat)
    requires Splittable(base, payload, max) && KeyOf(base) !in s.items
    requires |payload| <= s.maxPay && |payload| < 0x1_0000 && Carries(arr, base, payload, max)
    ensures var h := HandedOn(s, arr, KeyOf(base));
            && (forall i :: 0 <= i < |h| ==> h[i] == Handed(Whole(base, payload), Wire(Whole(base, payload))))
            && (|h| >= 1 ==> AllArrive(arr, base, payload, max))
            && (|h| >= 2 ==> exists i: nat :: AllArriveTwice(arr, base, payload, max, i))
  {
    hide Splittable;
    hide FragmentsOf;
    hide Wire;
    hide Whole;
    hide Delivered;
    hide Carries;
    hide Seen;
    hide Cuts;
    hide Copies;
    hide Pushes;
    hide HandedOn;
    hide HandedFor;
    hide FullTwice;
    hide AllArriveTwice;
    hide Shows;
    hide Timed;
    var k, n, es := KeyOf(base), |FragmentsOf(base, payload, max)|, Pushes(arr);
    var d, h := Delivered(s, es, k), HandedOn(s, arr, k);
    CarriesDelivers(arr, base, payload, max);
    DeliveredByTimer(s, es, base, payload, max);
    HandedIsDelivered(s, arr, k);
    CopiesAre(Whole(base, payload), |d|);
    forall i | 0 <= i < |h| ensures h[i] == Handed(Whole(base, payload), Wire(Whole(base, payload))) {
      HandedWhole(h[i], base, payload, max);
    }
    AtLeastOne(base, payload, max);
    OnlyTotals(es, base, payload, max);
    hide Only;
    HandedOnAtMost(s, es, k, n, 1);
    HandedOnAtMost(s, es, k, n, 2);
    OneCut(es, k, n);
    TwoCuts(es, k, n);
    SameCuts(arr, base, payload, max);
  }

  lemma OnlyTotals(es: seq<Event>, base: Frame, payload: seq<byte>, max: nat)
    requires Splittable(base, payload, max) && Only(es, KeyOf(base), FragmentsOf(base, payload, max))
    ensures forall i :: 0 <= i < |es| && On(es[i], KeyOf(base)) ==>
                          es[i].f.fragTotal == |FragmentsOf(base, payload, max)|
  {
    hide FragmentsOf;
    hide Splittable;
    forall i | 0 <= i < |es| && On(es[i], KeyOf(base)) ensures es[i].f.fragTotal == |FragmentsOf(base, payload, max)| {
      SameKey(base, payload, max, es[i].f);
    }
  }

  /**
   * And as long as no pending entry of the message expires: exactly once if and only if every fragment arrives and at
   * no point have all of them arrived before and all of them arrive again after.
   */
  lemma HandedOnOnceIff(s: State, arr: seq<Arrival>, base: Frame, payload: seq<byte>, max: nat)
    requires Splittable(base, payload, max) && KeyOf(base) !in s.items
    requires |payload| <= s.maxPay && |payload| < 0x1_0000
    requires Carries(arr, base, payload, max) && NoneLost(s, arr, KeyOf(base))
    ensures var h := HandedOn(s, arr, KeyOf(base));
            && (forall i :: 0 <= i < |h| ==> h[i] == Handed(Whole(base, payload), Wire(Whole(base, payload))))
            && (|h| == 1 <==>
                  AllArrive(arr, base, payload, max) && !exists i: nat :: AllArriveTwice(arr, base, payload, max, i))
  {
    hide Splittable;
    hide FragmentsOf;
    hide Wire;
    hide Whole;
    hide Encoding;
    hide Delivered;
    hide Undisturbed;
    hide Only;
    hide Carries;
    hide ValidState;
    hide Seen;
    hide Cuts;
    hide Copies;
    hide Pushes;
    hide HandedOn;
    hide HandedFor;
    hide FullTwice;
    hide AllArriveTwice;
    var k, es := KeyOf(base), Pushes(arr);
    var d, h := Delivered(s, es, k), HandedOn(s, arr, k);
    CarriesDelivers(arr, base, payload, max);
    HandedIsDelivered(s, arr, k);
    HandedOnPerStretch(s, es, base, payload, max, 1);
    CopiesAre(Whole(base, payload), |d|);
    forall i | 0 <= i < |h| ensures h[i] == Handed(Whole(base, payload), Wire(Whole(base, payload))) {
      HandedWhole(h[i], base, payload, max);
    }
    ExactlyOnceIff(s, es, base, payload, max);
    SameCuts(arr, base, payload, max);
    CopyOfOne(Whole(base, payload));
  }

  lemma HandedWhole(h: Handed, base: Frame, payload: seq<byte>, max: nat)
    requires Splittable(base, payload, max) && |payload| < 0x1_0000 && HandedFor(h, Whole(base, payload))
    ensures h == Handed(Whole(base, payload), Wire(Whole(base, payload)))
  {
    WholeEncodes(base, payload, max);
    hide Splittable;
    hide Encoding;
    hide Wire;
  }

  lemma CopyOfOne<T>(x: T)
    ensures Copies(x, 1) == [x]
  {
    assert Copies(x, 0) == [];
  }

  lemma {:induction false} CopiesAre<T>(x: T, n: nat)
    ensures forall i :: 0 <= i < n ==> Copies(x, n)[i] == x
  {
    if n > 0 {
      CopiesAre(x, n - 1);
    }
  }

  lemma SameCuts(arr: seq<Arrival>, base: Frame, payload: seq<byte>, max: nat)
    requires Splittable(base, payload, max)
    ensures var es, all, k := Pushes(arr), Below(|FragmentsOf(base, payload, max)|), KeyOf(base);
            (exists i: nat :: AllArriveTwice(arr, base, payload, max, i)) <==> exists j: nat :: FullTwice(es, k, all, j)
  {
    hide Splittable;
    hide FragmentsOf;
    hide Seen;
    hide Pushes;
    var es, all, k := Pushes(arr), Below(|FragmentsOf(base, payload, max)|), KeyOf(base);
    hide Below;
    hide AllArriveTwice;
    hide FullTwice;
    if i: nat :| AllArriveTwice(arr, base, payload, max, i) {
      CutsMatch(arr, base, payload, max, i, |Pushes(arr[..i])|);
    }
    if j: nat :| FullTwice(es, k, all, j) {
      var i := CutOfPushes(arr, j);
      CutsMatch(arr, base, payload, max, i, j);
    }
  }

  lemma CutsMatch(arr: seq<Arrival>, base: Frame, payload: seq<byte>, max: nat, i: nat, j: nat)
    requires Splittable(base, payload, max) && i <= |arr| && j == |Pushes(arr[..i])|
    ensures var es, all, k := Pushes(arr), Below(|FragmentsOf(base, payload, max)|), KeyOf(base);
            AllArriveTwice(arr, base, payload, max, i) <==> FullTwice(es, k, all, j)
  {
    hide Splittable;
    hide FragmentsOf;
    hide Seen;
    hide Pushes;
    hide Below;
    PushesConcat(arr[..i], arr[i..]);
    assert arr[..i] + arr[i..] == arr;
    assert Pushes(arr)[..j] == Pushes(arr[..i]) && Pushes(arr)[j..] == Pushes(arr[i..]);
  }
}
