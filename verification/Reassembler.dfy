/** Collecting fragments into messages: alf/reassembler.go. Times are nanosecond counts. */
module Reassembly {
  import opened Wrappers
  import opened Bytes
  import opened Frames

  datatype Key = Key(ch: byte, seqNo: u64)

  datatype Pending = Pending(
    kind: byte, prio: byte, pts: i64, flags: byte, total: nat,
    parts: map<nat, seq<byte>>, deadline: int)
  {
    predicate HasAll() {
      forall i: nat :: i < total ==> i in parts
    }

    /** The first payload stored for an index is kept. */
    function Add(idx: nat, payload: seq<byte>): Pending {
      if idx in parts then this else this.(parts := parts[idx := payload])
    }
  }

  datatype State = State(ttl: int, maxPay: nat, items: map<Key, Pending>, dropped: nat)

  datatype Outcome = Incomplete | Done(frame: Frame) | Failed(error: Error)

  function KeyOf(f: Frame): Key {
    Key(f.channel, f.seqNo)
  }

  // ---------- what each operation does to the state ----------

  predicate IsExpired(k: Key, p: Pending, now: int) {
    !Reliable(k.ch) && now > p.deadline
  }

  function ExpiredKeys(items: map<Key, Pending>, now: int): set<Key> {
    set k | k in items && IsExpired(k, items[k], now)
  }

  function Expire(s: State, now: int): State {
    var gone := ExpiredKeys(s.items, now);
    s.(items := s.items - gone, dropped := s.dropped + |gone|)
  }

  /** The payloads of indices 0..k-1, joined. */
  function Concat(parts: map<nat, seq<byte>>, k: nat): seq<byte>
    requires forall i: nat :: i < k ==> i in parts
  {
    if k == 0 then [] else Concat(parts, k - 1) + parts[k - 1]
  }

  predicate Acceptable(s: State, f: Frame) {
    ValidFrame(f) && |f.payload| <= s.maxPay
  }

  function NewPending(f: Frame, deadline: int): Pending {
    Pending(f.kind, f.priority, f.pts, f.flags, f.fragTotal, map[], deadline)
  }

  /** The entry for f's message, with f's payload added. */
  function Extended(s: State, f: Frame, now: int): Pending {
    var p := if KeyOf(f) in s.items then s.items[KeyOf(f)] else NewPending(f, now + s.ttl);
    p.Add(f.fragIdx, f.payload)
  }

  function Assembled(f: Frame, p: Pending): Frame
    requires p.HasAll()
  {
    Frame(f.channel, p.kind, p.prio, f.seqNo, p.pts, SetEom(p.flags), 0, 1, Concat(p.parts, p.total))
  }

  function Pushed(s: State, f: Frame, now: int): (State, Outcome) {
    if HeaderError(f).Some? then (s, Failed(HeaderError(f).value))
    else if |f.payload| > s.maxPay then (s, Failed(PayloadTooBig))
    else if f.fragTotal == 1 then (s.(items := s.items - {KeyOf(f)}), Done(f))
    else Stored(Expire(s, now), f, now)
  }

  /** A fragment of a longer message, after the expired entries are gone. */
  function Stored(live: State, f: Frame, now: int): (State, Outcome) {
    var k := KeyOf(f);
    var p := Extended(live, f, now);
    if k in live.items && live.items[k].total != f.fragTotal then
      (live.(items := live.items - {k}, dropped := live.dropped + 1), Failed(BadFrag))
    else if !p.HasAll() then (live.(items := live.items[k := p]), Incomplete)
    else if |Concat(p.parts, p.total)| > live.maxPay then (live.(items := live.items - {k}), Failed(PayloadTooBig))
    else (live.(items := live.items - {k}), Done(Assembled(f, p)))
  }

  // ---------- the invariant ----------

  predicate ValidPending(p: Pending, maxPay: nat) {
    && 2 <= p.total <= MAX_FRAG && ValidKind(p.kind)
    && (forall i :: i in p.parts ==> i < p.total && |p.parts[i]| <= maxPay)
    && 1 <= |p.parts| < p.total
  }

  predicate ValidState(s: State) {
    && s.maxPay >= 1
    && forall k :: k in s.items ==> ValidChannel(k.ch) && ValidPending(s.items[k], s.maxPay)
  }

  function Below(n: nat): (r: set<nat>)
    ensures |r| == n && forall i: nat :: i in r <==> i < n
  {
    if n == 0 then {} else Below(n - 1) + {n - 1}
  }

  /** Pigeonhole: counting the parts decides whether any is missing. */
  lemma CountDecides(p: Pending)
    requires forall i :: i in p.parts ==> i < p.total
    ensures |p.parts| <= p.total
    ensures |p.parts| == p.total <==> p.HasAll()
  {
    var all := Below(p.total);
    assert p.parts.Keys <= all;
    SubsetSize(p.parts.Keys, all);
    if p.HasAll() {
      assert p.parts.Keys == all;
    }
  }

  lemma SubsetSize<T>(a: set<T>, b: set<T>)
    requires a <= b
    ensures |a| <= |b|
    ensures |a| == |b| ==> a == b
  {
    assert |b| == |a| + |b - a| by {
      assert b == a + (b - a);
    }
  }

  /** Every operation keeps the invariant, and a returned message is a valid frame within the size limit. */
  lemma PushKeepsValid(s: State, f: Frame, now: int)
    requires ValidState(s)
    ensures var (t, out) := Pushed(s, f, now);
            && ValidState(t) && t.maxPay == s.maxPay && t.ttl == s.ttl
            && (out.Done? ==> ValidFrame(out.frame) && out.frame.fragIdx == 0 && out.frame.fragTotal == 1
                              && |out.frame.payload| <= s.maxPay && KeyOf(out.frame) == KeyOf(f)
                              && KeyOf(f) !in t.items)
  {
    if Acceptable(s, f) && f.fragTotal != 1 {
      var live := Expire(s, now);
      var p := Extended(live, f, now);
      if KeyOf(f) !in live.items || live.items[KeyOf(f)].total == f.fragTotal {
        ExtendedShape(live, f, now);
        CountDecides(p);
      }
    }
  }

  lemma ExtendedShape(live: State, f: Frame, now: int)
    requires ValidState(live) && Acceptable(live, f) && f.fragTotal != 1
    requires KeyOf(f) in live.items ==> live.items[KeyOf(f)].total == f.fragTotal
    ensures var p := Extended(live, f, now);
            && p.total == f.fragTotal && ValidKind(p.kind) && |p.parts| >= 1
            && (forall i :: i in p.parts ==> i < p.total && |p.parts[i]| <= live.maxPay)
  {
  }

  lemma ExpireKeepsValid(s: State, now: int)
    requires ValidState(s)
    ensures ValidState(Expire(s, now))
  {
  }

  /** The expired keys outside todo: those a scan with todo still ahead has removed. */
  function GoneSoFar(items: map<Key, Pending>, now: int, todo: set<Key>): set<Key> {
    ExpiredKeys(items, now) - todo
  }

  lemma ExpireOne(items: map<Key, Pending>, now: int, todo: set<Key>, k: Key)
    requires k in todo && todo <= items.Keys
    ensures var gone, more := GoneSoFar(items, now, todo), GoneSoFar(items, now, todo - {k});
            && k in items - gone && (items - gone)[k] == items[k]
            && if IsExpired(k, items[k], now)
               then items - more == (items - gone) - {k} && |more| == |gone| + 1
               else more == gone
  {
    var gone, more := GoneSoFar(items, now, todo), GoneSoFar(items, now, todo - {k});
    if IsExpired(k, items[k], now) {
      assert more == gone + {k};
    } else {
      assert more == gone;
    }
  }

  lemma ExpireEnds(items: map<Key, Pending>, now: int)
    ensures GoneSoFar(items, now, items.Keys) == {} && GoneSoFar(items, now, {}) == ExpiredKeys(items, now)
    ensures items - {} == items
  {
  }

  // ---------- the object ----------

  class Reassembler {
    const ttl: int
    const maxPay: nat
    var items: map<Key, Pending>
    var dropped: nat

    function Value(): State
      reads this
    {
      State(ttl, maxPay, items, dropped)
    }

    predicate Valid()
      reads this
    {
      ValidState(Value())
    }

    constructor (ttl: int, maxPayload: int)
      ensures Valid() && items == map[] && dropped == 0
      ensures this.ttl == (if ttl <= 0 then 200_000_000 else ttl)
      ensures this.maxPay == (if maxPayload <= 0 then 0x10_0000 else maxPayload)
    {
      this.ttl := if ttl <= 0 then 200_000_000 else ttl;
      this.maxPay := if maxPayload <= 0 then 0x10_0000 else maxPayload;
      items := map[];
      dropped := 0;
    }

    /** expireLocked: visits every entry once, in any order. */
    method ExpireLocked(now: int) returns (n: nat)
      modifies this
      ensures Value() == Expire(old(Value()), now)
      ensures n == |ExpiredKeys(old(items), now)|
    {
      hide GoneSoFar;
      ExpireEnds(items, now);
      n := 0;
      var todo := items.Keys;
      while todo != {}
        invariant todo <= old(items).Keys
        invariant items == old(items) - GoneSoFar(old(items), now, todo)
        invariant n == |GoneSoFar(old(items), now, todo)| && dropped == old(dropped)
        decreases todo
      {
        var k :| k in todo;
        ExpireOne(old(items), now, todo, k);
        if !Reliable(k.ch) && now > items[k].deadline {
          items := items - {k};
          n := n + 1;
        }
        todo := todo - {k};
      }
      dropped := dropped + n;
    }

    method Push(f: Frame, now: int) returns (out: Outcome)
      requires Valid()
      modifies this
      ensures Valid()
      ensures (Value(), out) == Pushed(old(Value()), f, now)
    {
      PushKeepsValid(Value(), f, now);
      if HeaderError(f).Some? {
        return Failed(HeaderError(f).value);
      }
      if |f.payload| > maxPay {
        return Failed(PayloadTooBig);
      }
      if f.fragTotal == 1 {
        items := items - {KeyOf(f)};
        return Done(f);
      }
      ExpireKeepsValid(Value(), now);
      var _ := ExpireLocked(now);
      out := Store(f, now);
    }

    /** The part of Push after expiry: find or make the entry, add the fragment, complete it if it is full. */
    method Store(f: Frame, now: int) returns (out: Outcome)
      requires Valid() && Acceptable(Value(), f) && f.fragTotal != 1
      modifies this
      ensures (Value(), out) == Stored(old(Value()), f, now)
    {
      var k := KeyOf(f);
      var p := if k in items then items[k] else NewPending(f, now + ttl);
      if p.total != f.fragTotal {
        items := items - {k};
        dropped := dropped + 1;
        return Failed(BadFrag);
      }
      p := p.Add(f.fragIdx, f.payload);
      ExtendedShape(Value(), f, now);
      CountDecides(p);
      items := items[k := p];
      if |p.parts| < p.total {
        return Incomplete;
      }
      assert items - {k} == old(items) - {k};
      items := items - {k};
      var ok := FitsLimit(p);
      if !ok {
        return Failed(PayloadTooBig);
      }
      var payload := JoinParts(p);
      out := Done(Frame(f.channel, p.kind, p.prio, f.seqNo, p.pts, SetEom(p.flags), 0, 1, payload));
    }

    /** The length check of Push: adds up the parts, stopping at the first excess. */
    method FitsLimit(p: Pending) returns (ok: bool)
      requires p.HasAll()
      ensures ok <==> |Concat(p.parts, p.total)| <= maxPay
    {
      var totalLen := 0;
      for i := 0 to p.total
        invariant totalLen == |Concat(p.parts, i)| <= maxPay
      {
        if i !in p.parts {
          assert false;
        }
        totalLen := totalLen + |p.parts[i]|;
        if totalLen > maxPay {
          ConcatGrows(p, i + 1);
          return false;
        }
      }
      ok := true;
    }

    method JoinParts(p: Pending) returns (payload: seq<byte>)
      requires p.HasAll()
      ensures payload == Concat(p.parts, p.total)
    {
      payload := [];
      for i := 0 to p.total
        invariant payload == Concat(p.parts, i)
      {
        payload := payload + p.parts[i];
      }
    }

    lemma {:induction false} ConcatGrows(p: Pending, i: nat)
      requires p.HasAll() && i <= p.total
      ensures |Concat(p.parts, i)| <= |Concat(p.parts, p.total)|
      decreases p.total - i
    {
      if i < p.total {
        ConcatGrows(p, i + 1);
      }
    }

    method Sweep(now: int) returns (n: nat)
      requires Valid()
      modifies this
      ensures Valid()
      ensures Value() == Expire(old(Value()), now) && dropped == old(dropped) + n
    {
      ExpireKeepsValid(Value(), now);
      n := ExpireLocked(now);
    }

    method Reset()
      requires Valid()
      modifies this
      ensures Valid()
      ensures Value() == old(Value()).(items := map[])
    {
      items := map[];
    }

    method Dropped() returns (n: nat)
      ensures n == dropped
    {
      n := dropped;
    }

    method Inflight() returns (n: nat)
      ensures n == |items|
    {
      n := |items|;
    }
  }
}
