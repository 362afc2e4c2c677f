/** CRC-32 seen bit by bit: damage within 32 consecutive message bits, at any bit offset, always shows. */
module BitBursts {
  import opened Bytes
  import opened Iteration
  import opened Crc32

  /** The n low bits of w, least significant first: the order in which the register takes them. */
  function LowBits(w: bv32, n: nat): (bits: seq<bool>)
    ensures |bits| == n
    decreases n
  {
    if n == 0 then [] else [w & 1 == 1] + LowBits(w >> 1, n - 1)
  }

  function Bits(data: seq<octet>): (bits: seq<bool>)
    ensures |bits| == 8 * |data|
  {
    if data == [] then [] else Bits(data[..|data| - 1]) + OctetBits(data[|data| - 1])
  }

  function OctetBits(b: octet): (bits: seq<bool>)
    ensures |bits| == 8
  {
    LowBits(b as bv32, 8)
  }

  /** The register after a sequence of message bits. */
  function Shifted(c: bv32, bits: seq<bool>): bv32 {
    Fold(SerialStep, c, bits)
  }

  lemma {:induction false} LowBitsShifted(c: bv32, w: bv32, n: nat)
    ensures SerialBits(c, w, n) == Shifted(c, LowBits(w, n))
    decreases n
  {
    hide SerialStep;
    if n > 0 {
      LowBitsShifted(SerialStep(c, w & 1 == 1), w >> 1, n - 1);
      FoldFirst(SerialStep, c, w & 1 == 1, LowBits(w >> 1, n - 1));
    }
  }

  lemma {:induction false} SerialIsShifted(c: bv32, data: seq<octet>)
    ensures Serial(c, data) == Shifted(c, Bits(data))
    decreases |data|
  {
    hide SerialBits;
    hide SerialStep;
    hide LowBits;
    if data != [] {
      var front, last := data[..|data| - 1], data[|data| - 1];
      SerialIsShifted(c, front);
      LowBitsShifted(Serial(c, front), last as bv32, 8);
      FoldConcat(SerialStep, c, Bits(front), OctetBits(last));
    }
  }

  lemma FoldFirst<S, B>(f: (S, B) -> S, s: S, b: B, rest: seq<B>)
    ensures Fold(f, s, [b] + rest) == Fold(f, f(s, b), rest)
  {
    FoldConcat(f, s, [b], rest);
    assert [b][..0] == [];
  }

  // ---------- every window of at most 32 bits is a word ----------

  lemma {:induction false} HalvesOfZero(n: nat)
    ensures Iterate(Half, 0, n) == 0
    decreases n
  {
    assert Half(0) == 0;
    if n > 0 {
      HalvesOfZero(n - 1);
    }
  }

  lemma {:induction false} IterateSplit<T>(f: T -> T, x: T, m: nat, n: nat)
    ensures Iterate(f, x, m + n) == Iterate(f, Iterate(f, x, m), n)
    decreases m
  {
    if m > 0 {
      IterateSplit(f, f(x), m - 1, n);
    }
  }

  function Eighth(w: bv32): bv32 {
    w >> 8
  }

  lemma EightHalves(w: bv32)
    ensures Iterate(Half, w, 8) == Eighth(w)
  {
    Iterate8(Half, w);
    assert Half(Half(Half(Half(Half(Half(Half(Half(w)))))))) == Eighth(w);
    hide Half;
  }

  lemma SevenSteps(x: bv32)
    ensures Iterate(Half, x, 7) == Half(Half(Half(Half(Half(Half(Half(x)))))))
  {
    hide Half;
    assert Iterate(Half, x, 7) == Iterate(Half, Half(Half(Half(x))), 4);
  }

  lemma SevenShifts(w: bv32)
    ensures Half(Half(Half(Half(Half(Half(Half(Eighth(Eighth(Eighth(w)))))))))) == w >> 31
    ensures w >> 31 == 0 ==> TopIsClear(w)
  {
  }

  predicate TopIsClear(w: bv32) {
    w & 0x80000000 == 0
  }

  /** A word that is shifted out by fewer than 32 halvings has its top bit clear. */
  lemma TopClear(w: bv32, n: nat)
    requires n <= 31 && Iterate(Half, w, n) == 0
    ensures TopIsClear(w)
  {
    hide Iterate;
    hide Half;
    hide Eighth;
    hide TopIsClear;
    var a, b, c := Eighth(w), Eighth(Eighth(w)), Eighth(Eighth(Eighth(w)));
    IterateSplit(Half, w, n, 31 - n);
    HalvesOfZero(31 - n);
    IterateSplit(Half, w, 8, 23);
    IterateSplit(Half, a, 8, 15);
    IterateSplit(Half, b, 8, 7);
    EightHalves(w);
    EightHalves(a);
    EightHalves(b);
    SevenSteps(c);
    SevenShifts(w);
  }

  function Pushed(w: bv32, bit: bool): bv32 {
    if bit then (w << 1) | 1 else w << 1
  }

  lemma PushOne(w: bv32)
    requires TopIsClear(w)
    ensures Pushed(w, true) & 1 == 1 && Pushed(w, true) >> 1 == w && Half(Pushed(w, true)) == w
  {
  }

  lemma PushZero(w: bv32)
    requires TopIsClear(w)
    ensures Pushed(w, false) & 1 != 1 && Pushed(w, false) >> 1 == w && Half(Pushed(w, false)) == w
  {
  }

  lemma LowBitsPushed(w: bv32, bit: bool, n: nat)
    requires TopIsClear(w)
    ensures LowBits(Pushed(w, bit), n + 1) == [bit] + LowBits(w, n)
    ensures Iterate(Half, Pushed(w, bit), n + 1) == Iterate(Half, w, n)
  {
    hide Pushed;
    hide TopIsClear;
    hide Half;
    if bit {
      PushOne(w);
    } else {
      PushZero(w);
    }
  }

  lemma {:induction false} WordOf(bits: seq<bool>) returns (w: bv32)
    requires |bits| <= 32
    ensures LowBits(w, |bits|) == bits && Iterate(Half, w, |bits|) == 0
    decreases |bits|
  {
    if bits == [] {
      w := 0;
    } else {
      var v := WordOf(bits[1..]);
      TopClear(v, |bits| - 1);
      w := Pushed(v, bits[0]);
      LowBitsPushed(v, bits[0], |bits| - 1);
      hide Pushed;
      hide LowBits;
      hide Iterate;
      assert [bits[0]] + bits[1..] == bits;
    }
  }

  // ---------- what the register tells apart ----------

  /** From one state, different windows of at most 32 bits lead to different states. */
  lemma WindowOneToOne(s: bv32, v: seq<bool>, w: seq<bool>)
    requires |v| == |w| <= 32 && Shifted(s, v) == Shifted(s, w)
    ensures v == w
  {
    hide Shifted;
    hide Iterate;
    hide LowBits;
    hide Injective;
    var n := |v|;
    var x := WordOf(v);
    var y := WordOf(w);
    LowBitsShifted(s, x, n);
    LowBitsShifted(s, y, n);
    SerialBitsIterate(s, x, n);
    SerialBitsIterate(s, y, n);
    BitStepInjective();
    IterateInjective(BitStep, Xor(s, x), Xor(s, y), n);
    XorCancel(x, y, s);
  }

  lemma SerialStepOneToOne(c: bv32, d: bv32, bit: bool)
    requires SerialStep(c, bit) == SerialStep(d, bit)
    ensures c == d
  {
  }

  /** Two bit strings that differ only within a window of at most 32 bits leave the register different. */
  lemma BitBurstDetected(c: bv32, pre: seq<bool>, v: seq<bool>, w: seq<bool>, post: seq<bool>)
    requires |v| == |w| <= 32 && v != w
    ensures Shifted(c, pre + v + post) != Shifted(c, pre + w + post)
  {
    FoldConcat(SerialStep, c, pre + v, post);
    FoldConcat(SerialStep, c, pre + w, post);
    FoldConcat(SerialStep, c, pre, v);
    FoldConcat(SerialStep, c, pre, w);
    forall x, y, b | SerialStep(x, b) == SerialStep(y, b) ensures x == y {
      SerialStepOneToOne(x, y, b);
    }
    hide SerialStep;
    var s := Shifted(c, pre);
    if Shifted(c, pre + v + post) == Shifted(c, pre + w + post) {
      FoldInjective(SerialStep, Shifted(s, v), Shifted(s, w), post);
      WindowOneToOne(s, v, w);
    }
  }

  lemma ChecksumBits(data: seq<octet>)
    ensures Checksum(data) == Xor(Shifted(ONES, Bits(data)), ONES)
  {
    hide Checksum;
    hide Fold;
    ChecksumFromOnes(data);
    SerialIsTableDriven(ONES, data);
    SerialIsShifted(ONES, data);
  }

  /** The message bits of frame bytes, in the order of the register. */
  function MessageBits(data: seq<byte>): (bits: seq<bool>)
    ensures |bits| == 8 * |data|
  {
    Bits(Octets(data))
  }

  lemma LowBitsOneToOne(a: octet, b: octet)
    requires OctetBits(a) == OctetBits(b)
    ensures a == b
  {
    SameBits(a as bv32, b as bv32, 8);
    hide LowBits;
    EightBits(a, b);
  }

  function BitsAgree(v: bv32, w: bv32, n: nat): bool
    decreases n
  {
    n == 0 || ((v & 1 == 1) == (w & 1 == 1) && BitsAgree(v >> 1, w >> 1, n - 1))
  }

  lemma {:induction false} SameBits(v: bv32, w: bv32, n: nat)
    requires LowBits(v, n) == LowBits(w, n)
    ensures BitsAgree(v, w, n)
    decreases n
  {
    if n > 0 {
      assert LowBits(v, n)[0] == LowBits(w, n)[0];
      assert LowBits(v, n)[1..] == LowBits(v >> 1, n - 1) && LowBits(w, n)[1..] == LowBits(w >> 1, n - 1);
      SameBits(v >> 1, w >> 1, n - 1);
    }
  }

  lemma EightBits(a: octet, b: octet)
    requires BitsAgree(a as bv32, b as bv32, 8)
    ensures a == b
  {
  }

  lemma {:induction false} BitsOneToOne(a: seq<octet>, b: seq<octet>)
    requires |a| == |b| && Bits(a) == Bits(b)
    ensures a == b
    decreases |a|
  {
    hide OctetBits;
    hide Bits;
    if a != [] {
      var n := |a| - 1;
      BitsEnd(a);
      BitsEnd(b);
      LowBitsOneToOne(a[n], b[n]);
      BitsOneToOne(a[..n], b[..n]);
      assert a == a[..n] + [a[n]] && b == b[..n] + [b[n]];
    }
  }

  lemma BitsEnd(a: seq<octet>)
    requires a != []
    ensures var n := |a| - 1; Bits(a)[..8 * n] == Bits(a[..n]) && Bits(a)[8 * n..] == OctetBits(a[n])
  {
    hide OctetBits;
  }

  /** Changes confined to at most 32 consecutive bits, at any bit offset, always change the checksum. */
  lemma CrcDetectsBitBurst(a: seq<byte>, b: seq<byte>, at: nat, len: nat)
    requires |a| == |b| && a != b && len <= 32 && at + len <= 8 * |a|
    requires MessageBits(a)[..at] == MessageBits(b)[..at]
    requires MessageBits(a)[at + len..] == MessageBits(b)[at + len..]
    ensures Crc(a) != Crc(b)
  {
    hide Bits;
    hide Checksum;
    hide Shifted;
    OctetsDiffer(a, b);
    if MessageBits(a) == MessageBits(b) {
      BitsOneToOne(Octets(a), Octets(b));
    }
    var x, y := MessageBits(a), MessageBits(b);
    var pre, v, w, post := x[..at], x[at..at + len], y[at..at + len], x[at + len..];
    assert x == pre + v + post && y == pre + w + post;
    BitBurstDetected(ONES, pre, v, w, post);
    ChecksumBits(Octets(a));
    ChecksumBits(Octets(b));
    XorCancel(Shifted(ONES, x), Shifted(ONES, y), ONES);
  }
}
