/** Iterating a function over an abstract additive structure: the algebra the checksum rests on. */
module Iteration {
  function Iterate<T>(f: T -> T, x: T, n: nat): T
    decreases n
  {
    if n == 0 then x else Iterate(f, f(x), n - 1)
  }

  ghost predicate Linear<T(!new)>(f: T -> T, add: (T, T) -> T) {
    forall x, y :: f(add(x, y)) == add(f(x), f(y))
  }

  ghost predicate Injective<T(!new)>(f: T -> T) {
    forall x, y :: f(x) == f(y) ==> x == y
  }

  lemma {:induction false} IterateLast<T>(f: T -> T, x: T, n: nat)
    ensures Iterate(f, x, n + 1) == f(Iterate(f, x, n))
    decreases n
  {
    if n > 0 {
      IterateLast(f, f(x), n - 1);
    }
  }

  lemma Iterate8<T>(f: T -> T, x: T)
    ensures Iterate(f, x, 8) == f(f(f(f(f(f(f(f(x))))))))
  {
    var y := f(f(f(f(x))));
    assert Iterate(f, x, 8) == Iterate(f, f(f(x)), 6);
    assert Iterate(f, f(f(x)), 6) == Iterate(f, y, 4);
    assert Iterate(f, y, 4) == Iterate(f, f(f(y)), 2);
    assert Iterate(f, f(f(y)), 2) == f(f(f(f(y))));
  }

  lemma {:induction false} IterateLinear<T(!new)>(f: T -> T, add: (T, T) -> T, x: T, y: T, n: nat)
    requires Linear(f, add)
    ensures Iterate(f, add(x, y), n) == add(Iterate(f, x, n), Iterate(f, y, n))
    decreases n
  {
    if n > 0 {
      IterateLinear(f, add, f(x), f(y), n - 1);
    }
  }

  lemma IterateSum<T(!new)>(f: T -> T, add: (T, T) -> T, x: T, lo: T, hi: T, hi': T, n: nat)
    requires Linear(f, add)
    requires x == add(lo, hi) && Iterate(f, hi, n) == hi'
    ensures Iterate(f, x, n) == add(Iterate(f, lo, n), hi')
  {
    IterateLinear(f, add, lo, hi, n);
  }

  lemma IterateAhead<T(!new)>(f: T -> T, add: (T, T) -> T, s: T, a: T, late: T, late': T, n: nat)
    requires Linear(f, add)
    requires Iterate(f, late, n) == late'
    requires add(s, add(a, late)) == add(add(s, a), late)
    ensures add(Iterate(f, add(s, a), n), late') == Iterate(f, add(s, add(a, late)), n)
  {
    IterateLinear(f, add, add(s, a), late, n);
  }

  /** Feeding a sequence to a state machine, left to right. */
  function Fold<S, B>(f: (S, B) -> S, s: S, data: seq<B>): S
    decreases |data|
  {
    if data == [] then s else f(Fold(f, s, data[..|data| - 1]), data[|data| - 1])
  }

  lemma {:induction false} FoldConcat<S, B>(f: (S, B) -> S, s: S, a: seq<B>, b: seq<B>)
    ensures Fold(f, s, a + b) == Fold(f, Fold(f, s, a), b)
    decreases |b|
  {
    if b == [] {
      assert a + b == a;
    } else {
      assert (a + b)[..|a + b| - 1] == a + b[..|b| - 1];
      FoldConcat(f, s, a, b[..|b| - 1]);
    }
  }

  lemma Fold4<S, B>(f: (S, B) -> S, s: S, w: seq<B>)
    requires |w| == 4
    ensures Fold(f, s, w) == f(f(f(f(s, w[0]), w[1]), w[2]), w[3])
  {
    assert w[..3][..2] == w[..2] && w[..2][..1] == w[..1] && w[..1][..0] == [];
    assert Fold(f, s, w[..1]) == f(s, w[0]);
    assert Fold(f, s, w[..2]) == f(Fold(f, s, w[..1]), w[1]);
    assert Fold(f, s, w[..3]) == f(Fold(f, s, w[..2]), w[2]);
  }

  lemma {:induction false} FoldAgree<S(!new), B(!new)>(f: (S, B) -> S, g: (S, B) -> S, s: S, data: seq<B>)
    requires forall t, b :: f(t, b) == g(t, b)
    ensures Fold(f, s, data) == Fold(g, s, data)
    decreases |data|
  {
    if data != [] {
      FoldAgree(f, g, s, data[..|data| - 1]);
    }
  }

  lemma {:induction false} FoldInjective<S(!new), B(!new)>(f: (S, B) -> S, s: S, t: S, data: seq<B>)
    requires forall x, y, b :: f(x, b) == f(y, b) ==> x == y
    requires Fold(f, s, data) == Fold(f, t, data)
    ensures s == t
    decreases |data|
  {
    if data != [] {
      FoldInjective(f, s, t, data[..|data| - 1]);
    }
  }

  lemma {:induction false} IterateInjective<T(!new)>(f: T -> T, x: T, y: T, n: nat)
    requires Injective(f)
    requires Iterate(f, x, n) == Iterate(f, y, n)
    ensures x == y
    decreases n
  {
    if n > 0 {
      IterateInjective(f, f(x), f(y), n - 1);
    }
  }
}

/** CRC-32 (IEEE 802.3, clause 3.2.9, reflected): crc32.ts, and Go's hash/crc32 as frame.go uses it. */
module Crc32 {
  import opened Bytes
  import opened Iteration

  type octet = bv8

  const POLY: bv32 := 0xedb88320
  const ONES: bv32 := 0xffffffff

  /** One step of the shift register. */
  function BitStep(c: bv32): bv32 {
    if c & 1 == 1 then POLY ^ (c >> 1) else c >> 1
  }

  function Xor(x: bv32, y: bv32): bv32 {
    x ^ y
  }

  function Step8(c: bv32): bv32 {
    Iterate(BitStep, c, 8)
  }

  /** What one byte does to the register. */
  function Feed(crc: bv32, b: octet): bv32 {
    Step8(Xor(crc, b as bv32))
  }

  function FeedAll(crc: bv32, data: seq<octet>): bv32 {
    Fold(Feed, crc, data)
  }

  /** crc32.Update: complement, feed, complement. */
  function Update(crc: bv32, data: seq<octet>): bv32 {
    Xor(FeedAll(Xor(crc, ONES), data), ONES)
  }

  /** crc32.ChecksumIEEE. */
  function Checksum(data: seq<octet>): bv32 {
    Update(0, data)
  }

  // ---------- linearity and injectivity of one register step ----------

  lemma BitStepOddOdd(x: bv32, y: bv32)
    requires x & 1 == 1 && y & 1 == 1
    ensures BitStep(x ^ y) == BitStep(x) ^ BitStep(y)
  {
  }

  lemma BitStepOddEven(x: bv32, y: bv32)
    requires x & 1 == 1 && y & 1 != 1
    ensures BitStep(x ^ y) == BitStep(x) ^ BitStep(y)
  {
  }

  lemma BitStepEvenOdd(x: bv32, y: bv32)
    requires x & 1 != 1 && y & 1 == 1
    ensures BitStep(x ^ y) == BitStep(x) ^ BitStep(y)
  {
  }

  lemma BitStepEvenEven(x: bv32, y: bv32)
    requires x & 1 != 1 && y & 1 != 1
    ensures BitStep(x ^ y) == BitStep(x) ^ BitStep(y)
  {
  }

  lemma BitStepXor(x: bv32, y: bv32)
    ensures BitStep(Xor(x, y)) == Xor(BitStep(x), BitStep(y))
  {
    hide BitStep;
    if x & 1 == 1 {
      if y & 1 == 1 { BitStepOddOdd(x, y); } else { BitStepOddEven(x, y); }
    } else {
      if y & 1 == 1 { BitStepEvenOdd(x, y); } else { BitStepEvenEven(x, y); }
    }
  }

  lemma BitStepLinear()
    ensures Linear(BitStep, Xor)
  {
    forall x, y ensures BitStep(Xor(x, y)) == Xor(BitStep(x), BitStep(y)) {
      BitStepXor(x, y);
    }
  }

  /** The top bit of the result tells which branch was taken, so the step can be undone. */
  lemma BitStepOneToOne(x: bv32, y: bv32)
    requires BitStep(x) == BitStep(y)
    ensures x == y
  {
  }

  lemma BitStepInjective()
    ensures Injective(BitStep)
  {
    forall x, y | BitStep(x) == BitStep(y) ensures x == y {
      BitStepOneToOne(x, y);
    }
  }

  lemma Step8OneToOne(x: bv32, y: bv32)
    requires Step8(x) == Step8(y)
    ensures x == y
  {
    BitStepInjective();
    IterateInjective(BitStep, x, y, 8);
  }

  lemma EightHalvings(x: bv32)
    ensures var y := x & 0xffffff00;
            BitStep(BitStep(BitStep(BitStep(BitStep(BitStep(BitStep(BitStep(y)))))))) == x >> 8
  {
  }

  /** A register whose low byte is clear is only shifted. */
  lemma Step8High(x: bv32)
    ensures Step8(x & 0xffffff00) == x >> 8
  {
    Iterate8(BitStep, x & 0xffffff00);
    EightHalvings(x);
  }

  // ---------- table-driven == bit by bit ----------

  lemma SplitWord(x: bv32)
    ensures x == Xor(x & 0xff, x & 0xffffff00)
  {
  }

  lemma ByteLeavesHigh(crc: bv32, b: octet)
    ensures Xor(crc, b as bv32) >> 8 == crc >> 8
  {
  }

  lemma Step8Split(x: bv32)
    ensures Step8(x) == Xor(Step8(x & 0xff), x >> 8)
  {
    SplitWord(x);
    Step8High(x);
    Step8Sum(x, x & 0xff, x & 0xffffff00, x >> 8);
  }

  function LowByte(x: bv32): (r: octet)
    ensures r as bv32 == x & 0xff
  {
    (x & 0xff) as octet
  }

  /** The identity behind the 256-entry table: a byte step is one lookup and one shift. */
  lemma TableStep(crc: bv32, b: octet)
    ensures Feed(crc, b) == Xor(Step8(LowByte(Xor(crc, b as bv32)) as bv32), crc >> 8)
  {
    Step8Split(Xor(crc, b as bv32));
    ByteLeavesHigh(crc, b);
  }

  function Ord(b: octet): (n: nat)
    ensures n < 256
  {
    b as nat
  }

  ghost predicate TableUpTo(t: seq<bv32>, n: nat) {
    |t| == 256 && forall b: octet :: Ord(b) < n ==> t[Ord(b)] == Step8(b as bv32)
  }

  ghost predicate IsTable(t: seq<bv32>) {
    TableUpTo(t, 256)
  }

  /** crc32.ts, the module-level loops that fill the table. */
  method BuildTable() returns (table: array<bv32>)
    ensures fresh(table) && IsTable(table[..])
  {
    table := new bv32[256];
    for i := 0 to 256
      invariant TableUpTo(table[..], i)
    {
      ghost var t := table[..];
      var index := ByteAt(i);
      var c := TableEntry(index);
      table[i] := c;
      TableGrows(t, i, index, c);
      assert table[..] == t[i := c];
    }
  }

  /** The inner loop of the table construction. */
  method TableEntry(index: octet) returns (c: bv32)
    ensures c == Step8(index as bv32)
  {
    c := index as bv32;
    for k := 0 to 8
      invariant c == Iterate(BitStep, index as bv32, k)
    {
      IterateLast(BitStep, index as bv32, k);
      c := BitStep(c);
    }
  }

  lemma NextOctet(o: octet)
    requires o != 255
    ensures (o + 1) as nat == o as nat + 1
  {
  }

  lemma BelowTop(o: octet)
    requires o as nat < 255
    ensures o != 255
  {
  }

  lemma {:induction false} OctetWithValue(n: nat) returns (o: octet)
    requires n < 256
    ensures o as nat == n
  {
    if n == 0 {
      o := 0;
    } else {
      o := OctetWithValue(n - 1);
      BelowTop(o);
      NextOctet(o);
      o := o + 1;
    }
  }

  lemma ByteOfNat(n: nat)
    requires n < 256
    ensures (n as octet) as nat == n
  {
    var o := OctetWithValue(n);
  }

  method ByteAt(i: nat) returns (b: octet)
    requires i < 256
    ensures Ord(b) == i
  {
    ByteOfNat(i);
    b := i as octet;
  }

  lemma OrdOneToOne(a: octet, b: octet)
    requires Ord(a) == Ord(b)
    ensures a == b
  {
  }

  lemma TableGrows(t: seq<bv32>, i: nat, index: octet, c: bv32)
    requires i < 256 && TableUpTo(t, i) && Ord(index) == i && c == Step8(index as bv32)
    ensures TableUpTo(t[i := c], i + 1)
  {
    forall b: octet | Ord(b) < i + 1 ensures t[i := c][Ord(b)] == Step8(b as bv32) {
      if Ord(b) == i {
        OrdOneToOne(b, index);
      }
    }
  }

  /** The right-hand side of the loop of crc32ieee. */
  function TableFeed(table: array<bv32>, crc: bv32, b: octet): (r: bv32)
    requires IsTable(table[..])
    reads table
    ensures r == Feed(crc, b)
  {
    TableStep(crc, b);
    var i := LowByte(Xor(crc, b as bv32));
    assert table[..][Ord(i)] == Step8(i as bv32);
    Xor(table[Ord(i)], crc >> 8)
  }

  /** crc32ieee: one table lookup a byte. */
  method Crc32Ieee(table: array<bv32>, data: seq<octet>) returns (crc: bv32)
    requires IsTable(table[..])
    ensures crc == Checksum(data)
    ensures crc == Xor(Serial(ONES, data), ONES)
  {
    crc := ONES;
    for i := 0 to |data|
      invariant crc == FeedAll(ONES, data[..i])
    {
      assert data[..i + 1][..i] == data[..i];
      crc := TableFeed(table, crc, data[i]);
    }
    assert data[..|data|] == data;
    crc := Xor(crc, ONES);
    ChecksumFromOnes(data);
    SerialIsTableDriven(ONES, data);
  }

  lemma ChecksumFromOnes(data: seq<octet>)
    ensures Checksum(data) == Xor(FeedAll(ONES, data), ONES)
  {
    assert Xor(0, ONES) == ONES;
  }

  // ---------- the reference: one message bit at a time ----------

  /** The shift register of the standard: the incoming bit decides, with the low bit, on the feedback. */
  function SerialStep(c: bv32, bit: bool): bv32 {
    if (c & 1 == 1) != bit then POLY ^ (c >> 1) else c >> 1
  }

  /** The n low bits of w, least significant first. */
  function SerialBits(c: bv32, w: bv32, n: nat): bv32
    decreases n
  {
    if n == 0 then c else SerialBits(SerialStep(c, w & 1 == 1), w >> 1, n - 1)
  }

  function SerialByte(c: bv32, b: octet): bv32 {
    SerialBits(c, b as bv32, 8)
  }

  function Serial(c: bv32, data: seq<octet>): bv32 {
    Fold(SerialByte, c, data)
  }

  function Half(x: bv32): bv32 {
    x >> 1
  }

  lemma PeelOddOdd(c: bv32, w: bv32)
    requires c & 1 == 1 && w & 1 == 1
    ensures BitStep(c ^ w) == SerialStep(c, w & 1 == 1) ^ (w >> 1)
  {
  }

  lemma PeelOddEven(c: bv32, w: bv32)
    requires c & 1 == 1 && w & 1 != 1
    ensures BitStep(c ^ w) == SerialStep(c, w & 1 == 1) ^ (w >> 1)
  {
  }

  lemma PeelEvenOdd(c: bv32, w: bv32)
    requires c & 1 != 1 && w & 1 == 1
    ensures BitStep(c ^ w) == SerialStep(c, w & 1 == 1) ^ (w >> 1)
  {
  }

  lemma PeelEvenEven(c: bv32, w: bv32)
    requires c & 1 != 1 && w & 1 != 1
    ensures BitStep(c ^ w) == SerialStep(c, w & 1 == 1) ^ (w >> 1)
  {
  }

  /** The bit of w that meets the register first, and the rest of w shifted. */
  lemma SerialPeel(c: bv32, w: bv32)
    ensures BitStep(Xor(c, w)) == Xor(SerialStep(c, w & 1 == 1), Half(w))
  {
    if c & 1 == 1 {
      if w & 1 == 1 { PeelOddOdd(c, w); } else { PeelOddEven(c, w); }
    } else {
      if w & 1 == 1 { PeelEvenOdd(c, w); } else { PeelEvenEven(c, w); }
    }
  }

  lemma {:induction false} SerialBitsIterate(c: bv32, w: bv32, n: nat)
    ensures Iterate(BitStep, Xor(c, w), n) == Xor(SerialBits(c, w, n), Iterate(Half, w, n))
    decreases n
  {
    if n > 0 {
      SerialPeel(c, w);
      SerialBitsIterate(SerialStep(c, w & 1 == 1), w >> 1, n - 1);
    }
  }

  lemma ByteShiftedOut(b: octet)
    ensures var w := b as bv32; Half(Half(Half(Half(Half(Half(Half(Half(w)))))))) == 0
  {
  }

  lemma XorZero(x: bv32)
    ensures Xor(x, 0) == x
  {
  }

  lemma FeedIsSerial(c: bv32, b: octet)
    ensures Feed(c, b) == SerialByte(c, b)
  {
    SerialBitsIterate(c, b as bv32, 8);
    Iterate8(Half, b as bv32);
    ByteShiftedOut(b);
    XorZero(SerialBits(c, b as bv32, 8));
  }

  /** Byte-at-a-time equals bit-at-a-time, for every start value and every message. */
  lemma SerialIsTableDriven(c: bv32, data: seq<octet>)
    ensures FeedAll(c, data) == Serial(c, data)
  {
    forall s, b ensures Feed(s, b) == SerialByte(s, b) {
      FeedIsSerial(s, b);
    }
    FoldAgree(Feed, SerialByte, c, data);
  }

  // ---------- what the checksum distinguishes ----------

  lemma XorTwice(x: bv32)
    ensures Xor(Xor(x, ONES), ONES) == x
  {
  }

  /** Encode and Decode checksum the header, then update with the payload: the same as one pass. */
  lemma UpdateContinues(a: seq<octet>, b: seq<octet>)
    ensures Update(Checksum(a), b) == Checksum(a + b)
  {
    FoldConcat(Feed, Xor(0, ONES), a, b);
    XorTwice(FeedAll(Xor(0, ONES), a));
  }

  lemma XorCancel(x: bv32, y: bv32, z: bv32)
    ensures Xor(x, z) == Xor(y, z) ==> x == y
    ensures Xor(z, x) == Xor(z, y) ==> x == y
  {
  }

  lemma FeedOneToOneInState(c: bv32, d: bv32, b: octet)
    requires Feed(c, b) == Feed(d, b)
    ensures c == d
  {
    Step8OneToOne(Xor(c, b as bv32), Xor(d, b as bv32));
    XorCancel(c, d, b as bv32);
  }

  lemma FeedAllOneToOneInState(c: bv32, d: bv32, data: seq<octet>)
    requires FeedAll(c, data) == FeedAll(d, data)
    ensures c == d
  {
    forall x, y, b | Feed(x, b) == Feed(y, b) ensures x == y {
      FeedOneToOneInState(x, y, b);
    }
    FoldInjective(Feed, c, d, data);
  }

  function Feed4(c: bv32, w: seq<octet>): bv32
    requires |w| == 4
  {
    Feed(Feed(Feed(Feed(c, w[0]), w[1]), w[2]), w[3])
  }

  /** a and, above it, the 24 bits of y. */
  function Over(a: octet, y: bv32): bv32 {
    Xor(a as bv32, y << 8)
  }

  function Word(w: seq<octet>): bv32
    requires |w| == 4
  {
    Over(w[0], Over(w[1], Over(w[2], Over(w[3], 0))))
  }

  lemma XorAssoc(x: bv32, y: bv32, z: bv32)
    ensures x ^ (y ^ z) == (x ^ y) ^ z
  {
  }

  lemma EightHalvingsBack(y: bv32)
    requires y & 0xff000000 == 0
    ensures BitStep(BitStep(BitStep(BitStep(BitStep(BitStep(BitStep(BitStep(y << 8)))))))) == y
  {
  }

  lemma ShiftedOut(y: bv32)
    requires y & 0xff000000 == 0
    ensures Step8(y << 8) == y
  {
    Iterate8(BitStep, y << 8);
    EightHalvingsBack(y);
  }

  /** Bytes still to come may be mixed in early, shifted up past the octet being fed. */
  lemma FeedOver(s: bv32, a: octet, y: bv32)
    requires y & 0xff000000 == 0
    ensures Xor(Feed(s, a), y) == Step8(Xor(s, Over(a, y)))
  {
    ShiftedOut(y);
    XorAssoc(s, a as bv32, y << 8);
    BitStepLinear();
    IterateAhead(BitStep, Xor, s, a as bv32, y << 8, y, 8);
  }

  lemma Step8Sum(x: bv32, lo: bv32, hi: bv32, hi': bv32)
    requires x == Xor(lo, hi) && Step8(hi) == hi'
    ensures Step8(x) == Xor(Step8(lo), hi')
  {
    BitStepLinear();
    IterateSum(BitStep, Xor, x, lo, hi, hi', 8);
  }

  lemma OverBound(a: octet, y: bv32)
    requires y & 0xffff0000 == 0
    ensures Over(a, y) & 0xff000000 == 0
    ensures y & 0xffffff00 == 0 ==> Over(a, y) & 0xffff0000 == 0
    ensures y == 0 ==> Over(a, y) & 0xffffff00 == 0
    ensures y == 0 ==> Over(a, y) == a as bv32
  {
  }

  lemma Feed4IsOneWord(s: bv32, w: seq<octet>)
    requires |w| == 4
    ensures Feed4(s, w) == Step8(Step8(Step8(Step8(Xor(s, Word(w))))))
  {
    var y3 := Over(w[3], 0);
    var y2 := Over(w[2], y3);
    var y1 := Over(w[1], y2);
    OverBound(w[3], 0);
    OverBound(w[2], y3);
    OverBound(w[1], y2);
    FeedOver(s, w[0], y1);
    var s0 := Feed(s, w[0]);
    FeedOver(s0, w[1], y2);
    var s1 := Feed(s0, w[1]);
    FeedOver(s1, w[2], y3);
  }

  lemma WordOneToOne(a0: octet, a1: octet, a2: octet, a3: octet, b0: octet, b1: octet, b2: octet, b3: octet)
    requires Over(a0, Over(a1, Over(a2, Over(a3, 0)))) == Over(b0, Over(b1, Over(b2, Over(b3, 0))))
    ensures a0 == b0 && a1 == b1 && a2 == b2 && a3 == b3
  {
  }

  /** From one state, different 4-octet windows lead to different states. */
  lemma Feed4OneToOne(s: bv32, v: seq<octet>, w: seq<octet>)
    requires |v| == |w| == 4
    requires Feed4(s, v) == Feed4(s, w)
    ensures v == w
  {
    Feed4IsOneWord(s, v);
    Feed4IsOneWord(s, w);
    var x, y := Xor(s, Word(v)), Xor(s, Word(w));
    Step8OneToOne(Step8(Step8(Step8(x))), Step8(Step8(Step8(y))));
    Step8OneToOne(Step8(Step8(x)), Step8(Step8(y)));
    Step8OneToOne(Step8(x), Step8(y));
    Step8OneToOne(x, y);
    XorCancel(Word(v), Word(w), s);
    WordOneToOne(v[0], v[1], v[2], v[3], w[0], w[1], w[2], w[3]);
  }

  /** Two messages that differ only inside one window of four bytes never share a checksum. */
  lemma BurstDetected(pre: seq<octet>, v: seq<octet>, w: seq<octet>, post: seq<octet>)
    requires |v| == |w| == 4 && v != w
    ensures Checksum(pre + v + post) != Checksum(pre + w + post)
  {
    ChecksumFromOnes(pre + v + post);
    ChecksumFromOnes(pre + w + post);
    var s := FeedAll(ONES, pre);
    FoldConcat(Feed, ONES, pre + v, post);
    FoldConcat(Feed, ONES, pre + w, post);
    FoldConcat(Feed, ONES, pre, v);
    FoldConcat(Feed, ONES, pre, w);
    Fold4(Feed, s, v);
    Fold4(Feed, s, w);
    XorCancel(FeedAll(ONES, pre + v + post), FeedAll(ONES, pre + w + post), ONES);
    if Checksum(pre + v + post) == Checksum(pre + w + post) {
      FeedAllOneToOneInState(FeedAll(s, v), FeedAll(s, w), post);
      Feed4OneToOne(s, v, w);
    }
  }

  // ---------- checksums of frame bytes ----------

  function Octet(b: byte): octet {
    b as octet
  }

  lemma OctetOneToOne(a: byte, b: byte)
    requires Octet(a) == Octet(b)
    ensures a == b
  {
    ByteOfNat(a);
    ByteOfNat(b);
  }

  function Octets(data: seq<byte>): (s: seq<octet>)
    ensures |s| == |data|
  {
    seq(|data|, i requires 0 <= i < |data| => Octet(data[i]))
  }

  function Crc(data: seq<byte>): bv32 {
    Checksum(Octets(data))
  }

  function CrcUpdate(crc: bv32, data: seq<byte>): bv32 {
    Update(crc, Octets(data))
  }

  lemma OctetsConcat(a: seq<byte>, b: seq<byte>)
    ensures Octets(a + b) == Octets(a) + Octets(b)
  {
  }

  /** Encode and Decode checksum the header, then update with the payload: the same as one pass. */
  lemma CrcContinues(a: seq<byte>, b: seq<byte>)
    ensures CrcUpdate(Crc(a), b) == Crc(a + b)
  {
    OctetsConcat(a, b);
    UpdateContinues(Octets(a), Octets(b));
  }

  lemma OctetsDiffer(a: seq<byte>, b: seq<byte>)
    requires |a| == |b| && a != b
    ensures Octets(a) != Octets(b)
  {
    var i :| 0 <= i < |a| && a[i] != b[i];
    if Octets(a)[i] == Octets(b)[i] {
      OctetOneToOne(a[i], b[i]);
    }
  }

  /** Changes confined to four consecutive bytes always change the checksum. */
  lemma CrcDetectsBurst(pre: seq<byte>, v: seq<byte>, w: seq<byte>, post: seq<byte>)
    requires |v| == |w| == 4 && v != w
    ensures Crc(pre + v + post) != Crc(pre + w + post)
  {
    OctetsDiffer(v, w);
    OctetsConcat(pre, v);
    OctetsConcat(pre, w);
    OctetsConcat(pre + v, post);
    OctetsConcat(pre + w, post);
    BurstDetected(Octets(pre), Octets(v), Octets(w), Octets(post));
  }

  /** The four bytes of a checksum, most significant first. */
  function CrcOctets(c: bv32): (s: seq<octet>)
    ensures |s| == 4
  {
    [((c >> 24) & 0xff) as octet, ((c >> 16) & 0xff) as octet, ((c >> 8) & 0xff) as octet, (c & 0xff) as octet]
  }

  function CrcWord(a: octet, b: octet, c: octet, d: octet): bv32 {
    ((a as bv32) << 24) | ((b as bv32) << 16) | ((c as bv32) << 8) | (d as bv32)
  }

  lemma CrcWordOfOctets(c: bv32)
    ensures var s := CrcOctets(c); CrcWord(s[0], s[1], s[2], s[3]) == c
  {
  }

  lemma CrcOctetsOfWord(a: octet, b: octet, c: octet, d: octet)
    ensures CrcOctets(CrcWord(a, b, c, d)) == [a, b, c, d]
  {
  }

  function PutCrc(c: bv32): (s: seq<byte>)
    ensures |s| == 4
  {
    var o := CrcOctets(c);
    [Ord(o[0]), Ord(o[1]), Ord(o[2]), Ord(o[3])]
  }

  function GetCrc(s: seq<byte>): bv32
    requires |s| == 4
  {
    CrcWord(Octet(s[0]), Octet(s[1]), Octet(s[2]), Octet(s[3]))
  }

  lemma OctetOfOrd(o: octet)
    ensures Octet(Ord(o)) == o
  {
  }

  lemma OrdOfOctet(b: byte)
    ensures Ord(Octet(b)) == b
  {
    ByteOfNat(b);
  }

  lemma GetPutCrc(c: bv32)
    ensures GetCrc(PutCrc(c)) == c
  {
    CrcWordOfOctets(c);
    var o := CrcOctets(c);
    OctetOfOrd(o[0]);
    OctetOfOrd(o[1]);
    OctetOfOrd(o[2]);
    OctetOfOrd(o[3]);
  }

  lemma PutGetCrc(s: seq<byte>)
    requires |s| == 4
    ensures PutCrc(GetCrc(s)) == s
  {
    CrcOctetsOfWord(Octet(s[0]), Octet(s[1]), Octet(s[2]), Octet(s[3]));
    OrdOfOctet(s[0]);
    OrdOfOctet(s[1]);
    OrdOfOctet(s[2]);
    OrdOfOctet(s[3]);
  }
}
