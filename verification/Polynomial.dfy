/**
 * The checksum as clause 3.2.9 of IEEE 802.3 defines it: a remainder of polynomials with coefficients 0 and 1. A
 * polynomial is the sequence of its coefficients, highest power first.
 */
module Polynomial {
  import opened Bytes
  import opened Iteration
  import opened Crc32
  import opened BitBursts

  /** The powers of x in the generator polynomial. */
  predicate Power(e: int) {
    || e == 32 || e == 26 || e == 23 || e == 22 || e == 16 || e == 12 || e == 11 || e == 10
    || e == 8 || e == 7 || e == 5 || e == 4 || e == 2 || e == 1 || e == 0
  }

  function Generator(): (g: seq<bool>)
    ensures |g| == 33 && g[0]
  {
    seq(33, i => Power(32 - i))
  }

  function Zeros(n: nat): (z: seq<bool>)
    ensures |z| == n && forall i :: 0 <= i < n ==> !z[i]
  {
    seq(n, _ => false)
  }

  function Plus(a: seq<bool>, b: seq<bool>): (c: seq<bool>)
    requires |a| == |b|
    ensures |c| == |a| && forall i :: 0 <= i < |a| ==> c[i] == (a[i] != b[i])
  {
    seq(|a|, i requires 0 <= i < |a| => a[i] != b[i])
  }

  /** b added to the highest powers of a. */
  function PlusFront(a: seq<bool>, b: seq<bool>): (c: seq<bool>)
    requires |b| <= |a|
    ensures |c| == |a| && forall i :: 0 <= i < |a| ==> c[i] == if i < |b| then a[i] != b[i] else a[i]
  {
    Plus(a[..|b|], b) + a[|b|..]
  }

  /** q times the generator. */
  function Times(q: seq<bool>): (c: seq<bool>)
    ensures |c| == |q| + 32
  {
    if q == [] then Zeros(32)
    else PlusFront([false] + Times(q[1..]), if q[0] then Generator() else Zeros(33))
  }

  /** Long division by the generator. */
  function Remainder(n: seq<bool>): (r: seq<bool>)
    requires |n| >= 32
    ensures |r| == 32
    decreases |n|
  {
    if |n| == 32 then n
    else
      var m := if n[0] then PlusFront(n, Generator()) else n;
      assert |m| == |n|;
      Remainder(m[1..])
  }

  /** It is a remainder: what is left of n besides a multiple of the generator, of degree below 32. */
  lemma {:induction false} Division(n: seq<bool>) returns (q: seq<bool>)
    requires |n| >= 32
    ensures |q| == |n| - 32 && n == Plus(Times(q), Zeros(|q|) + Remainder(n))
    decreases |n|
  {
    if |n| == 32 {
      q := [];
      assert n == Plus(Times(q), Zeros(0) + n);
    } else {
      var g := if n[0] then Generator() else Zeros(33);
      var m := PlusFront(n, g);
      assert !n[0] ==> m == n;
      var p := Division(m[1..]);
      q := [n[0]] + p;
      assert q[1..] == p;
      var r := Remainder(m[1..]);
      DivisionStep(n, g, p, r);
      hide Remainder;
      hide Times;
    }
  }

  /** One step of the division: the leading term is taken away with its multiple of the generator. */
  lemma DivisionStep(n: seq<bool>, g: seq<bool>, p: seq<bool>, r: seq<bool>)
    requires |n| > 32 && |p| == |n| - 33 && |r| == 32
    requires g == if n[0] then Generator() else Zeros(33)
    requires PlusFront(n, g)[1..] == Plus(Times(p), Zeros(|p|) + r)
    ensures n == Plus(Times([n[0]] + p), Zeros(|p| + 1) + r)
  {
    ZeroLead();
    hide Generator;
    hide Times;
    hide Plus;
    hide PlusFront;
    hide Zeros;
    TimesStep(n[0], p);
    DivisionPointwise(n, g, Times(p), r);
  }

  lemma ZeroLead()
    ensures Generator()[0] && !Zeros(33)[0]
  {
  }

  lemma DivisionPointwise(n: seq<bool>, g: seq<bool>, t: seq<bool>, r: seq<bool>)
    requires |n| > 32 && |t| == |n| - 1 && |r| == 32 && |g| == 33 && n[0] == g[0]
    requires PlusFront(n, g)[1..] == Plus(t, Zeros(|n| - 33) + r)
    ensures n == Plus(PlusFront([false] + t, g), Zeros(|n| - 32) + r)
  {
    hide Plus;
    hide PlusFront;
    hide Zeros;
    var d := Plus(PlusFront([false] + t, g), Zeros(|n| - 32) + r);
    forall i | 0 <= i < |n| ensures n[i] == d[i] {
      DivisionAt(n, g, t, r, i);
    }
  }

  lemma TimesStep(b: bool, p: seq<bool>)
    ensures Times([b] + p) == PlusFront([false] + Times(p), if b then Generator() else Zeros(33))
  {
    assert ([b] + p)[1..] == p;
    hide Generator;
    hide PlusFront;
    hide Zeros;
  }

  lemma DivisionAt(n: seq<bool>, g: seq<bool>, t: seq<bool>, r: seq<bool>, i: nat)
    requires i < |n| && |n| > 32 && |t| == |n| - 1 && |r| == 32 && |g| == 33 && n[0] == g[0]
    requires PlusFront(n, g)[1..] == Plus(t, Zeros(|n| - 33) + r)
    ensures n[i] == Plus(PlusFront([false] + t, g), Zeros(|n| - 32) + r)[i]
  {
    hide Plus;
    hide PlusFront;
    hide Zeros;
    var m, low, lower := PlusFront(n, g), Zeros(|n| - 32) + r, Zeros(|n| - 33) + r;
    var p := Plus(t, lower);
    if i > 0 {
      assert m[1..][i - 1] == m[i];
      assert p[i - 1] == (t[i - 1] != lower[i - 1]);
      assert ([false] + t)[i] == t[i - 1];
      LowerZeros(|n| - 33, r, i);
    }
  }

  lemma LowerZeros(k: nat, r: seq<bool>, i: nat)
    requires 1 <= i <= k + |r|
    ensures (Zeros(k + 1) + r)[i] == (Zeros(k) + r)[i - 1]
  {
  }

  // ---------- the message as a polynomial ----------

  /** Bit j of n. */
  function BitAt(n: nat, j: nat): bool {
    if j == 0 then n % 2 == 1 else BitAt(n / 2, j - 1)
  }

  /** The bits of the message, lowest first in each byte: the first one is the highest power. */
  function MessagePolynomial(data: seq<byte>): (bits: seq<bool>)
    ensures |bits| == 8 * |data|
  {
    seq(8 * |data|, k requires 0 <= k < 8 * |data| => BitAt(data[k / 8], k % 8))
  }

  /** The message times x^32, its first 32 coefficients complemented. */
  function Dividend(bits: seq<bool>): (n: seq<bool>)
    ensures |n| == |bits| + 32
  {
    PlusFront(bits + Zeros(32), Ones(32))
  }

  // ---------- the register is the running remainder ----------

  /** The coefficients of the register, highest power first. */
  function Coefficients(c: bv32): (r: seq<bool>)
    ensures |r| == 32
  {
    LowBits(c, 32)
  }

  function Odd(w: bv32): bool {
    w & 1 == 1
  }

  lemma LowBitsFirst(w: bv32, n: nat)
    requires n > 0
    ensures LowBits(w, n) == [Odd(w)] + LowBits(Half(w), n - 1)
  {
  }

  lemma {:induction false} LowBitsXor(x: bv32, y: bv32, n: nat)
    ensures LowBits(Xor(x, y), n) == Plus(LowBits(x, n), LowBits(y, n))
    decreases n
  {
    hide Xor;
    hide Odd;
    hide Half;
    hide LowBits;
    if n > 0 {
      XorParts(x, y);
      LowBitsFirst(x, n);
      LowBitsFirst(y, n);
      LowBitsFirst(Xor(x, y), n);
      LowBitsXor(Half(x), Half(y), n - 1);
    }
  }

  lemma XorParts(x: bv32, y: bv32)
    ensures Odd(Xor(x, y)) <==> Odd(x) != Odd(y)
    ensures Half(Xor(x, y)) == Xor(Half(x), Half(y))
  {
  }

  lemma {:induction false} LowBitsSplit(w: bv32, m: nat, n: nat)
    ensures LowBits(w, m + n) == LowBits(w, m) + LowBits(Iterate(Half, w, m), n)
    decreases m
  {
    hide Half;
    hide LowBits;
    hide Odd;
    if m > 0 {
      LowBitsFirst(w, m + n);
      LowBitsFirst(w, m);
      LowBitsSplit(Half(w), m - 1, n);
    } else {
      NoBits(w);
    }
  }

  lemma NoBits(w: bv32)
    ensures LowBits(w, 0) == []
  {
  }

  lemma AllHalves(w: bv32)
    ensures Iterate(Half, w, 32) == 0
  {
    hide Iterate;
    hide Half;
    IterateSplit(Half, w, 8, 24);
    IterateSplit(Half, Eighth(w), 8, 16);
    IterateSplit(Half, Eighth(Eighth(w)), 8, 8);
    EightHalves(w);
    EightHalves(Eighth(w));
    EightHalves(Eighth(Eighth(w)));
    EightHalves(Eighth(Eighth(Eighth(w))));
    FourEighths(w);
    hide Eighth;
  }

  lemma FourEighths(w: bv32)
    ensures Eighth(Eighth(Eighth(Eighth(w)))) == 0
  {
  }

  /** Halving the register multiplies by x and drops the highest power. */
  lemma CoefficientsHalved(c: bv32)
    ensures Coefficients(Half(c)) == Coefficients(c)[1..] + [false]
    ensures Coefficients(c)[0] == Odd(c)
  {
    hide Half;
    hide Odd;
    hide LowBits;
    hide Iterate;
    LowBitsSplit(c, 32, 1);
    AllHalves(c);
    LowBitsFirst(0, 1);
    LowBitsFirst(c, 33);
    LowBitsFirst(c, 32);
    ZeroIsEven();
    assert LowBits(c, 33) == LowBits(c, 32) + [false];
    assert LowBits(c, 33)[1..] == LowBits(Half(c), 32);
  }

  lemma ZeroIsEven()
    ensures !Odd(0) && LowBits(Half(0), 0) == []
  {
  }

  lemma Nibble(w: bv32, n: nat, a: bool, b: bool, c: bool, d: bool, rest: bv32)
    requires n >= 4 && rest == w >> 4
    requires (a <==> w & 1 == 1) && (b <==> w & 2 == 2) && (c <==> w & 4 == 4) && (d <==> w & 8 == 8)
    ensures LowBits(w, n) == [a, b, c, d] + LowBits(rest, n - 4)
  {
    NibbleParts(w);
    hide Half;
    hide Odd;
    hide LowBits;
    LowBitsFirst(w, n);
    LowBitsFirst(Half(w), n - 1);
    LowBitsFirst(Half(Half(w)), n - 2);
    LowBitsFirst(Half(Half(Half(w))), n - 3);
  }

  lemma NibbleParts(w: bv32)
    ensures Half(Half(Half(Half(w)))) == w >> 4 && (Odd(w) <==> w & 1 == 1)
    ensures (Odd(Half(w)) <==> w & 2 == 2) && (Odd(Half(Half(w))) <==> w & 4 == 4)
    ensures Odd(Half(Half(Half(w)))) <==> w & 8 == 8
  {
  }

  lemma LowPoly(n: nat)
    requires n >= 16
    ensures var t, f := true, false;
            LowBits(0xedb88320, n) == [f, f, f, f, f, t, f, f, t, t, f, f, f, f, f, t] + LowBits(0xedb8, n - 16)
  {
    hide LowBits;
    var t, f := true, false;
    Nibble(0xedb88320, n, f, f, f, f, 0xedb8832);
    Nibble(0xedb8832, n - 4, f, t, f, f, 0xedb883);
    Nibble(0xedb883, n - 8, t, t, f, f, 0xedb88);
    Nibble(0xedb88, n - 12, f, f, f, t, 0xedb8);
  }

  lemma HighPoly(n: nat)
    requires n >= 16
    ensures var t, f := true, false;
            LowBits(0xedb8, n) == [f, f, f, t, t, t, f, t, t, f, t, t, f, t, t, t] + LowBits(0x0, n - 16)
  {
    hide LowBits;
    var t, f := true, false;
    Nibble(0xedb8, n, f, f, f, t, 0xedb);
    Nibble(0xedb, n - 4, t, t, f, t, 0xed);
    Nibble(0xed, n - 8, t, f, t, t, 0xe);
    Nibble(0xe, n - 12, f, t, t, t, 0x0);
  }

  lemma LowOnes(n: nat)
    requires n >= 16
    ensures var t, f := true, false;
            LowBits(0xffffffff, n) == [t, t, t, t, t, t, t, t, t, t, t, t, t, t, t, t] + LowBits(0xffff, n - 16)
  {
    hide LowBits;
    var t, f := true, false;
    Nibble(0xffffffff, n, t, t, t, t, 0xfffffff);
    Nibble(0xfffffff, n - 4, t, t, t, t, 0xffffff);
    Nibble(0xffffff, n - 8, t, t, t, t, 0xfffff);
    Nibble(0xfffff, n - 12, t, t, t, t, 0xffff);
  }

  lemma HighOnes(n: nat)
    requires n >= 16
    ensures var t, f := true, false;
            LowBits(0xffff, n) == [t, t, t, t, t, t, t, t, t, t, t, t, t, t, t, t] + LowBits(0x0, n - 16)
  {
    hide LowBits;
    var t, f := true, false;
    Nibble(0xffff, n, t, t, t, t, 0xfff);
    Nibble(0xfff, n - 4, t, t, t, t, 0xff);
    Nibble(0xff, n - 8, t, t, t, t, 0xf);
    Nibble(0xf, n - 12, t, t, t, t, 0x0);
  }

  lemma GeneratorBits()
    ensures var t, f := true, false;
            Generator()[1..] == [f, f, f, f, f, t, f, f, t, t, f, f, f, f, f, t]
                                + [f, f, f, t, t, t, f, t, t, f, t, t, f, t, t, t]
  {
  }

  /** The constant of the code is the generator without its leading term. */
  lemma PolyIsGenerator()
    ensures Coefficients(POLY) == Generator()[1..]
  {
    hide LowBits;
    hide Generator;
    LowPoly(32);
    HighPoly(16);
    NoBits(0);
    GeneratorBits();
  }

  function Ones(n: nat): (o: seq<bool>)
    ensures |o| == n && forall i :: 0 <= i < n ==> o[i]
  {
    seq(n, _ => true)
  }

  lemma OnesAreOnes()
    ensures Coefficients(ONES) == Ones(32)
  {
    hide LowBits;
    LowOnes(32);
    HighOnes(16);
    NoBits(0);
  }

  /** One message bit: a step of the register is a step of the division. */
  lemma StepDivides(c: bv32, bit: bool)
    ensures var h := Coefficients(c);
            Coefficients(SerialStep(c, bit))
            == Plus(if h[0] != bit then Generator()[1..] else Zeros(32), h[1..] + [false])
  {
    hide SerialStep;
    hide Half;
    hide Odd;
    hide Xor;
    hide LowBits;
    hide Generator;
    hide Plus;
    StepParts(c, bit);
    CoefficientsHalved(c);
    PolyIsGenerator();
    LowBitsXor(POLY, Half(c), 32);
  }

  lemma StepParts(c: bv32, bit: bool)
    ensures SerialStep(c, bit) == if Odd(c) != bit then Xor(POLY, Half(c)) else Half(c)
  {
  }

  /** What is left to divide when register h has still to take the bits. */
  function Left(bits: seq<bool>, h: seq<bool>): (n: seq<bool>)
    requires |h| == 32
    ensures |n| == |bits| + 32
  {
    PlusFront(bits + Zeros(32), h)
  }

  lemma LeftAt(bits: seq<bool>, h: seq<bool>, i: nat)
    requires |h| == 32 && i < |bits| + 32
    ensures Left(bits, h)[i] == ((i < |bits| && bits[i]) != (i < 32 && h[i]))
  {
    hide PlusFront;
  }

  lemma DivideOne(bits: seq<bool>, h: seq<bool>, h': seq<bool>)
    requires |h| == |h'| == 32 && bits != []
    requires h' == Plus(if h[0] != bits[0] then Generator()[1..] else Zeros(32), h[1..] + [false])
    ensures Remainder(Left(bits, h)) == Remainder(Left(bits[1..], h'))
  {
    var n, rest := Left(bits, h), bits[1..];
    LeftAt(bits, h, 0);
    var m := if n[0] then PlusFront(n, Generator()) else n;
    hide Remainder;
    hide Left;
    hide Generator;
    hide Plus;
    hide PlusFront;
    forall i | 0 <= i < |rest| + 32 ensures m[1..][i] == Left(rest, h')[i] {
      LeftAt(bits, h, i + 1);
      LeftAt(rest, h', i);
    }
    assert m[1..] == Left(rest, h');
    RemainderStep(n, m);
  }

  lemma RemainderStep(n: seq<bool>, m: seq<bool>)
    requires |n| > 32 && m == if n[0] then PlusFront(n, Generator()) else n
    ensures Remainder(n) == Remainder(m[1..])
  {
    hide PlusFront;
    hide Generator;
  }

  /** The register is the remainder of what it has taken. */
  lemma {:induction false} RegisterIsRemainder(c: bv32, bits: seq<bool>)
    ensures Coefficients(Shifted(c, bits)) == Remainder(Left(bits, Coefficients(c)))
    decreases |bits|
  {
    hide Coefficients;
    hide SerialStep;
    hide Generator;
    if bits == [] {
      NothingLeft(Coefficients(c));
      hide Remainder;
    } else {
      hide Remainder;
      hide Left;
      StepDivides(c, bits[0]);
      DivideOne(bits, Coefficients(c), Coefficients(SerialStep(c, bits[0])));
      RegisterIsRemainder(SerialStep(c, bits[0]), bits[1..]);
      FoldFirst(SerialStep, c, bits[0], bits[1..]);
      assert [bits[0]] + bits[1..] == bits;
    }
  }

  lemma NothingLeft(h: seq<bool>)
    requires |h| == 32
    ensures Remainder(Left([], h)) == h
  {
    assert Left([], h) == h;
  }

  // ---------- the checksum ----------

  function Complement(r: seq<bool>): (c: seq<bool>)
    ensures |c| == |r| && forall i :: 0 <= i < |r| ==> c[i] == !r[i]
  {
    seq(|r|, i requires 0 <= i < |r| => !r[i])
  }

  lemma OctetsRemainder(data: seq<octet>)
    ensures Coefficients(Checksum(data)) == Complement(Remainder(Dividend(Bits(data))))
  {
    hide Remainder;
    hide Shifted;
    hide Checksum;
    ChecksumBits(data);
    RegisterIsRemainder(ONES, Bits(data));
    OnesAreOnes();
    LowBitsXor(Shifted(ONES, Bits(data)), ONES, 32);
    hide LowBits;
    hide Bits;
    hide Xor;
    assert Left(Bits(data), Coefficients(ONES)) == Dividend(Bits(data));
  }

  // ---------- bits of bytes, as arithmetic ----------

  function LowBits8(b: bv8, n: nat): (bits: seq<bool>)
    ensures |bits| == n
    decreases n
  {
    if n == 0 then [] else [b & 1 == 1] + LowBits8(b >> 1, n - 1)
  }

  lemma {:induction false} SameLowBits(b: bv8, n: nat)
    ensures LowBits(b as bv32, n) == LowBits8(b, n)
    decreases n
  {
    if n > 0 {
      Widened(b);
      LowBitsFirst(b as bv32, n);
      SameLowBits(b >> 1, n - 1);
    }
    hide LowBits;
  }

  lemma Widened(b: bv8)
    ensures Odd(b as bv32) <==> b & 1 == 1
    ensures Half(b as bv32) == (b >> 1) as bv32
  {
  }

  lemma HalfOctet(b: bv8)
    ensures (b & 1 == 1) <==> (b as nat) % 2 == 1
    ensures (b >> 1) as nat == (b as nat) / 2
  {
  }

  lemma {:induction false} LowBits8At(b: bv8, n: nat, j: nat)
    requires j < n
    ensures LowBits8(b, n)[j] == BitAt(b as nat, j)
    decreases n
  {
    HalfOctet(b);
    if j > 0 {
      LowBits8At(b >> 1, n - 1, j - 1);
    }
  }

  lemma OctetBitsAt(o: octet, j: nat)
    requires j < 8
    ensures OctetBits(o)[j] == BitAt(Ord(o), j)
  {
    SameLowBits(o, 8);
    LowBits8At(o, 8, j);
    hide LowBits8;
    hide LowBits;
    hide BitAt;
  }

  lemma {:induction false} BitsAt(data: seq<octet>, k: nat)
    requires k < 8 * |data|
    ensures Bits(data)[k] == OctetBits(data[k / 8])[k % 8]
    decreases |data|
  {
    hide OctetBits;
    var front := data[..|data| - 1];
    if k < 8 * |front| {
      BitsAt(front, k);
    }
  }

  lemma PolynomialOfBytes(data: seq<byte>)
    ensures MessagePolynomial(data) == Bits(Octets(data))
  {
    hide Bits;
    hide BitAt;
    hide OctetBits;
    forall k | 0 <= k < 8 * |data| ensures MessagePolynomial(data)[k] == Bits(Octets(data))[k] {
      BitsAt(Octets(data), k);
      OctetBitsAt(Octet(data[k / 8]), k % 8);
      OrdOfOctet(data[k / 8]);
    }
  }

  /**
   * The checksum of clause 3.2.9: its coefficients are the complement of the remainder, modulo the generator, of the
   * message times x^32 with the first 32 coefficients complemented.
   */
  lemma ChecksumIsRemainder(data: seq<byte>)
    ensures Coefficients(Crc(data)) == Complement(Remainder(Dividend(MessagePolynomial(data))))
  {
    PolynomialOfBytes(data);
    OctetsRemainder(Octets(data));
    hide Coefficients;
    hide Remainder;
    hide Dividend;
    hide MessagePolynomial;
    hide Bits;
    hide Octets;
    hide Checksum;
  }

  /** The octets of a register, lowest last, carry its coefficients, highest power in the lowest bit. */
  lemma CrcOctetBits(c: bv32)
    ensures var o := CrcOctets(c);
            Coefficients(c) == OctetBits(o[3]) + OctetBits(o[2]) + OctetBits(o[1]) + OctetBits(o[0])
  {
    hide LowBits;
    hide Iterate;
    hide Half;
    hide Eighth;
    hide OctetBits;
    hide CrcOctets;
    hide Lowest;
    var d, e, f := Eighth(c), Eighth(Eighth(c)), Eighth(Eighth(Eighth(c)));
    LowBitsSplit(c, 8, 24);
    LowBitsSplit(d, 8, 16);
    LowBitsSplit(e, 8, 8);
    EightHalves(c);
    EightHalves(d);
    EightHalves(e);
    LowOctet(c);
    LowOctet(d);
    LowOctet(e);
    LowOctet(f);
    OctetParts(c);
  }

  function Lowest(c: bv32): octet {
    (c & 0xff) as octet
  }

  lemma OctetParts(c: bv32)
    ensures var e := Eighth(c); CrcOctets(c) == [Lowest(Eighth(Eighth(e))), Lowest(Eighth(e)), Lowest(e), Lowest(c)]
  {
  }

  lemma LowOctet(c: bv32)
    ensures LowBits(c, 8) == OctetBits(Lowest(c))
  {
    MaskedAgrees(c);
    AgreeingBits(c, Lowest(c) as bv32, 8);
  }

  lemma MaskedAgrees(c: bv32)
    ensures BitsAgree(c, Lowest(c) as bv32, 8)
  {
  }

  lemma {:induction false} AgreeingBits(v: bv32, w: bv32, n: nat)
    requires BitsAgree(v, w, n)
    ensures LowBits(v, n) == LowBits(w, n)
    decreases n
  {
    if n > 0 {
      AgreeingBits(v >> 1, w >> 1, n - 1);
    }
  }

  /** Coefficient k of the four bytes of a tag: the last byte has the highest powers, each in its lowest free bit. */
  function TagBit(tag: seq<byte>, k: nat): bool
    requires |tag| == 4 && k < 32
  {
    BitAt(tag[3 - k / 8], k % 8)
  }

  /** The tag is the complement of the remainder of the data, as clause 3.2.9 has it. */
  predicate IsTagOf(tag: seq<byte>, data: seq<byte>)
    requires |tag| == 4
  {
    var r := Remainder(Dividend(MessagePolynomial(data)));
    forall k :: 0 <= k < 32 ==> TagBit(tag, k) == !r[k]
  }

  lemma TagBitAt(c: bv32, k: nat)
    requires k < 32
    ensures TagBit(PutCrc(c), k) == Coefficients(c)[k]
  {
    hide BitAt;
    hide PutCrc;
    hide Coefficients;
    hide LowBits;
    var i, j := k / 8, k % 8;
    assert k == 8 * i + j;
    TagBitOf(c, i, j);
  }

  lemma TagBitOf(c: bv32, i: nat, j: nat)
    requires i < 4 && j < 8
    ensures BitAt(PutCrc(c)[3 - i], j) == Coefficients(c)[8 * i + j]
  {
    hide Coefficients;
    hide CrcOctets;
    hide PutCrc;
    hide OctetBits;
    hide BitAt;
    hide Ord;
    var o, h := CrcOctets(c), Coefficients(c);
    CrcOctetBits(c);
    TagOctet(c, 3 - i);
    OctetBitsAt(o[3 - i], j);
    FourOctets(h, OctetBits(o[3]), OctetBits(o[2]), OctetBits(o[1]), OctetBits(o[0]), i, j);
  }

  lemma TagOctet(c: bv32, i: nat)
    requires i < 4
    ensures PutCrc(c)[i] == Ord(CrcOctets(c)[i])
  {
    hide CrcOctets;
  }

  lemma TagIsRemainder(data: seq<byte>)
    ensures IsTagOf(PutCrc(Crc(data)), data)
  {
    hide Coefficients;
    hide Remainder;
    hide Crc;
    hide PutCrc;
    hide TagBit;
    ChecksumIsRemainder(data);
    var r := Remainder(Dividend(MessagePolynomial(data)));
    forall k | 0 <= k < 32 ensures TagBit(PutCrc(Crc(data)), k) == !r[k] {
      TagBitAt(Crc(data), k);
      assert Complement(r)[k] == !r[k];
    }
  }

  /** And no other four bytes are. */
  lemma TagIsUnique(a: seq<byte>, b: seq<byte>, data: seq<byte>)
    requires |a| == |b| == 4 && IsTagOf(a, data) && IsTagOf(b, data)
    ensures a == b
  {
    hide Remainder;
    hide TagBit;
    assert forall k :: 0 <= k < 32 ==> TagBit(a, k) == TagBit(b, k);
    SameTagByte(a, b, 0);
    SameTagByte(a, b, 1);
    SameTagByte(a, b, 2);
    SameTagByte(a, b, 3);
    hide IsTagOf;
  }

  lemma SameTagByte(a: seq<byte>, b: seq<byte>, i: nat)
    requires |a| == |b| == 4 && i < 4 && forall k :: 0 <= k < 32 ==> TagBit(a, k) == TagBit(b, k)
    ensures a[3 - i] == b[3 - i]
  {
    var x, y := a[3 - i], b[3 - i];
    forall j | 0 <= j < 8 ensures BitAt(x, j) == BitAt(y, j) {
      assert TagBit(a, 8 * i + j) == TagBit(b, 8 * i + j);
    }
    hide BitAt;
    assert TwoTo(8) == 16 * TwoTo(4) && TwoTo(4) == 16;
    SameByte(x, y, 8);
  }

  function TwoTo(n: nat): (p: nat)
    ensures p >= 1
  {
    if n == 0 then 1 else 2 * TwoTo(n - 1)
  }

  lemma {:induction false} SameByte(x: nat, y: nat, n: nat)
    requires forall j :: 0 <= j < n ==> BitAt(x, j) == BitAt(y, j)
    requires x < TwoTo(n) && y < TwoTo(n)
    ensures x == y
    decreases n
  {
    if n > 0 {
      assert BitAt(x, 0) == BitAt(y, 0);
      forall j | 0 <= j < n - 1 ensures BitAt(x / 2, j) == BitAt(y / 2, j) {
        assert BitAt(x, j + 1) == BitAt(y, j + 1);
      }
      SameByte(x / 2, y / 2, n - 1);
    }
  }

  lemma FourOctets(c: seq<bool>, a0: seq<bool>, a1: seq<bool>, a2: seq<bool>, a3: seq<bool>, i: nat, j: nat)
    requires |a0| == |a1| == |a2| == |a3| == 8 && c == a0 + a1 + a2 + a3 && i < 4 && j < 8
    ensures c[8 * i + j] == (if i == 0 then a0 else if i == 1 then a1 else if i == 2 then a2 else a3)[j]
  {
  }
}
