/**
 * The wire format in plain numbers: every byte of an encoded frame, and what Decode answers to any byte string
 * (alf/frame.go, alf/channel.go, alf/fragment.go).
 */
module WireFormat {
  import opened Wrappers
  import opened Bytes
  import opened Crc32
  import opened Frames
  import opened Fragments
  import opened Polynomial
  import opened BytePump
  import opened Streams

  lemma {:induction false} ByteOfBE(n: nat, k: nat, i: nat)
    requires i < k
    ensures PutBE(n, k)[i] == n / Pow256(k - 1 - i) % 256
    decreases k
  {
    if i < k - 1 {
      ByteOfBE(n / 256, k - 1, i);
      DivideTwice(n, 256, Pow256(k - 2 - i));
    }
  }

  lemma DivideTwice(n: nat, a: nat, b: nat)
    requires a >= 1 && b >= 1
    ensures n / a / b == n / (a * b)
  {
    var q, r := n / a / b, n / a % b;
    assert n / a == b * q + r;
    assert n == a * (n / a) + n % a;
    assert a * (b * q + r) == (a * b) * q + a * r;
    assert a * r + n % a < a * b by {
      Multiples(a, r, b);
    }
    UniqueQuotient(n, a * b, q, a * r + n % a);
  }

  lemma Multiples(a: nat, r: nat, b: nat)
    requires r < b
    ensures a * r + a <= a * b
  {
    assert a * (r + 1) <= a * b;
  }

  lemma UniqueQuotient(n: nat, d: nat, q: nat, r: nat)
    requires d >= 1 && n == d * q + r && r < d
    ensures n / d == q
  {
    var p := n / d;
    assert n == d * p + n % d;
    if p < q {
      Multiples(d, p, q);
    } else if p > q {
      Multiples(d, q, p);
    }
  }

  lemma ByteWeights()
    ensures Pow256(0) == 1 && Pow256(1) == 0x100 && Pow256(2) == 0x1_0000 && Pow256(3) == 0x100_0000
    ensures Pow256(4) == 0x1_0000_0000 && Pow256(5) == 0x100_0000_0000 && Pow256(6) == 0x1_0000_0000_0000
    ensures Pow256(7) == 0x100_0000_0000_0000
  {
    Widths();
    assert Pow256(3) == 256 * Pow256(2) && Pow256(5) == 256 * Pow256(4);
    assert Pow256(6) == 256 * Pow256(5) && Pow256(7) == 256 * Pow256(6);
  }

  lemma TwoOfBE(n: nat)
    ensures BytePair(PutBE(n, 2), 0, n)
  {
    ByteWeights();
    ByteOfBE(n, 2, 0);
    ByteOfBE(n, 2, 1);
    hide PutBE;
    hide Pow256;
  }

  lemma FourBytes(n: nat)
    ensures PutBE(n, 4) == [n / 0x100_0000 % 0x100, n / 0x1_0000 % 0x100, n / 0x100 % 0x100, n % 0x100]
  {
    ByteWeights();
    ByteOfBE(n, 4, 0);
    ByteOfBE(n, 4, 1);
    ByteOfBE(n, 4, 2);
    ByteOfBE(n, 4, 3);
    hide PutBE;
    hide Pow256;
  }

  /** Eight bytes of s from off on are n, most significant first. */
  predicate EightBytes(s: seq<byte>, off: nat, n: nat)
    requires off + 8 <= |s|
  {
    && s[off] == n / 0x100_0000_0000_0000 % 0x100 && s[off + 1] == n / 0x1_0000_0000_0000 % 0x100
    && s[off + 2] == n / 0x100_0000_0000 % 0x100 && s[off + 3] == n / 0x1_0000_0000 % 0x100
    && s[off + 4] == n / 0x100_0000 % 0x100 && s[off + 5] == n / 0x1_0000 % 0x100
    && s[off + 6] == n / 0x100 % 0x100 && s[off + 7] == n % 0x100
  }

  predicate BytePair(s: seq<byte>, off: nat, n: nat)
    requires off + 2 <= |s|
  {
    s[off] == n / 0x100 % 0x100 && s[off + 1] == n % 0x100
  }

  lemma EightOfBE(n: nat)
    ensures EightBytes(PutBE(n, 8), 0, n)
  {
    ByteWeights();
    ByteOfBE(n, 8, 0);
    ByteOfBE(n, 8, 1);
    ByteOfBE(n, 8, 2);
    ByteOfBE(n, 8, 3);
    ByteOfBE(n, 8, 4);
    ByteOfBE(n, 8, 5);
    ByteOfBE(n, 8, 6);
    ByteOfBE(n, 8, 7);
    hide PutBE;
    hide Pow256;
  }

  lemma PairMoved(s: seq<byte>, off: nat, t: seq<byte>, n: nat)
    requires off + 2 <= |s| && t == s[off..off + 2] && BytePair(t, 0, n)
    ensures BytePair(s, off, n)
  {
    assert t[0] == s[off] && t[1] == s[off + 1];
  }

  lemma EightMoved(s: seq<byte>, off: nat, t: seq<byte>, n: nat)
    requires off + 8 <= |s| && t == s[off..off + 8] && EightBytes(t, 0, n)
    ensures EightBytes(s, off, n)
  {
    assert forall i :: 0 <= i < 8 ==> t[i] == s[off + i];
  }

  // ---------- what Encode accepts, and what it writes ----------

  /** The answer of Encode, error for error. */
  lemma EncodeAnswers(f: Frame)
    ensures Encoding(f).Ok? <==>
              f.channel <= 4 && 1 <= f.kind <= 3 && 1 <= f.fragTotal <= 4096 && f.fragIdx < f.fragTotal
              && |f.payload| <= 65535
    ensures f.channel > 4 ==> Encoding(f) == Err(BadChannel)
    ensures f.channel <= 4 && !(1 <= f.kind <= 3) ==> Encoding(f) == Err(BadKind)
    ensures f.channel <= 4 && 1 <= f.kind <= 3 && !(1 <= f.fragTotal <= 4096 && f.fragIdx < f.fragTotal) ==>
              Encoding(f) == Err(BadFrag)
    ensures (f.channel <= 4 && 1 <= f.kind <= 3 && 1 <= f.fragTotal <= 4096 && f.fragIdx < f.fragTotal
             && |f.payload| > 65535) ==> Encoding(f) == Err(PayloadTooBig)
  {
    hide Wire;
  }

  /** Every byte of the header, at its offset; pts goes as two's complement. */
  predicate HeaderBytes(raw: seq<byte>, channel: byte, kind: byte, priority: byte, seqNo: nat, pts: int, flags: byte,
                        fragIdx: nat, fragTotal: nat, length: nat)
    requires |raw| >= 31
  {
    && raw[0] == 0x47 && raw[1] == 0x4C && raw[2] == 0x41 && raw[3] == 0x46
    && raw[4] == 1 && raw[5] == channel && raw[6] == kind && raw[7] == priority
    && EightBytes(raw, 8, seqNo)
    && EightBytes(raw, 16, pts % 0x1_0000_0000_0000_0000)
    && raw[24] == flags
    && BytePair(raw, 25, fragIdx) && BytePair(raw, 27, fragTotal) && BytePair(raw, 29, length)
  }

  /** Bytes 0-30 are the header, 31-34 the checksum of all the others, and from 35 on comes the payload. */
  predicate FrameBytes(raw: seq<byte>, f: Frame) {
    && |raw| == 35 + |f.payload|
    && HeaderBytes(raw, f.channel, f.kind, f.priority, f.seqNo, f.pts, f.flags, f.fragIdx, f.fragTotal, |f.payload|)
    && IsTagOf(raw[31..35], raw[..31] + f.payload)
    && raw[35..] == f.payload
  }

  lemma HeaderIs(f: Frame)
    ensures HeaderBytes(Header(f), f.channel, f.kind, f.priority, f.seqNo, f.pts, f.flags, f.fragIdx, f.fragTotal,
                        |f.payload|)
  {
    hide Header;
    hide EightBytes;
    hide BytePair;
    HeaderSingles(f);
    HeaderLongs(f);
    HeaderPairs(f);
  }

  lemma HeaderSlices(f: Frame)
    ensures var h := Header(f);
            && h[..4] == PutBE(MAGIC, 4) && h[4..8] == [VERSION, f.channel, f.kind, f.priority]
            && h[8..16] == PutBE(f.seqNo, 8) && h[16..24] == PutBE(U64OfI64(f.pts), 8) && h[24..25] == [f.flags]
            && h[25..27] == PutBE(f.fragIdx, 2) && h[27..29] == PutBE(f.fragTotal, 2)
            && h[29..31] == PutBE(|f.payload|, 2)
  {
    LayoutCut(PutBE(MAGIC, 4), [VERSION, f.channel, f.kind, f.priority], PutBE(f.seqNo, 8),
              PutBE(U64OfI64(f.pts), 8), [f.flags], PutBE(f.fragIdx, 2), PutBE(f.fragTotal, 2), PutBE(|f.payload|, 2));
    hide PutBE;
    hide Layout;
    hide U64OfI64;
  }

  lemma HeaderSingles(f: Frame)
    ensures var raw := Header(f);
            && raw[0] == 0x47 && raw[1] == 0x4C && raw[2] == 0x41 && raw[3] == 0x46
            && raw[4] == 1 && raw[5] == f.channel && raw[6] == f.kind && raw[7] == f.priority && raw[24] == f.flags
  {
    var h := Header(f);
    HeaderSlices(f);
    MagicBytes();
    hide Header;
    hide PutBE;
    assert h[0] == h[..4][0] && h[1] == h[..4][1] && h[2] == h[..4][2] && h[3] == h[..4][3];
    assert h[4] == h[4..8][0] && h[5] == h[4..8][1] && h[6] == h[4..8][2] && h[7] == h[4..8][3];
    assert h[24] == h[24..25][0];
  }

  lemma HeaderLongs(f: Frame)
    ensures EightBytes(Header(f), 8, f.seqNo) && EightBytes(Header(f), 16, f.pts % 0x1_0000_0000_0000_0000)
  {
    HeaderSlices(f);
    assert U64OfI64(f.pts) == f.pts % 0x1_0000_0000_0000_0000;
    hide U64OfI64;
    hide Header;
    hide PutBE;
    hide EightBytes;
    EightOfBE(f.seqNo);
    EightOfBE(U64OfI64(f.pts));
    EightMoved(Header(f), 8, PutBE(f.seqNo, 8), f.seqNo);
    EightMoved(Header(f), 16, PutBE(U64OfI64(f.pts), 8), U64OfI64(f.pts));
  }

  lemma HeaderPairs(f: Frame)
    ensures var h := Header(f);
            BytePair(h, 25, f.fragIdx) && BytePair(h, 27, f.fragTotal) && BytePair(h, 29, |f.payload|)
  {
    HeaderSlices(f);
    hide Header;
    hide PutBE;
    hide BytePair;
    TwoOfBE(f.fragIdx);
    TwoOfBE(f.fragTotal);
    TwoOfBE(|f.payload|);
    PairMoved(Header(f), 25, PutBE(f.fragIdx, 2), f.fragIdx);
    PairMoved(Header(f), 27, PutBE(f.fragTotal, 2), f.fragTotal);
    PairMoved(Header(f), 29, PutBE(|f.payload|, 2), |f.payload|);
  }

  lemma MagicBytes()
    ensures PutBE(MAGIC, 4) == [0x47, 0x4C, 0x41, 0x46]
  {
    FourBytes(MAGIC);
    hide PutBE;
  }

  lemma HeaderBytesMoved(h: seq<byte>, raw: seq<byte>, f: Frame)
    requires |h| == 31 && h <= raw
    requires HeaderBytes(h, f.channel, f.kind, f.priority, f.seqNo, f.pts, f.flags, f.fragIdx, f.fragTotal, |f.payload|)
    ensures HeaderBytes(raw, f.channel, f.kind, f.priority, f.seqNo, f.pts, f.flags, f.fragIdx, f.fragTotal,
                        |f.payload|)
  {
    assert forall i :: 0 <= i < 31 ==> raw[i] == h[i];
  }

  /** Whatever Encode accepts, it writes these bytes. */
  lemma EncodeWrites(f: Frame)
    requires Encoding(f).Ok?
    ensures FrameBytes(Encoding(f).value, f)
  {
    var raw := Wire(f);
    WireLayout(f);
    HeaderIs(f);
    hide Wire;
    hide HeaderBytes;
    HeaderBytesMoved(Header(f), raw, f);
    hide Header;
    TagIsRemainder(raw[..31] + f.payload);
    hide IsTagOf;
    hide Crc;
    hide PutCrc;
  }

  /** The browser writes the same bytes, whether or not the server would: lengths are cut to 16 bits. */
  lemma BrowserWrites(w: WebFrame)
    ensures FrameBytes(WebWire(w), FromWeb(w))
  {
    var f := FromWeb(w);
    WebRoundTrip(f, w);
    SameWire(f);
    WireLayout(f);
    HeaderIs(f);
    hide WebWire;
    hide Wire;
    hide HeaderBytes;
    HeaderBytesMoved(Header(f), Wire(f), f);
    hide Header;
    TagIsRemainder(Wire(f)[..31] + f.payload);
    hide IsTagOf;
    hide Crc;
    hide PutCrc;
  }

  // ---------- what Decode answers ----------

  /** The number in two bytes from off on. */
  function Number2(raw: seq<byte>, off: nat): nat
    requires off + 2 <= |raw|
  {
    (raw[off] as nat) * 0x100 + raw[off + 1]
  }

  /** The first failing check, in order; each in terms of single bytes. */
  function Verdict(raw: seq<byte>): Option<Error> {
    if |raw| < 35 then Some(ShortHeader)
    else if raw[0] != 0x47 || raw[1] != 0x4C || raw[2] != 0x41 || raw[3] != 0x46 then Some(BadMagic)
    else if raw[4] != 1 then Some(BadVersion)
    else if 35 + Number2(raw, 29) > |raw| then Some(Truncated)
    else if 35 + Number2(raw, 29) < |raw| then Some(LenMismatch)
    else if raw[5] > 4 then Some(BadChannel)
    else if raw[6] < 1 || raw[6] > 3 then Some(BadKind)
    else if Number2(raw, 27) < 1 || Number2(raw, 27) > 4096 || Number2(raw, 25) >= Number2(raw, 27) then Some(BadFrag)
    else if !IsTagOf(raw[31..35], raw[..31] + raw[35..]) then Some(BadChecksum)
    else None
  }

  /** Decode answers that; and when all is well, the frame that has these bytes. */
  lemma DecodeAnswers(raw: seq<byte>)
    ensures match Verdict(raw)
            case Some(e) => Decode(raw) == Err(e)
            case None => Decode(raw).Ok? && FrameBytes(raw, Decode(raw).value)
  {
    hide IsTagOf;
    hide HeadAndPayloadCrc;
    hide GetCrc;
    hide FrameBytes;
    hide Fields;
    hide GetBE;
    hide Number2;
    if |raw| >= 35 {
      HeaderNumbers(raw);
      TagChecked(raw);
      if Decode(raw).Ok? {
        DecodedBytes(raw);
      }
    }
  }

  lemma DecodedBytes(raw: seq<byte>)
    requires Decode(raw).Ok?
    ensures FrameBytes(raw, Decode(raw).value)
  {
    hide Decode;
    hide FrameBytes;
    hide Wire;
    EncodeDecode(raw);
    EncodeWrites(Decode(raw).value);
  }

  lemma HeaderNumbers(raw: seq<byte>)
    requires |raw| >= 35
    ensures var h := raw[..31];
            && (GetBE(h[..4]) == MAGIC <==> raw[0] == 0x47 && raw[1] == 0x4C && raw[2] == 0x41 && raw[3] == 0x46)
            && GetBE(h[29..31]) == Number2(raw, 29)
            && Fields(h).channel == raw[5] && Fields(h).kind == raw[6]
            && Fields(h).fragIdx == Number2(raw, 25) && Fields(h).fragTotal == Number2(raw, 27)
  {
    var h := raw[..31];
    MagicBytes();
    PutGet(h[..4]);
    Widths();
    GetPut(MAGIC, 4);
    assert h[..4] == [raw[0], raw[1], raw[2], raw[3]];
    PairNumber(h[25..27]);
    PairNumber(h[27..29]);
    PairNumber(h[29..31]);
    hide GetBE;
    hide PutBE;
  }

  lemma PairNumber(s: seq<byte>)
    requires |s| == 2
    ensures GetBE(s) == (s[0] as nat) * 0x100 + s[1]
  {
    assert GetBE(s[..1]) == s[0];
  }

  lemma TagChecked(raw: seq<byte>)
    requires |raw| >= 35
    ensures HeadAndPayloadCrc(raw[..31], raw[35..]) == GetCrc(raw[31..35])
            <==> IsTagOf(raw[31..35], raw[..31] + raw[35..])
  {
    var data, tag := raw[..31] + raw[35..], raw[31..35];
    hide IsTagOf;
    TagIsRemainder(data);
    PutGetCrc(tag);
    GetPutCrc(Crc(data));
    hide Crc;
    hide PutCrc;
    hide GetCrc;
    hide HeadAndPayloadCrc;
    if IsTagOf(tag, data) {
      TagIsUnique(tag, PutCrc(Crc(data)), data);
    }
  }

  // ---------- flags ----------

  /**
   * Split field by field: bit 0 of the flags is set on the last fragment and clear on the others; the other flag bits
   * and all other fields of the template stay.
   */
  lemma SplitWrites(base: Frame, payload: seq<byte>, max: nat, i: nat)
    requires Splittable(base, payload, max) && i < |FragmentsOf(base, payload, max)|
    ensures var fs := FragmentsOf(base, payload, max); var f := fs[i];
            && f.channel == base.channel && f.kind == base.kind && f.priority == base.priority
            && f.seqNo == base.seqNo && f.pts == base.pts
            && f.fragIdx == i && f.fragTotal == |fs|
            && f.flags / 2 == base.flags / 2 && f.flags % 2 == (if i == |fs| - 1 then 1 else 0)
  {
    hide Pieces;
    hide Piece;
  }

  /** And it cuts the payload into n pieces of max bytes each, the last one shorter or as long, none empty. */
  lemma SplitCuts(base: Frame, payload: seq<byte>, max: nat, i: nat, n: nat, from: nat)
    requires Splittable(base, payload, max) && n == |FragmentsOf(base, payload, max)| && i < n && from == i * max
    ensures payload == [] ==> n == 1 && FragmentsOf(base, payload, max)[i].payload == []
    ensures payload != [] ==> (n - 1) * max < |payload| <= n * max
    ensures payload != [] ==> from < |payload| && (i < n - 1 ==> from + max <= |payload|)
    ensures payload != [] ==>
              FragmentsOf(base, payload, max)[i].payload
              == if i == n - 1 then payload[from..] else payload[from..from + max]
  {
    if payload != [] {
      PieceBounds(|payload|, max, i);
      LastPiece(|payload|, max, i);
      PieceOf(base, payload, max, i);
      hide FragmentsOf;
      hide Splittable;
    }
  }

  lemma PieceOf(base: Frame, payload: seq<byte>, max: nat, i: nat)
    requires Splittable(base, payload, max) && payload != [] && i < |FragmentsOf(base, payload, max)|
    ensures |FragmentsOf(base, payload, max)| == Pieces(|payload|, max)
    ensures FragmentsOf(base, payload, max)[i].payload == Piece(payload, max, i)
  {
    hide Pieces;
    hide Piece;
  }

  lemma LastPiece(len: nat, max: nat, i: nat)
    requires max >= 1 && i < Pieces(len, max)
    ensures if i == Pieces(len, max) - 1 then i * max + max >= len else i * max + max <= len
  {
    var n := Pieces(len, max);
    if i < n - 1 {
      Multiples(max, i, n - 1);
    } else {
      assert n * max == i * max + max;
    }
  }

  /** The frame that the receiver ends up with: the template's fields, the whole payload, flags changed in bit 0. */
  lemma WholeIs(base: Frame, payload: seq<byte>)
    ensures var w := Whole(base, payload);
            && w.channel == base.channel && w.kind == base.kind && w.priority == base.priority
            && w.seqNo == base.seqNo && w.pts == base.pts && w.payload == payload
            && w.fragIdx == 0 && w.fragTotal == 1 && w.flags / 2 == base.flags / 2 && w.flags % 2 == 1
  {
  }

  /** When a frame ends its message: bit 0 of the flags, or a total of at most 1, or the last index. */
  lemma EndsMessageIff(f: Frame)
    ensures f.EndOfMessage() <==> f.flags % 2 == 1 || f.fragTotal <= 1 || f.fragIdx + 1 == f.fragTotal as int
  {
  }

  // ---------- length prefixes ----------

  /** The number in the first four bytes. */
  function Prefix(input: seq<byte>): nat
    requires |input| >= 4
  {
    ((input[0] as nat * 0x100 + input[1]) * 0x100 + input[2]) * 0x100 + input[3]
  }

  lemma PrefixIs(input: seq<byte>)
    requires |input| >= 4
    ensures GetBE(input[..4]) == Prefix(input)
  {
    var s := input[..4];
    assert s[..3][..2] == s[..2] && s[..2][..1] == s[..1];
    assert GetBE(s[..1]) == input[0];
    assert GetBE(s[..2]) == input[0] as nat * 0x100 + input[1];
  }

  /** ReadFrame: the prefix has to be between 35 and the limit, and that many bytes to follow; Decode says the rest. */
  lemma ReadFrameAnswers(input: seq<byte>, maxSize: nat)
    ensures var (rest, r) := FrameRead(input, maxSize);
            if |input| < 4 then r == Err(if input == [] then EndOfStream else UnexpectedEnd) && rest == []
            else if Prefix(input) < 35 || Prefix(input) > maxSize then r == Err(PayloadTooBig) && rest == input[4..]
            else if |input| < 4 + Prefix(input) then
              r == Err(if |input| == 4 then Truncated else UnexpectedEnd) && rest == []
            else r == Decode(input[4..][..Prefix(input)]) && rest == input[4..][Prefix(input)..]
  {
    hide Decode;
    hide GetBE;
    if |input| >= 4 {
      PrefixIs(input);
    }
    hide Prefix;
  }

  /** One turn of iterateFrames: the prefix has to be between 35 and 2 MiB; decode says the rest. */
  lemma TurnAnswers(input: seq<byte>)
    ensures if |input| < 4 then Turn(input) == Err(Truncated)
            else if Prefix(input) < 35 || Prefix(input) > 2097152 then Turn(input) == Err(PayloadTooBig)
            else if |input| < 4 + Prefix(input) then Turn(input) == Err(Truncated)
            else Turn(input) == WebDecode(input[4..4 + Prefix(input)])
  {
    hide WebDecode;
    hide GetBE;
    if |input| >= 4 {
      PrefixIs(input);
    }
    hide Prefix;
  }
}
