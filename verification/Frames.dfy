/** The ALF frame and its binary codec: alf/channel.go and alf/frame.go. */
module Frames {
  import opened Wrappers
  import opened Bytes
  import opened Crc32

  const MAGIC: nat := 0x474C4146
  const VERSION: byte := 1
  const HEADER_SIZE: nat := 35
  const MAX_FRAG: nat := 4096

  const CHANNEL_SIGNAL: byte := 0
  const CHANNEL_VIDEO: byte := 3
  const CHANNEL_FILE: byte := 4

  // FlagEndOfMessage is bit 0 of the flags byte.
  predicate HasEom(flags: byte) {
    flags % 2 == 1
  }

  /** flags | FlagEndOfMessage. */
  function SetEom(flags: byte): byte {
    if HasEom(flags) then flags else flags + 1
  }

  /** flags &^ FlagEndOfMessage. */
  function ClearEom(flags: byte): byte {
    if HasEom(flags) then flags - 1 else flags
  }

  datatype Error =
    | ShortHeader | BadMagic | BadVersion | BadChannel | BadKind | BadFrag
    | LenMismatch | BadChecksum | PayloadTooBig | Truncated | EndOfStream | UnexpectedEnd | WriteFailed

  /** A nil and an empty payload are the same sequence here; the codec treats them alike. */
  datatype Frame = Frame(
    channel: byte, kind: byte, priority: byte, seqNo: u64, pts: i64,
    flags: byte, fragIdx: u16, fragTotal: u16, payload: seq<byte>)
  {
    function Size(): nat {
      HEADER_SIZE + |payload|
    }

    /** fragIdx+1 is uint16 arithmetic and wraps. */
    predicate EndOfMessage() {
      HasEom(flags) || fragTotal <= 1 || (fragIdx + 1) % 0x1_0000 == fragTotal
    }
  }

  predicate ValidChannel(c: byte) {
    c <= CHANNEL_FILE
  }

  predicate ValidKind(k: byte) {
    k == 1 || k == 2 || k == 3
  }

  predicate Reliable(c: byte) {
    c == CHANNEL_SIGNAL || c == CHANNEL_FILE || c == CHANNEL_VIDEO
  }

  /** validateHeader: the first failing check, in the source's order. */
  function HeaderError(f: Frame): Option<Error> {
    if !ValidChannel(f.channel) then Some(BadChannel)
    else if !ValidKind(f.kind) then Some(BadKind)
    else if f.fragTotal == 0 || f.fragTotal > MAX_FRAG || f.fragIdx >= f.fragTotal then Some(BadFrag)
    else None
  }

  predicate ValidFrame(f: Frame) {
    HeaderError(f).None?
  }

  predicate Encodable(f: Frame) {
    ValidFrame(f) && |f.payload| < 0x1_0000
  }

  // ---------- the wire layout ----------

  /** Bytes 0-30, the part of the header that the checksum covers. */
  function Header(f: Frame): (s: seq<byte>)
    ensures |s| == 31
  {
    Layout(PutBE(MAGIC, 4), [VERSION, f.channel, f.kind, f.priority], PutBE(f.seqNo, 8),
           PutBE(U64OfI64(f.pts), 8), [f.flags], PutBE(f.fragIdx, 2), PutBE(f.fragTotal, 2), PutBE(|f.payload|, 2))
  }

  function Layout(magic: seq<byte>, ids: seq<byte>, seqNo: seq<byte>, pts: seq<byte>, flags: seq<byte>,
                  idx: seq<byte>, total: seq<byte>, len: seq<byte>): seq<byte> {
    magic + ids + seqNo + pts + flags + idx + total + len
  }

  lemma LayoutCut(magic: seq<byte>, ids: seq<byte>, seqNo: seq<byte>, pts: seq<byte>, flags: seq<byte>,
                  idx: seq<byte>, total: seq<byte>, len: seq<byte>)
    requires |magic| == |ids| == 4 && |seqNo| == |pts| == 8 && |flags| == 1 && |idx| == |total| == |len| == 2
    ensures var h := Layout(magic, ids, seqNo, pts, flags, idx, total, len);
            && |h| == 31
            && h[..4] == magic && h[4..8] == ids && h[8..16] == seqNo && h[16..24] == pts && h[24..25] == flags
            && h[25..27] == idx && h[27..29] == total && h[29..31] == len
  {
  }

  lemma LayoutJoin(h: seq<byte>)
    requires |h| == 31
    ensures h == Layout(h[..4], [h[4], h[5], h[6], h[7]], h[8..16], h[16..24], [h[24]], h[25..27], h[27..29], h[29..31])
  {
  }

  function Wire(f: Frame): (raw: seq<byte>)
    ensures |raw| == f.Size()
  {
    Header(f) + PutCrc(Crc(Header(f) + f.payload)) + f.payload
  }

  /** What Encode returns. */
  function Encoding(f: Frame): Result<seq<byte>, Error> {
    if HeaderError(f).Some? then Err(HeaderError(f).value)
    else if |f.payload| > 0xFFFF then Err(PayloadTooBig)
    else Ok(Wire(f))
  }

  /** frame.go, Encode with writeHeader: a buffer filled in place. */
  method Encode(f: Frame) returns (r: Result<seq<byte>, Error>)
    ensures r == Encoding(f)
  {
    if HeaderError(f).Some? {
      return Err(HeaderError(f).value);
    }
    if |f.payload| > 0xFFFF {
      return Err(PayloadTooBig);
    }
    var buf := NewBuffer(f);
    var tag := PutCrc(HeadAndPayloadCrc(buf[..31], f.payload));
    Seal(buf, tag);
    r := Ok(buf[..]);
  }

  method NewBuffer(f: Frame) returns (buf: array<byte>)
    ensures fresh(buf) && buf.Length == f.Size()
    ensures buf[..31] == Header(f) && buf[35..] == f.payload
  {
    buf := new byte[HEADER_SIZE + |f.payload|];
    WriteHeader(buf, f);
    PutPayload(buf, f.payload);
  }

  method PutPayload(buf: array<byte>, payload: seq<byte>)
    requires buf.Length == HEADER_SIZE + |payload|
    modifies buf
    ensures buf[..31] == old(buf[..31]) && buf[35..] == payload
  {
    Store(buf, HEADER_SIZE, payload);
    assert buf[..35 + |payload|][..31] == old(buf[..31]);
  }

  /** Puts the checksum bytes into place. */
  method Seal(buf: array<byte>, tag: seq<byte>)
    requires buf.Length >= HEADER_SIZE && |tag| == 4
    modifies buf
    ensures buf[..] == old(buf[..31]) + tag + old(buf[35..])
  {
    Store(buf, 31, tag);
    assert buf[35..] == old(buf[35..]);
    assert buf[..] == buf[..35] + buf[35..];
  }

  /** The two crc32 calls of Encode and of Decode. */
  function HeadAndPayloadCrc(head: seq<byte>, payload: seq<byte>): (crc: bv32)
    ensures crc == Crc(head + payload)
  {
    CrcContinues(head, payload);
    CrcUpdate(Crc(head), payload)
  }

  method WriteHeader(buf: array<byte>, f: Frame)
    requires buf.Length >= HEADER_SIZE
    modifies buf
    ensures buf[..31] == Header(f)
    ensures forall i :: 31 <= i < buf.Length ==> buf[i] == old(buf[i])
  {
    Store(buf, 0, PutBE(MAGIC, 4));
    assert buf[..4] == PutBE(MAGIC, 4);
    Store(buf, 4, [VERSION, f.channel, f.kind, f.priority]);
    Store(buf, 8, PutBE(f.seqNo, 8));
    Store(buf, 16, PutBE(U64OfI64(f.pts), 8));
    Store(buf, 24, [f.flags]);
    Store(buf, 25, PutBE(f.fragIdx, 2));
    Store(buf, 27, PutBE(f.fragTotal, 2));
    Store(buf, 29, PutBE(|f.payload|, 2));
  }

  function U16(s: seq<byte>): u16
    requires |s| == 2
  {
    Widths();
    GetBE(s)
  }

  function U64(s: seq<byte>): u64
    requires |s| == 8
  {
    Widths();
    GetBE(s)
  }

  /** The frame that bytes 0-30 describe, with an empty payload. */
  function Fields(h: seq<byte>): Frame
    requires |h| == 31
  {
    Frame(h[5], h[6], h[7], U64(h[8..16]), I64OfU64(U64(h[16..24])), h[24], U16(h[25..27]), U16(h[27..29]), [])
  }

  /** frame.go, Decode. */
  function Decode(raw: seq<byte>): (r: Result<Frame, Error>) {
    if |raw| < HEADER_SIZE then Err(ShortHeader)
    else
      var h := raw[..31];
      if GetBE(h[..4]) != MAGIC then Err(BadMagic)
      else if h[4] != VERSION then Err(BadVersion)
      else
        var f := Fields(h);
        var plen := GetBE(h[29..31]);
        if HEADER_SIZE + plen > |raw| then Err(Truncated)
        else if HEADER_SIZE + plen != |raw| then Err(LenMismatch)
        else if HeaderError(f).Some? then Err(HeaderError(f).value)
        else if HeadAndPayloadCrc(h, raw[35..]) != GetCrc(raw[31..35]) then Err(BadChecksum)
        else Ok(f.(payload := raw[35..]))
  }

  // ---------- the codec is a bijection ----------

  lemma WireLayout(f: Frame)
    ensures var raw := Wire(f);
            && raw[..31] == Header(f) && raw[31..35] == PutCrc(Crc(Header(f) + f.payload))
            && raw[35..] == f.payload
  {
  }

  /** Reading a header back gives the fields it was written from. */
  lemma FieldsOfHeader(f: Frame)
    requires |f.payload| < 0x1_0000
    ensures var h := Header(f);
            && GetBE(h[..4]) == MAGIC && h[4] == VERSION && GetBE(h[29..31]) == |f.payload|
            && Fields(h) == f.(payload := [])
  {
    var h := Header(f);
    LayoutCut(PutBE(MAGIC, 4), [VERSION, f.channel, f.kind, f.priority], PutBE(f.seqNo, 8),
              PutBE(U64OfI64(f.pts), 8), [f.flags], PutBE(f.fragIdx, 2), PutBE(f.fragTotal, 2), PutBE(|f.payload|, 2));
    assert h[4] == h[4..8][0] && h[5] == h[4..8][1] && h[6] == h[4..8][2] && h[7] == h[4..8][3];
    assert h[24] == h[24..25][0];
    Widths();
    GetPut(MAGIC, 4);
    GetPut(f.seqNo, 8);
    GetPut(U64OfI64(f.pts), 8);
    GetPut(f.fragIdx, 2);
    GetPut(f.fragTotal, 2);
    GetPut(|f.payload|, 2);
  }

  lemma U16Back(s: seq<byte>)
    requires |s| == 2
    ensures PutBE(U16(s), 2) == s
  {
    PutGet(s);
  }

  lemma U64Back(s: seq<byte>)
    requires |s| == 8
    ensures PutBE(U64(s), 8) == s
    ensures PutBE(U64OfI64(I64OfU64(U64(s))), 8) == s
  {
    PutGet(s);
  }

  /** Writing the fields read from a header gives that header. */
  lemma HeaderOfFields(h: seq<byte>, payload: seq<byte>)
    requires |h| == 31
    requires h[..4] == PutBE(MAGIC, 4) && h[4] == VERSION && h[29..31] == PutBE(|payload|, 2)
    ensures Header(Fields(h).(payload := payload)) == h
  {
    LayoutJoin(h);
    U64Back(h[8..16]);
    U64Back(h[16..24]);
    U16Back(h[25..27]);
    U16Back(h[27..29]);
  }

  /** Decode undoes Encode on every frame that Encode accepts, negative timestamps included. */
  lemma DecodeEncode(f: Frame)
    requires Encodable(f)
    ensures Decode(Wire(f)) == Ok(f)
  {
    WireLayout(f);
    FieldsOfHeader(f);
    GetPutCrc(Crc(Header(f) + f.payload));
  }

  lemma ThreeParts(raw: seq<byte>)
    requires |raw| >= HEADER_SIZE
    ensures raw == raw[..31] + raw[31..35] + raw[35..]
  {
  }

  /** What Decode has checked when it accepts. */
  lemma Accepted(raw: seq<byte>)
    requires Decode(raw).Ok?
    ensures |raw| >= HEADER_SIZE && Decode(raw).value == Fields(raw[..31]).(payload := raw[35..])
    ensures Header(Decode(raw).value) == raw[..31]
    ensures PutCrc(Crc(raw[..31] + raw[35..])) == raw[31..35]
  {
    var h := raw[..31];
    PutGet(h[..4]);
    PutGet(h[29..31]);
    HeaderOfFields(h, raw[35..]);
    PutGetCrc(raw[31..35]);
  }

  /** Encode undoes Decode: no two byte strings are accepted as the same frame. */
  lemma EncodeDecode(raw: seq<byte>)
    requires Decode(raw).Ok?
    ensures Encodable(Decode(raw).value)
    ensures Wire(Decode(raw).value) == raw
  {
    PayloadFits(raw);
    Accepted(raw);
    ThreeParts(raw);
  }

  lemma PayloadFits(raw: seq<byte>)
    requires Decode(raw).Ok?
    ensures Encodable(Decode(raw).value)
  {
    Widths();
  }

  /** The byte strings Decode accepts are exactly the encodings of valid frames. */
  lemma AcceptedIffEncoding(raw: seq<byte>)
    ensures Decode(raw).Ok? <==> exists f :: Encodable(f) && Wire(f) == raw
  {
    if Decode(raw).Ok? {
      EncodeDecode(raw);
    }
    forall f | Encodable(f) && Wire(f) == raw ensures Decode(raw).Ok? {
      DecodeEncode(f);
    }
  }

  /** Different frames have different encodings. */
  lemma WireInjective(f: Frame, g: Frame)
    requires Encodable(f) && Encodable(g) && Wire(f) == Wire(g)
    ensures f == g
  {
    DecodeEncode(f);
    DecodeEncode(g);
  }
}
