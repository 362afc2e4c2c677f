/** Which damage to an encoded frame Decode is certain to notice (alf/frame.go, the length and checksum tests). */
module ErrorDetection {
  import opened Wrappers
  import opened Bytes
  import opened Crc32
  import opened BitBursts
  import opened Frames

  /** The bytes the checksum covers: everything but the checksum itself. */
  function Covered(raw: seq<byte>): (s: seq<byte>)
    requires |raw| >= HEADER_SIZE
    ensures |s| == |raw| - 4
  {
    raw[..31] + raw[35..]
  }

  lemma TagOfAccepted(raw: seq<byte>)
    requires Decode(raw).Ok?
    ensures |raw| >= HEADER_SIZE
    ensures raw[31..35] == PutCrc(Crc(Covered(raw)))
  {
    Accepted(raw);
  }

  /** Damage inside the checksum field only. */
  lemma RejectsTagDamage(raw: seq<byte>, bad: seq<byte>)
    requires Decode(raw).Ok? && |bad| == |raw| && bad != raw
    requires |raw| >= HEADER_SIZE && Covered(bad) == Covered(raw)
    ensures Decode(bad).Err?
  {
    if Decode(bad).Ok? {
      TagOfAccepted(raw);
      TagOfAccepted(bad);
      assert Covered(raw)[..31] == raw[..31] && Covered(raw)[31..] == raw[35..];
      assert Covered(bad)[..31] == bad[..31] && Covered(bad)[31..] == bad[35..];
      ThreeParts(raw);
      ThreeParts(bad);
    }
  }

  /** Damage confined to four consecutive covered bytes, wherever they start: header, payload, or across both. */
  lemma RejectsBurst(raw: seq<byte>, bad: seq<byte>, at: nat)
    requires Decode(raw).Ok? && |bad| == |raw| >= HEADER_SIZE
    requires at + 4 <= |raw| - 4
    requires bad[31..35] == raw[31..35]
    requires Covered(bad) != Covered(raw)
    requires Covered(bad)[..at] == Covered(raw)[..at] && Covered(bad)[at + 4..] == Covered(raw)[at + 4..]
    ensures Decode(bad).Err?
  {
    hide Decode;
    if Decode(bad).Ok? {
      TagOfAccepted(raw);
      TagOfAccepted(bad);
      WindowChangesTag(Covered(raw), Covered(bad), at);
    }
  }

  /** Damage confined to 32 consecutive covered bits, at any bit offset; bits go lowest first within each byte. */
  lemma RejectsBitBurst(raw: seq<byte>, bad: seq<byte>, at: nat, len: nat)
    requires Decode(raw).Ok? && |bad| == |raw| >= HEADER_SIZE
    requires len <= 32 && at + len <= 8 * (|raw| - 4)
    requires bad[31..35] == raw[31..35]
    requires Covered(bad) != Covered(raw)
    requires MessageBits(Covered(bad))[..at] == MessageBits(Covered(raw))[..at]
    requires MessageBits(Covered(bad))[at + len..] == MessageBits(Covered(raw))[at + len..]
    ensures Decode(bad).Err?
  {
    hide Decode;
    hide MessageBits;
    if Decode(bad).Ok? {
      TagOfAccepted(raw);
      TagOfAccepted(bad);
      CrcDetectsBitBurst(Covered(bad), Covered(raw), at, len);
      TagOneToOne(Crc(Covered(raw)), Crc(Covered(bad)));
    }
  }

  lemma WindowChangesTag(a: seq<byte>, b: seq<byte>, at: nat)
    requires |a| == |b| && at + 4 <= |a| && a != b
    requires a[..at] == b[..at] && a[at + 4..] == b[at + 4..]
    ensures PutCrc(Crc(a)) != PutCrc(Crc(b))
  {
    assert a == a[..at] + a[at..at + 4] + a[at + 4..];
    assert b == b[..at] + b[at..at + 4] + b[at + 4..];
    CrcDetectsBurst(a[..at], a[at..at + 4], b[at..at + 4], a[at + 4..]);
    TagOneToOne(Crc(a), Crc(b));
  }

  lemma TagOneToOne(c: bv32, d: bv32)
    ensures PutCrc(c) == PutCrc(d) ==> c == d
  {
    GetPutCrc(c);
    GetPutCrc(d);
    hide PutCrc;
  }

  /** Where one byte of the encoding sits among the covered bytes. */
  lemma CoveredUpdate(raw: seq<byte>, i: nat, v: byte)
    requires |raw| >= HEADER_SIZE && i < |raw| && !(31 <= i < 35)
    ensures var j := if i < 31 then i else i - 4;
            && Covered(raw)[j] == raw[i] && Covered(raw[i := v]) == Covered(raw)[j := v]
            && raw[i := v][31..35] == raw[31..35]
  {
  }

  lemma CoveredSame(raw: seq<byte>, i: nat, v: byte)
    requires |raw| >= HEADER_SIZE && 31 <= i < 35 && v != raw[i]
    ensures Covered(raw[i := v]) == Covered(raw) && raw[i := v] != raw
  {
    assert raw[i := v][i] != raw[i];
  }

  /** Any one byte changed, at any position of the encoding. */
  lemma RejectsOneByte(raw: seq<byte>, i: nat, v: byte)
    requires Decode(raw).Ok? && i < |raw| && v != raw[i]
    ensures Decode(raw[i := v]).Err?
  {
    AcceptedLength(raw);
    hide Decode;
    if 31 <= i < 35 {
      CoveredSame(raw, i, v);
      RejectsTagDamage(raw, raw[i := v]);
    } else {
      CoveredUpdate(raw, i, v);
      var j := if i < 31 then i else i - 4;
      RejectsBurst(raw, raw[i := v], if j < |raw| - 8 then j else |raw| - 8);
    }
  }

  lemma AcceptedLength(raw: seq<byte>)
    requires Decode(raw).Ok?
    ensures |raw| >= HEADER_SIZE && |raw| == HEADER_SIZE + GetBE(raw[..31][29..31])
  {
    hide HeadAndPayloadCrc;
    hide GetCrc;
  }

  /** A frame cut short, or with bytes after it, is never accepted. */
  lemma RejectsWrongLength(raw: seq<byte>, bad: seq<byte>)
    requires Decode(raw).Ok? && |bad| != |raw|
    requires bad <= raw || raw <= bad
    ensures Decode(bad).Err?
  {
    hide HeadAndPayloadCrc;
    hide GetCrc;
    AcceptedLength(raw);
    if |bad| >= HEADER_SIZE {
      assert raw[..31] == bad[..31];
    }
  }
}
