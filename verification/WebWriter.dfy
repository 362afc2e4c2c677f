/** The browser as writer, encode and writeStream of frontend-user/src/lib/alf.ts, and the server as reader. */
module WebWriter {
  import opened Wrappers
  import opened Bytes
  import opened Crc32
  import opened Frames
  import opened Streams
  import opened BytePump

  /** encode: the buffer is filled field by field; nothing is validated, and long lengths are cut to 16 bits. */
  method EncodeWeb(w: WebFrame) returns (raw: seq<byte>)
    ensures raw == WebWire(w)
  {
    var buf := new byte[HEADER_SIZE + |w.payload|];
    PutHead(buf, w);
    var crc := Crc(buf[..31] + w.payload);
    PutPayload(buf, w.payload);
    Seal(buf, PutCrc(crc));
    raw := buf[..];
    hide Layout;
    hide Crc;
    hide PutCrc;
  }

  method PutHead(buf: array<byte>, w: WebFrame)
    requires buf.Length >= HEADER_SIZE
    modifies buf
    ensures buf[..31] == WebHeader(w)
  {
    Store(buf, 0, PutBE(MAGIC, 4));
    assert buf[..4] == PutBE(MAGIC, 4);
    Store(buf, 4, [VERSION, w.channel, w.kind, w.priority]);
    Store(buf, 8, PutBE(w.seqNo, 8));
    Store(buf, 16, PutBE(w.pts, 8));
    Store(buf, 24, [w.flags]);
    Store(buf, 25, PutBE(w.fragIdx, 2));
    Store(buf, 27, PutBE(w.fragTotal, 2));
    Store(buf, 29, PutBE(|w.payload|, 2));
  }

  function WebFramed(w: WebFrame): seq<byte> {
    PutBE(|WebWire(w)|, 4) + WebWire(w)
  }

  /** The bytes of a list of frames, as successive writeStream calls leave them. */
  function WebStream(ws: seq<WebFrame>): seq<byte>
    decreases |ws|
  {
    if ws == [] then [] else WebFramed(ws[0]) + WebStream(ws[1..])
  }

  class Writer {
    var out: seq<byte>

    constructor ()
      ensures out == []
    {
      out := [];
    }

    /** writeStream: prefix, then body. */
    method WriteStream(w: WebFrame)
      modifies this
      ensures out == old(out) + WebFramed(w)
    {
      hide WebWire;
      hide PutBE;
      var raw := EncodeWeb(w);
      var prefix := PutBE(|raw|, 4);
      out := out + prefix;
      out := out + raw;
      assert (old(out) + prefix) + raw == old(out) + (prefix + raw);
    }
  }

  lemma WebWireIs(w: WebFrame)
    ensures WebWire(w) == Wire(FromWeb(w))
  {
    hide Wire;
    hide WebWire;
    WebRoundTrip(FromWeb(w), w);
    SameWire(FromWeb(w));
  }

  /** Although the browser validates nothing, the server accepts exactly what it would have encoded itself. */
  lemma ServerAcceptsIff(w: WebFrame)
    ensures Decode(WebWire(w)).Ok? <==> Encodable(FromWeb(w))
    ensures Encodable(FromWeb(w)) ==> Decode(WebWire(w)) == Ok(FromWeb(w))
  {
    hide Decode;
    WebWireIs(w);
    var f := FromWeb(w);
    hide WebWire;
    if Encodable(f) {
      DecodeEncode(f);
    }
    if Decode(Wire(f)).Ok? {
      Accepted(Wire(f));
      EncodeDecode(Wire(f));
      WireLayout(f);
      hide Wire;
      FieldsOfHeader(f);
    }
  }

  /**
   * One frame from the browser, as ReadFrame sees it: the frame itself exactly when it is encodable and not too long,
   * and otherwise an error.
   */
  lemma WebFrameReads(w: WebFrame, rest: seq<byte>, maxSize: nat)
    requires |WebWire(w)| < 0x1_0000_0000
    ensures var r := FrameRead(WebFramed(w) + rest, maxSize);
            && (r.1.Ok? <==> Encodable(FromWeb(w)) && |WebWire(w)| <= maxSize)
            && (r.1.Ok? ==> r == (rest, Ok(FromWeb(w))))
  {
    var raw := WebWire(w);
    WebLength(w);
    ServerAcceptsIff(w);
    hide WebWire;
    hide Decode;
    hide PutBE;
    hide GetBE;
    hide Encodable;
    assert WebFramed(w) + rest == PutBE(|raw|, 4) + (raw + rest);
    PrefixReads(|raw|, raw + rest);
    assert (raw + rest)[..|raw|] == raw && (raw + rest)[|raw|..] == rest;
  }

  lemma WebLength(w: WebFrame)
    ensures |WebWire(w)| == HEADER_SIZE + |w.payload|
  {
    WebWireIs(w);
    hide WebWire;
    hide Wire;
  }

  function FromWebs(ws: seq<WebFrame>): seq<Frame> {
    seq(|ws|, i requires 0 <= i < |ws| => FromWeb(ws[i]))
  }

  /** Encodable frames written by the browser are read by the server as exactly that list, and then a clean end. */
  lemma {:induction false} BrowserToServer(ws: seq<WebFrame>, maxSize: nat)
    requires forall w :: w in ws ==> Encodable(FromWeb(w)) && |WebWire(w)| <= maxSize
    ensures ReadAll(WebStream(ws), maxSize) == (FromWebs(ws), EndOfStream)
    decreases |ws|
  {
    hide FrameRead;
    hide WebFramed;
    hide WebWire;
    EndRead(maxSize);
    if ws != [] {
      WebLength(ws[0]);
      WebFrameReads(ws[0], WebStream(ws[1..]), maxSize);
      BrowserToServer(ws[1..], maxSize);
      assert FromWebs(ws) == [FromWeb(ws[0])] + FromWebs(ws[1..]);
    }
  }
}
