/** The browser side of the frame stream: frontend-user/src/lib/alf.ts. */
module BytePump {
  import opened Wrappers
  import opened Bytes
  import opened Crc32
  import opened Frames
  import opened Streams

  const MAX_FRAMED: nat := 0x20_0000

  /** The browser's frame: the same fields, with pts an unsigned 64-bit number. */
  datatype WebFrame = WebFrame(
    channel: byte, kind: byte, priority: byte, seqNo: u64, pts: u64,
    flags: byte, fragIdx: u16, fragTotal: u16, payload: seq<byte>)

  function ToWeb(f: Frame): WebFrame {
    WebFrame(f.channel, f.kind, f.priority, f.seqNo, U64OfI64(f.pts), f.flags, f.fragIdx, f.fragTotal, f.payload)
  }

  function FromWeb(w: WebFrame): Frame {
    Frame(w.channel, w.kind, w.priority, w.seqNo, I64OfU64(w.pts), w.flags, w.fragIdx, w.fragTotal, w.payload)
  }

  lemma WebRoundTrip(f: Frame, w: WebFrame)
    ensures FromWeb(ToWeb(f)) == f && ToWeb(FromWeb(w)) == w
  {
  }

  function WebHeader(w: WebFrame): (head: seq<byte>)
    ensures |head| == 31
  {
    Layout(PutBE(MAGIC, 4), [VERSION, w.channel, w.kind, w.priority], PutBE(w.seqNo, 8), PutBE(w.pts, 8),
           [w.flags], PutBE(w.fragIdx, 2), PutBE(w.fragTotal, 2), PutBE(|w.payload|, 2))
  }

  /** What encode in alf.ts returns: no validation, so that the server may refuse it. */
  function WebWire(w: WebFrame): seq<byte> {
    WebHeader(w) + PutCrc(Crc(WebHeader(w) + w.payload)) + w.payload
  }

  /** alf.ts, decode: checks the length, the magic, the version and the checksum, but not the header fields. */
  function WebDecode(raw: seq<byte>): Result<WebFrame, Error> {
    if |raw| < HEADER_SIZE then Err(ShortHeader)
    else
      var h := raw[..31];
      if GetBE(h[..4]) != MAGIC then Err(BadMagic)
      else if h[4] != VERSION then Err(BadVersion)
      else if HEADER_SIZE + GetBE(h[29..31]) != |raw| then Err(LenMismatch)
      else if Crc(h + raw[35..]) != GetCrc(raw[31..35]) then Err(BadChecksum)
      else Ok(ToWeb(Fields(h).(payload := raw[35..])))
  }

  /** Both ends put the same bytes on the wire. */
  lemma SameWire(f: Frame)
    ensures WebWire(ToWeb(f)) == Wire(f)
  {
    hide Crc;
    hide PutCrc;
  }

  /** The browser accepts what the server accepts, as the same frame; and no more, but for the header fields. */
  lemma SameDecode(raw: seq<byte>)
    ensures Decode(raw).Ok? <==> WebDecode(raw).Ok? && ValidFrame(FromWeb(WebDecode(raw).value))
    ensures Decode(raw).Ok? ==> WebDecode(raw) == Ok(ToWeb(Decode(raw).value))
  {
    hide Crc;
    hide GetCrc;
    hide HeadAndPayloadCrc;
    if |raw| >= HEADER_SIZE {
      CrcTwoWays(raw[..31], raw[35..]);
      WebRoundTrip(Fields(raw[..31]).(payload := raw[35..]), ToWeb(Fields(raw[..31]).(payload := raw[35..])));
    }
  }

  lemma CrcTwoWays(head: seq<byte>, payload: seq<byte>)
    ensures HeadAndPayloadCrc(head, payload) == Crc(head + payload)
  {
    hide Crc;
  }

  function Flat(chunks: seq<seq<byte>>): seq<byte>
    decreases |chunks|
  {
    if chunks == [] then [] else chunks[0] + Flat(chunks[1..])
  }

  lemma TakeFrom(got: seq<byte>, leftover: seq<byte>, take: nat, rest: seq<byte>)
    requires take <= |leftover|
    ensures (got + leftover[..take]) + (leftover[take..] + rest) == got + (leftover + rest)
  {
  }

  lemma NextChunk(received: seq<byte>, leftover: seq<byte>, chunks: seq<seq<byte>>)
    requires leftover == [] && chunks != []
    ensures chunks[0] + Flat(chunks[1..]) == leftover + Flat(chunks)
    ensures (received + chunks[0]) + Flat(chunks[1..]) == received + Flat(chunks)
    ensures (received + chunks[0])[|received|..] == chunks[0]
  {
  }

  lemma TakenAll(got: seq<byte>, rest: seq<byte>, all: seq<byte>)
    requires got + rest == all
    ensures |got| <= |all| && all[..|got|] == got && all[|got|..] == rest
  {
  }

  /** BytePump: a reader that delivers chunks, and the unread end of the last one. */
  class Pump {
    var chunks: seq<seq<byte>>      // still to be delivered by the reader
    var leftover: seq<byte>
    ghost var received: seq<byte>   // delivered so far
    ghost var taken: nat            // handed out so far

    ghost predicate Valid()
      reads this
    {
      taken + |leftover| == |received| && leftover == received[taken..]
    }

    /** Everything the caller has not been given yet. */
    function Unread(): seq<byte>
      reads this
    {
      leftover + Flat(chunks)
    }

    constructor (chunks: seq<seq<byte>>)
      ensures Valid() && Unread() == Flat(chunks) && received == []
    {
      this.chunks := chunks;
      leftover := [];
      received := [];
      taken := 0;
    }

    /** Copies what is left over, up to the end of out. */
    method Drain(out: array<byte>, off: nat) returns (take: nat)
      requires Valid() && off < out.Length && |leftover| > 0
      modifies this, out
      ensures Valid() && 0 < take <= out.Length - off && taken == old(taken) + take
      ensures out[..off + take] + Unread() == old(out[..off] + Unread())
      ensures received == old(received) && chunks == old(chunks)
    {
      take := if |leftover| < out.Length - off then |leftover| else out.Length - off;
      TakeFrom(out[..off], leftover, take, Flat(chunks));
      Store(out, off, leftover[..take]);
      leftover := leftover[take..];
      taken := taken + take;
    }

    /** Asks the reader for its next chunk. */
    method Refill() returns (done: bool)
      requires Valid() && leftover == []
      modifies this
      ensures Valid() && done == (old(chunks) == []) && taken == old(taken)
      ensures Unread() == old(Unread()) && (done ==> Unread() == [])
      ensures !done ==> |chunks| < old(|chunks|)
      ensures old(received) <= received && received + Flat(chunks) == old(received + Flat(chunks))
    {
      done := chunks == [];
      if !done {
        NextChunk(received, leftover, chunks);
        leftover := chunks[0];
        received := received + chunks[0];
        taken := |received| - |leftover|;
        chunks := chunks[1..];
      }
    }

    /** BytePump.read: exactly n bytes, however they were cut into chunks, empty ones included. */
    method Read(n: nat) returns (r: Result<seq<byte>, Error>)
      requires Valid()
      modifies this
      ensures Valid() && old(received) <= received && received + Flat(chunks) == old(received + Flat(chunks))
      ensures if |old(Unread())| >= n
              then r == Ok(old(Unread())[..n]) && Unread() == old(Unread())[n..] && taken == old(taken) + n
              else r == Err(Truncated) && Unread() == []
    {
      hide Valid;
      var out := new byte[n];
      var off := 0;
      while off < n
        invariant Valid() && off <= n
        invariant out[..off] + Unread() == old(Unread()) && taken == old(taken) + off
        invariant old(received) <= received && received + Flat(chunks) == old(received + Flat(chunks))
        decreases |chunks|, n - off
      {
        if |leftover| > 0 {
          var take := Drain(out, off);
          off := off + take;
        } else {
          var done := Refill();
          if done {
            assert |old(Unread())| == off;
            return Err(Truncated);
          }
        }
      }
      TakenAll(out[..off], Unread(), old(Unread()));
      assert out[..] == out[..off];
      r := Ok(out[..]);
    }

    /**
     * iterateFrames: the frames yielded before the first exception, and that exception.
     * The answer is a function of the bytes alone; the chunking plays no part.
     */
    method IterateFrames() returns (frames: seq<WebFrame>, err: Error)
      requires Valid()
      modifies this
      ensures Valid()
      ensures (frames, err) == Iterated(old(Unread()))
    {
      hide WebDecode;
      hide GetBE;
      hide Valid;
      frames := [];
      assert frames + Iterated(Unread()).0 == Iterated(Unread()).0;
      while true
        invariant Valid()
        invariant Iterated(old(Unread())) == (frames + Iterated(Unread()).0, Iterated(Unread()).1)
        decreases |Unread()|
      {
        ghost var input := Unread();
        IteratedUnfolds(frames, input);
        Windows(input);
        var head := Read(4);
        if head.Err? {
          return frames, head.error;
        }
        var n := GetBE(head.value);
        if n < HEADER_SIZE || n > MAX_FRAMED {
          return frames, PayloadTooBig;
        }
        var body := Read(n);
        if body.Err? {
          return frames, body.error;
        }
        var f := WebDecode(body.value);
        if f.Err? {
          return frames, f.error;
        }
        frames := frames + [f.value];
      }
    }
  }

  /** One turn of the loop of iterateFrames: the frame, or the exception. */
  function Turn(input: seq<byte>): Result<WebFrame, Error> {
    if |input| < 4 then Err(Truncated)
    else
      var n := GetBE(input[..4]);
      if n < HEADER_SIZE || n > MAX_FRAMED then Err(PayloadTooBig)
      else if |input| - 4 < n then Err(Truncated)
      else WebDecode(input[4..4 + n])
  }

  function Iterated(input: seq<byte>): (seq<WebFrame>, Error)
    decreases |input|
  {
    var t := Turn(input);
    if t.Err? then ([], t.error)
    else
      var (fs, e) := Iterated(input[4 + GetBE(input[..4])..]);
      ([t.value] + fs, e)
  }

  lemma IteratedUnfolds(frames: seq<WebFrame>, input: seq<byte>)
    ensures var t, (fs, e) := Turn(input), Iterated(input);
            if t.Err? then fs == [] && e == t.error && frames + fs == frames
            else var (gs, e') := Iterated(input[4 + GetBE(input[..4])..]);
                 frames + fs == (frames + [t.value]) + gs && e == e'
  {
    hide WebDecode;
    hide GetBE;
    var t := Turn(input);
    if t.Ok? {
      var gs := Iterated(input[4 + GetBE(input[..4])..]).0;
      assert frames + ([t.value] + gs) == (frames + [t.value]) + gs;
    }
  }

  lemma Windows(input: seq<byte>)
    ensures |input| >= 4 ==> forall n: nat :: n <= |input| - 4 ==>
              input[4..][..n] == input[4..4 + n] && input[4..][n..] == input[4 + n..]
  {
  }

  function ToWebs(fs: seq<Frame>): seq<WebFrame> {
    seq(|fs|, i requires 0 <= i < |fs| => ToWeb(fs[i]))
  }

  lemma TurnReadsBack(f: Frame, rest: seq<byte>)
    requires Encodable(f)
    ensures Turn(Framed(f) + rest) == Ok(ToWeb(f))
    ensures (Framed(f) + rest)[4 + GetBE((Framed(f) + rest)[..4])..] == rest
  {
    hide Wire;
    hide Decode;
    hide WebDecode;
    hide PutBE;
    hide GetBE;
    hide Encodable;
    var s := Framed(f) + rest;
    assert s == PutBE(|Wire(f)|, 4) + (Wire(f) + rest);
    WireLength(f);
    PrefixReads(|Wire(f)|, Wire(f) + rest);
    assert s[4..4 + |Wire(f)|] == Wire(f);
    DecodeEncode(f);
    SameDecode(Wire(f));
  }

  lemma WireLength(f: Frame)
    requires Encodable(f)
    ensures HEADER_SIZE <= |Wire(f)| <= MAX_FRAMED && Wire(f) != []
  {
    hide Encoding;
  }

  lemma TurnAtEnd()
    ensures Iterated([]) == ([], Truncated)
  {
  }

  /** Frames written by the server are read by the browser as exactly that list, under any chunking. */
  lemma {:induction false} ServerToBrowser(fs: seq<Frame>, chunks: seq<seq<byte>>)
    requires forall f :: f in fs ==> Encodable(f)
    requires Flat(chunks) == StreamBytes(fs)
    ensures Iterated(Flat(chunks)) == (ToWebs(fs), Truncated)
    decreases |fs|
  {
    hide Turn;
    hide Framed;
    hide Encodable;
    if fs != [] {
      var rest := StreamBytes(fs[1..]);
      TurnReadsBack(fs[0], rest);
      assert Flat([rest]) == rest + [];
      assert rest + [] == rest;
      ServerToBrowser(fs[1..], [rest]);
      assert ToWebs(fs) == [ToWeb(fs[0])] + ToWebs(fs[1..]);
    } else {
      TurnAtEnd();
    }
  }

  /** What has been yielded never depends on the bytes still to come. */
  lemma {:induction false} YieldedIsFinal(input: seq<byte>, more: seq<byte>)
    ensures Iterated(input).0 <= Iterated(input + more).0
    decreases |input|
  {
    hide WebDecode;
    hide GetBE;
    var t := Turn(input);
    if t.Ok? {
      var n := GetBE(input[..4]);
      assert (input + more)[..4] == input[..4];
      assert (input + more)[4..4 + n] == input[4..4 + n];
      assert (input + more)[4 + n..] == input[4 + n..] + more;
      YieldedIsFinal(input[4 + n..], more);
    }
  }
}
