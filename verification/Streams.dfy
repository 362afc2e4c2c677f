/** Length-prefixed frames on a reliable byte stream: alf/stream.go. */
module Streams {
  import opened Wrappers
  import opened Bytes
  import opened Frames

  function Framed(f: Frame): seq<byte> {
    PutBE(|Wire(f)|, 4) + Wire(f)
  }

  /** The bytes of a list of frames, as successive WriteFrame calls leave them. */
  function StreamBytes(fs: seq<Frame>): seq<byte>
    decreases |fs|
  {
    if fs == [] then [] else Framed(fs[0]) + StreamBytes(fs[1..])
  }

  lemma EncodesIffEncodable(f: Frame)
    ensures Encoding(f).Ok? <==> Encodable(f)
    ensures Encodable(f) ==> Encoding(f) == Ok(Wire(f))
  {
    hide Wire;
  }

  class StreamWriter {
    var out: seq<byte>

    constructor ()
      ensures out == []
    {
      out := [];
    }

    /**
     * The underlying writer takes up to first bytes of the prefix and up to second bytes of the body; it fails when
     * that is not all. A frame that does not encode writes nothing, not even its prefix.
     */
    method WriteFrame(f: Frame, first: nat, second: nat) returns (r: Option<Error>)
      modifies this
      ensures r.None? <==> Encodable(f) && first >= 4 && second >= |Wire(f)|
      ensures out == old(out) + Sent(f, first, second)
    {
      EncodesIffEncodable(f);
      hide Encoding;
      hide Wire;
      hide Encodable;
      var enc := Encode(f);
      if enc.Err? {
        return Some(enc.error);
      }
      var raw := enc.value;
      var prefix := PutBE(|raw|, 4);
      hide PutBE;
      var ok := Write(prefix, first);
      if !ok {
        return Some(WriteFailed);
      }
      ok := Write(raw, second);
      assert (old(out) + prefix) + raw[..Min(second, |raw|)] == old(out) + (prefix + raw[..Min(second, |raw|)]);
      r := if ok then None else Some(WriteFailed);
    }

    /** The underlying writer, taking at most room bytes. */
    method Write(bytes: seq<byte>, room: nat) returns (ok: bool)
      modifies this
      ensures ok <==> |bytes| <= room
      ensures out == old(out) + bytes[..Min(room, |bytes|)]
    {
      out := out + bytes[..Min(room, |bytes|)];
      ok := |bytes| <= room;
    }
  }

  function Min(a: nat, b: nat): nat {
    if a < b then a else b
  }

  /** What one WriteFrame puts on the stream: the framed encoding, if need be cut short. */
  function Sent(f: Frame, first: nat, second: nat): seq<byte> {
    if !Encodable(f) then []
    else if first < 4 then PutBE(|Wire(f)|, 4)[..first]
    else PutBE(|Wire(f)|, 4) + Wire(f)[..Min(second, |Wire(f)|)]
  }

  /** It is always the beginning of the framed encoding, and all of it when both writes succeed. */
  lemma SentIsPrefix(f: Frame, first: nat, second: nat)
    requires Encodable(f)
    ensures Sent(f, first, second) <= Framed(f)
    ensures Sent(f, first, second) == Framed(f) <==> first >= 4 && second >= |Wire(f)|
  {
    hide Wire;
    hide PutBE;
    var raw := Wire(f);
    if first >= 4 {
      assert PutBE(|raw|, 4) + raw[..Min(second, |raw|)] == Framed(f)[..4 + Min(second, |raw|)];
    } else {
      assert PutBE(|raw|, 4)[..first] == Framed(f)[..first];
    }
  }

  /** io.ReadFull: all n bytes; or EOF when there are none; or an unexpected end after consuming what there is. */
  function ReadFullOf(input: seq<byte>, n: nat): (seq<byte>, Result<seq<byte>, Error>) {
    if |input| >= n then (input[n..], Ok(input[..n]))
    else if input == [] then ([], Err(EndOfStream))
    else ([], Err(UnexpectedEnd))
  }

  /** One ReadFrame: what remains of the stream, and the answer. */
  function FrameRead(input: seq<byte>, maxSize: nat): (seq<byte>, Result<Frame, Error>) {
    var (rest, prefix) := ReadFullOf(input, 4);
    if prefix.Err? then (rest, Err(prefix.error))
    else
      var n := GetBE(prefix.value);
      if n < HEADER_SIZE || n > maxSize then (rest, Err(PayloadTooBig))
      else
        var (rest', body) := ReadFullOf(rest, n);
        if body.Err? then (rest', Err(if body.error == EndOfStream then Truncated else body.error))
        else (rest', Decode(body.value))
  }

  class StreamReader {
    var input: seq<byte>
    const maxSize: nat

    constructor (input: seq<byte>, maxSize: int)
      ensures this.input == input
      ensures this.maxSize == if maxSize <= 0 then HEADER_SIZE + 0x10_0000 else maxSize
    {
      this.input := input;
      this.maxSize := if maxSize <= 0 then HEADER_SIZE + 0x10_0000 else maxSize;
    }

    method ReadFull(n: nat) returns (r: Result<seq<byte>, Error>)
      modifies this
      ensures (input, r) == ReadFullOf(old(input), n)
    {
      if |input| >= n {
        r := Ok(input[..n]);
        input := input[n..];
      } else {
        r := Err(if input == [] then EndOfStream else UnexpectedEnd);
        input := [];
      }
    }

    method ReadFrame() returns (r: Result<Frame, Error>)
      modifies this
      ensures (input, r) == FrameRead(old(input), maxSize)
    {
      var prefix := ReadFull(4);
      if prefix.Err? {
        return Err(prefix.error);
      }
      var n := GetBE(prefix.value);
      if n < HEADER_SIZE || n > maxSize {
        return Err(PayloadTooBig);
      }
      var buf := ReadFull(n);
      if buf.Err? {
        if buf.error == EndOfStream {
          return Err(Truncated);
        }
        return Err(buf.error);
      }
      r := Decode(buf.value);
    }
  }

  lemma PrefixReads(n: nat, body: seq<byte>)
    requires n < 0x1_0000_0000
    ensures var s := PutBE(n, 4) + body; |s| >= 4 && s[..4] == PutBE(n, 4) && GetBE(s[..4]) == n && s[4..] == body
  {
    Widths();
    GetPut(n, 4);
  }

  /** One written frame is read back, and the rest of the stream is left untouched. */
  lemma FrameReadsBack(f: Frame, rest: seq<byte>, maxSize: nat)
    requires Encodable(f)
    ensures FrameRead(Framed(f) + rest, maxSize) ==
            if f.Size() <= maxSize then (rest, Ok(f)) else (Wire(f) + rest, Err(PayloadTooBig))
  {
    assert Framed(f) + rest == PutBE(|Wire(f)|, 4) + (Wire(f) + rest);
    PrefixReads(|Wire(f)|, Wire(f) + rest);
    assert (Wire(f) + rest)[..|Wire(f)|] == Wire(f) && (Wire(f) + rest)[|Wire(f)|..] == rest;
    DecodeEncode(f);
    hide Wire;
    hide Decode;
    hide PutBE;
    hide GetBE;
  }

  /** What repeated ReadFrame calls return, up to and including the first error. */
  function ReadAll(input: seq<byte>, maxSize: nat): (seq<Frame>, Error)
    decreases |input|
  {
    var (rest, r) := FrameRead(input, maxSize);
    if r.Err? then ([], r.error)
    else
      var (fs, e) := ReadAll(rest, maxSize);
      ([r.value] + fs, e)
  }

  lemma EndRead(maxSize: nat)
    ensures FrameRead([], maxSize) == ([], Err(EndOfStream))
  {
  }

  /** A whole stream is read back as the list that was written, and then ends cleanly. */
  lemma {:induction false} StreamReadsBack(fs: seq<Frame>, maxSize: nat)
    requires forall f :: f in fs ==> Encodable(f) && f.Size() <= maxSize
    ensures ReadAll(StreamBytes(fs), maxSize) == (fs, EndOfStream)
    decreases |fs|
  {
    hide FrameRead;
    hide Framed;
    hide Encodable;
    EndRead(maxSize);
    if fs != [] {
      FrameReadsBack(fs[0], StreamBytes(fs[1..]), maxSize);
      StreamReadsBack(fs[1..], maxSize);
      assert fs == [fs[0]] + fs[1..];
    }
  }

  /**
   * After a failed write the reader still gets every frame written before it, and then an error that tells
   * a stream that ends between frames from one that ends inside a frame.
   */
  lemma {:induction false} TornStreamReads(fs: seq<Frame>, f: Frame, n: nat, maxSize: nat)
    requires forall g :: g in fs ==> Encodable(g) && g.Size() <= maxSize
    requires Encodable(f) && f.Size() <= maxSize && n < |Framed(f)|
    ensures ReadAll(StreamBytes(fs) + Framed(f)[..n], maxSize) ==
            (fs, if n == 0 then EndOfStream else if n == 4 then Truncated else UnexpectedEnd)
    decreases |fs|
  {
    hide FrameRead;
    hide Framed;
    hide Encodable;
    var torn := Framed(f)[..n];
    if fs == [] {
      TornFrame(f, n, maxSize);
      assert [] + torn == torn;
    } else {
      var rest := StreamBytes(fs[1..]) + torn;
      FrameReadsBack(fs[0], rest, maxSize);
      assert StreamBytes(fs) + torn == Framed(fs[0]) + rest;
      TornStreamReads(fs[1..], f, n, maxSize);
      assert fs == [fs[0]] + fs[1..];
    }
  }

  lemma TornFrame(f: Frame, n: nat, maxSize: nat)
    requires Encodable(f) && f.Size() <= maxSize && n < |Framed(f)|
    ensures FrameRead(Framed(f)[..n], maxSize).1 ==
            Err(if n == 0 then EndOfStream else if n == 4 then Truncated else UnexpectedEnd)
  {
    var raw := Wire(f);
    PrefixReads(|raw|, raw);
    hide Wire;
    hide PutBE;
    hide GetBE;
    if n >= 4 {
      assert Framed(f)[..n][..4] == PutBE(|raw|, 4);
    }
  }
}
