/** Cutting a message into frames: alf/fragment.go. */
module Fragments {
  import opened Wrappers
  import opened Bytes
  import opened Frames

  /** Division rounded up, as Split computes it. */
  function Pieces(len: nat, max: nat): (n: nat)
    requires max >= 1
    ensures len > 0 ==> n >= 1 && (n - 1) * max < len <= n * max
    ensures len == 0 ==> n == 0
  {
    var n := (len + max - 1) / max;
    assert n * max == len + max - 1 - (len + max - 1) % max;
    n
  }

  function Min(a: nat, b: nat): nat {
    if a < b then a else b
  }

  /** The bytes of piece i. */
  function Piece(payload: seq<byte>, max: nat, i: nat): seq<byte> {
    payload[Min(i * max, |payload|)..Min(i * max + max, |payload|)]
  }

  function Fragment(base: Frame, payload: seq<byte>, max: nat, i: nat): Frame
    requires max >= 1 && i < Pieces(|payload|, max) <= MAX_FRAG
  {
    var n := Pieces(|payload|, max);
    base.(fragIdx := i, fragTotal := n, payload := Piece(payload, max, i),
          flags := if i == n - 1 then SetEom(base.flags) else ClearEom(base.flags))
  }

  /** The frame that the receiver should end up with: one fragment, the whole payload, end of message. */
  function Whole(base: Frame, payload: seq<byte>): Frame {
    base.(fragIdx := 0, fragTotal := 1, payload := payload, flags := SetEom(base.flags))
  }

  predicate Splittable(base: Frame, payload: seq<byte>, max: int) {
    && max >= 1 && ValidChannel(base.channel) && ValidKind(base.kind)
    && Pieces(|payload|, max) <= MAX_FRAG
  }

  function FragmentsOf(base: Frame, payload: seq<byte>, max: nat): (fs: seq<Frame>)
    requires Splittable(base, payload, max)
  {
    if |payload| == 0 then [Whole(base, [])]
    else seq(Pieces(|payload|, max), i requires 0 <= i < Pieces(|payload|, max) => Fragment(base, payload, max, i))
  }

  /** fragment.go, Split. Only the channel and kind of the template matter, not its fragment fields. */
  method Split(base: Frame, payload: seq<byte>, maxPayload: int) returns (r: Result<seq<Frame>, Error>)
    ensures r.Ok? <==> Splittable(base, payload, maxPayload)
    ensures r.Ok? ==> r.value == FragmentsOf(base, payload, maxPayload)
    ensures r.Err? ==> r.error == if maxPayload < 1 then PayloadTooBig
                                  else if !ValidChannel(base.channel) then BadChannel
                                  else if !ValidKind(base.kind) then BadKind
                                  else PayloadTooBig
  {
    if maxPayload < 1 {
      return Err(PayloadTooBig);
    }
    if HeaderError(base).Some? && base.fragTotal != 0 {
      if !ValidChannel(base.channel) || !ValidKind(base.kind) {
        return Err(HeaderError(base).value);
      }
    }
    if !ValidChannel(base.channel) {
      return Err(BadChannel);
    }
    if !ValidKind(base.kind) {
      return Err(BadKind);
    }
    if |payload| == 0 {
      return Ok([base.(fragIdx := 0, fragTotal := 1, flags := SetEom(base.flags), payload := [])]);
    }
    var n := Pieces(|payload|, maxPayload);
    if n > MAX_FRAG {
      return Err(PayloadTooBig);
    }
    var out: seq<Frame> := [];
    for i := 0 to n
      invariant |out| == i
      invariant forall k :: 0 <= k < i ==> out[k] == Fragment(base, payload, maxPayload, k)
    {
      PieceBounds(|payload|, maxPayload, i);
      var start := i * maxPayload;
      var end := start + maxPayload;
      if end > |payload| {
        end := |payload|;
      }
      var f := base.(fragIdx := i, fragTotal := n, payload := payload[start..end]);
      if i == n - 1 {
        f := f.(flags := SetEom(f.flags));
      } else {
        f := f.(flags := ClearEom(f.flags));
      }
      out := out + [f];
    }
    r := Ok(out);
  }

  lemma PieceBounds(len: nat, max: nat, i: nat)
    requires max >= 1 && i < Pieces(len, max)
    ensures 0 <= i * max < len
  {
    var n := Pieces(len, max);
    assert i * max <= (n - 1) * max;
  }

  /** The first k pieces, joined. */
  function Joined(payload: seq<byte>, max: nat, k: nat): seq<byte> {
    if k == 0 then [] else Joined(payload, max, k - 1) + Piece(payload, max, k - 1)
  }

  lemma {:induction false} JoinedIsPrefix(payload: seq<byte>, max: nat, k: nat)
    ensures Joined(payload, max, k) == payload[..Min(k * max, |payload|)]
  {
    if k > 0 {
      JoinedIsPrefix(payload, max, k - 1);
      assert (k - 1) * max + max == k * max;
    }
  }

  /** The pieces put together in order are the payload: nothing lost, repeated or reordered. */
  lemma PiecesCoverPayload(payload: seq<byte>, max: nat)
    requires max >= 1
    ensures Joined(payload, max, Pieces(|payload|, max)) == payload
  {
    JoinedIsPrefix(payload, max, Pieces(|payload|, max));
  }

  /** Every fragment is a valid frame of at most max bytes, and only the last one ends the message. */
  lemma FragmentsWellFormed(base: Frame, payload: seq<byte>, max: nat, i: nat)
    requires Splittable(base, payload, max)
    requires i < |FragmentsOf(base, payload, max)|
    ensures var fs := FragmentsOf(base, payload, max); var f := fs[i];
            && ValidFrame(f) && f.fragIdx == i && f.fragTotal == |fs| <= MAX_FRAG
            && |f.payload| <= max && (payload != [] ==> f.payload != [])
            && (f.EndOfMessage() <==> i == |fs| - 1)
  {
    hide Piece;
    hide Pieces;
    if payload != [] {
      PieceSize(payload, max, i);
    }
  }

  lemma PieceSize(payload: seq<byte>, max: nat, i: nat)
    requires max >= 1 && i < Pieces(|payload|, max)
    ensures 1 <= |Piece(payload, max, i)| <= max
  {
    PieceBounds(|payload|, max, i);
    hide Pieces;
  }

  /** One fragment is the whole message, and needs no reassembly. */
  lemma SingleFragment(base: Frame, payload: seq<byte>, max: nat)
    requires Splittable(base, payload, max)
    requires |FragmentsOf(base, payload, max)| == 1
    ensures FragmentsOf(base, payload, max)[0] == Whole(base, payload)
  {
    if payload != [] {
      assert Pieces(|payload|, max) == 1;
      assert |payload| <= max;
    }
  }
}
