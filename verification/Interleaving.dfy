/**
 * Messages do not mix: what the reassembler does for one (channel, sequence number), in terms of the fields of the
 * frames (alf/reassembler.go). Channels 0, 3 and 4 are signal, video and file, the reliable ones.
 */
module Interleaving {
  import opened Bytes
  import opened Frames
  import opened Fragments
  import opened WireFormat
  import opened Reassembly
  import opened ReassemblyRuns
  import opened Redelivery
  import Ledger = ReassemblyLedger

  /** A push of a frame of message q on channel c. */
  predicate Own(e: Event, c: byte, q: u64) {
    e.Push? && e.f.channel == c && e.f.seqNo == q
  }

  function OwnEvents(es: seq<Event>, c: byte, q: u64): seq<Event>
    decreases |es|
  {
    if es == [] then []
    else OwnEvents(es[..|es| - 1], c, q) + (if Own(es[|es| - 1], c, q) then [es[|es| - 1]] else [])
  }

  /** The frames of message q on channel c that are handed on, in order. */
  function HandedOut(s: State, es: seq<Event>, c: byte, q: u64): seq<Frame>
    decreases |es|
  {
    if es == [] then []
    else
      var out := Next(After(s, es[..|es| - 1]), es[|es| - 1]).1;
      HandedOut(s, es[..|es| - 1], c, q)
      + (if out.Done? && out.frame.channel == c && out.frame.seqNo == q then [out.frame] else [])
  }

  // ---------- one push ----------

  /** A push leaves the entries of all other messages on reliable channels alone. */
  lemma PushSparesOthers(s: State, f: Frame, now: int, c: byte, q: u64)
    requires (c == 0 || c == 3 || c == 4) && (f.channel != c || f.seqNo != q)
    ensures var t := Pushed(s, f, now).0;
            && (Key(c, q) in t.items <==> Key(c, q) in s.items)
            && (Key(c, q) in s.items ==> t.items[Key(c, q)] == s.items[Key(c, q)])
  {
    hide Extended;
    hide Concat;
    hide HeaderError;
  }

  /** What it hands on is of its own message. */
  lemma PushHandsOnItsOwn(s: State, f: Frame, now: int)
    ensures var out := Pushed(s, f, now).1;
            out.Done? ==> out.frame.channel == f.channel && out.frame.seqNo == f.seqNo
  {
    hide Extended;
    hide Concat;
    hide HeaderError;
    hide Expire;
  }

  /** A push that meets no entry and completes nothing opens one, with the frame's own fields, good for ttl. */
  lemma PushOpens(s: State, f: Frame, now: int)
    requires Key(f.channel, f.seqNo) !in s.items && Pushed(s, f, now).1 == Incomplete
    ensures var t := Pushed(s, f, now).0; Key(f.channel, f.seqNo) in t.items
    ensures var p := Pushed(s, f, now).0.items[Key(f.channel, f.seqNo)];
            && p.kind == f.kind && p.prio == f.priority && p.pts == f.pts && p.flags == f.flags
            && p.total == f.fragTotal && p.parts == map[f.fragIdx := f.payload] && p.deadline == now + s.ttl
  {
    hide HeaderError;
    hide Concat;
    assert map[][f.fragIdx := f.payload] == map[f.fragIdx := f.payload];
  }

  /**
   * A completed message of several fragments has the fields of the entry, the first fragment's: of the flags only bit 0
   * may differ, and is set.
   */
  lemma CompletionKeepsFields(s: State, f: Frame, now: int)
    requires f.fragTotal > 1 && Pushed(s, f, now).1.Done?
    ensures Key(f.channel, f.seqNo) in s.items
    ensures var p, g := s.items[Key(f.channel, f.seqNo)], Pushed(s, f, now).1.frame;
            && g.kind == p.kind && g.priority == p.prio && g.pts == p.pts
            && g.flags / 2 == p.flags / 2 && g.flags % 2 == 1 && g.fragIdx == 0 && g.fragTotal == 1
  {
    var live := Expire(s, now);
    Ledger.FullMeets(live, f, now);
    hide Concat;
    hide HeaderError;
  }

  /** What Push refuses outright, and a message in one frame, which is handed on as it is. */
  lemma PushAtOnce(s: State, f: Frame, now: int)
    ensures f.channel > 4 ==> Pushed(s, f, now) == (s, Failed(BadChannel))
    ensures f.channel <= 4 && !(1 <= f.kind <= 3) ==> Pushed(s, f, now) == (s, Failed(BadKind))
    ensures f.channel <= 4 && 1 <= f.kind <= 3 && !(1 <= f.fragTotal <= 4096 && f.fragIdx < f.fragTotal) ==>
              Pushed(s, f, now) == (s, Failed(BadFrag))
    ensures (f.channel <= 4 && 1 <= f.kind <= 3 && 1 <= f.fragTotal <= 4096 && f.fragIdx < f.fragTotal) ==>
              && (|f.payload| > s.maxPay ==> Pushed(s, f, now) == (s, Failed(PayloadTooBig)))
              && (|f.payload| <= s.maxPay && f.fragTotal == 1 ==>
                    Pushed(s, f, now) == (s.(items := s.items - {Key(f.channel, f.seqNo)}), Done(f)))
  {
    hide Stored;
    hide Expire;
  }

  /**
   * A fragment that disagrees with its live entry about the number of fragments takes the entry away and counts as
   * a drop; one that completes a message above the size limit takes it away and does not.
   */
  lemma PushDiscards(s: State, f: Frame, now: int)
    requires Acceptable(s, f) && f.fragTotal > 1
    ensures var k, live, (t, out) := Key(f.channel, f.seqNo), Expire(s, now), Pushed(s, f, now);
            && (k in live.items && live.items[k].total != f.fragTotal ==>
                  out == Failed(BadFrag) && t == live.(items := live.items - {k}, dropped := live.dropped + 1))
            && (out == Failed(PayloadTooBig) ==> t == live.(items := live.items - {k}))
            && (out == Incomplete || out.Done? ==> t.dropped == live.dropped)
  {
    hide Expire;
    hide Extended;
    hide Concat;
  }

  // ---------- one sweep ----------

  /** What a sweep leaves. */
  lemma SweepLeaves(s: State, now: int, c: byte, q: u64)
    ensures var t := Expire(s, now);
            && (Key(c, q) in t.items <==>
                  Key(c, q) in s.items && (c == 0 || c == 3 || c == 4 || now <= s.items[Key(c, q)].deadline))
            && (Key(c, q) in t.items ==> t.items[Key(c, q)] == s.items[Key(c, q)])
  {
  }

  /** The entries that survive every sweep are those on channels 0, 3 and 4. */
  lemma SurvivesEverySweep(s: State, c: byte, q: u64)
    requires Key(c, q) in s.items
    ensures (forall now :: Key(c, q) in Expire(s, now).items) <==> c == 0 || c == 3 || c == 4
  {
    var late := s.items[Key(c, q)].deadline + 1;
    SweepLeaves(s, late, c, q);
    forall now ensures (c == 0 || c == 3 || c == 4) ==> Key(c, q) in Expire(s, now).items {
      SweepLeaves(s, now, c, q);
    }
    hide Expire;
  }

  // ---------- whole runs ----------

  /** Two states that agree on one message. */
  ghost predicate Agree(t: State, u: State, c: byte, q: u64) {
    && t.maxPay == u.maxPay && t.ttl == u.ttl
    && (Key(c, q) in t.items <==> Key(c, q) in u.items)
    && (Key(c, q) in t.items ==> t.items[Key(c, q)] == u.items[Key(c, q)])
  }

  lemma OwnPushAgrees(t: State, u: State, f: Frame, now: int)
    requires Agree(t, u, f.channel, f.seqNo) && (f.channel == 0 || f.channel == 3 || f.channel == 4)
    ensures var (t', x) := Pushed(t, f, now); var (u', y) := Pushed(u, f, now);
            Agree(t', u', f.channel, f.seqNo) && x == y
  {
    SweepLeaves(t, now, f.channel, f.seqNo);
    SweepLeaves(u, now, f.channel, f.seqNo);
    assert Expire(t, now).maxPay == t.maxPay && Expire(t, now).ttl == t.ttl;
    assert Expire(u, now).maxPay == u.maxPay && Expire(u, now).ttl == u.ttl;
    hide HeaderError;
    hide Expire;
    if |f.payload| <= t.maxPay && ValidFrame(f) && f.fragTotal != 1 {
      StoredAgrees(Expire(t, now), Expire(u, now), f, now);
      hide Stored;
    }
  }

  lemma StoredAgrees(t: State, u: State, f: Frame, now: int)
    requires Agree(t, u, f.channel, f.seqNo)
    ensures var (t', x) := Stored(t, f, now); var (u', y) := Stored(u, f, now);
            Agree(t', u', f.channel, f.seqNo) && x == y
  {
    assert Extended(t, f, now) == Extended(u, f, now);
    hide Extended;
    hide Concat;
  }

  lemma OtherEventAgrees(t: State, e: Event, c: byte, q: u64)
    requires (c == 0 || c == 3 || c == 4) && !Own(e, c, q) && !e.Reset?
    ensures var (u, out) := Next(t, e);
            && Agree(u, t, c, q)
            && !(out.Done? && out.frame.channel == c && out.frame.seqNo == q)
  {
    if e.Push? {
      PushSparesOthers(t, e.f, e.now, c, q);
      PushHandsOnItsOwn(t, e.f, e.now);
      PushConfig(t, e.f, e.now);
    } else {
      SweepLeaves(t, e.now, c, q);
    }
    hide Pushed;
  }

  lemma PushConfig(t: State, f: Frame, now: int)
    ensures Pushed(t, f, now).0.maxPay == t.maxPay && Pushed(t, f, now).0.ttl == t.ttl
  {
    hide Extended;
    hide HeaderError;
    hide Concat;
  }

  /**
   * Non-interference. On a reliable channel, in any traffic without resets and whatever the frames, what is handed on
   * for a message is what its own pushes alone would have made of it.
   */
  lemma {:induction false} MessageStandsAlone(s: State, es: seq<Event>, c: byte, q: u64)
    requires (c == 0 || c == 3 || c == 4) && forall i :: 0 <= i < |es| ==> !es[i].Reset?
    ensures HandedOut(s, es, c, q) == HandedOut(s, OwnEvents(es, c, q), c, q)
    ensures Agree(After(s, es), After(s, OwnEvents(es, c, q)), c, q)
    decreases |es|
  {
    if es != [] {
      var front, e := es[..|es| - 1], es[|es| - 1];
      MessageStandsAlone(s, front, c, q);
      var t, own := After(s, front), OwnEvents(front, c, q);
      hide Next;
      hide Agree;
      if Own(e, c, q) {
        OwnEventAgrees(t, After(s, own), e);
        assert (own + [e])[..|own|] == own;
      } else {
        OtherEventAgrees(t, e, c, q);
        AgreeOn(Next(t, e).0, t, After(s, own), c, q);
        assert OwnEvents(es, c, q) == own;
      }
    }
  }

  lemma OwnEventAgrees(t: State, u: State, e: Event)
    requires e.Push? && Agree(t, u, e.f.channel, e.f.seqNo)
    requires e.f.channel == 0 || e.f.channel == 3 || e.f.channel == 4
    ensures Agree(Next(t, e).0, Next(u, e).0, e.f.channel, e.f.seqNo) && Next(t, e).1 == Next(u, e).1
  {
    OwnPushAgrees(t, u, e.f, e.now);
    hide Pushed;
  }

  lemma AgreeOn(t: State, u: State, v: State, c: byte, q: u64)
    requires Agree(t, u, c, q) && Agree(u, v, c, q)
    ensures Agree(t, v, c, q)
  {
  }

  // ---------- two messages ----------

  lemma {:induction false} HandedIsDelivered(s: State, es: seq<Event>, c: byte, q: u64)
    ensures HandedOut(s, es, c, q) == Delivered(s, es, Key(c, q))
    decreases |es|
  {
    hide Pushed;
    if es != [] {
      var front, e := es[..|es| - 1], es[|es| - 1];
      HandedIsDelivered(s, front, c, q);
      if e.Push? {
        PushHandsOnItsOwn(After(s, front), e.f, e.now);
      }
    }
  }

  /** The events are pushes of the fragments of two messages, every fragment once, in any order. */
  ghost predicate Interleaved(es: seq<Event>, fs: seq<Frame>, gs: seq<Frame>) {
    && (forall i :: 0 <= i < |es| ==> es[i].Push? && (es[i].f in fs || es[i].f in gs))
    && (forall i, j :: 0 <= i < j < |es| ==> es[i].f != es[j].f)
    && (forall f :: f in fs || f in gs ==> exists i :: 0 <= i < |es| && es[i].f == f)
  }

  /** Message base of payload on its own: exactly one frame, with the message's fields and the whole payload. */
  ghost predicate HandedOnce(s: State, es: seq<Event>, base: Frame, payload: seq<byte>) {
    var h := HandedOut(s, es, base.channel, base.seqNo);
    && |h| == 1 && h[0].channel == base.channel && h[0].seqNo == base.seqNo && h[0].payload == payload
    && h[0].kind == base.kind && h[0].priority == base.priority && h[0].pts == base.pts
    && h[0].flags / 2 == base.flags / 2 && h[0].flags % 2 == 1
  }

  /**
   * Two messages on one reliable channel, their fragments interleaved in any way and at any times: each is handed on
   * once, with its own payload.
   */
  lemma TwoMessages(s: State, es: seq<Event>, a: Frame, b: Frame, x: seq<byte>, y: seq<byte>, max: nat)
    requires Splittable(a, x, max) && Splittable(b, y, max)
    requires a.channel == b.channel && a.seqNo != b.seqNo && (a.channel == 0 || a.channel == 3 || a.channel == 4)
    requires Key(a.channel, a.seqNo) !in s.items && Key(b.channel, b.seqNo) !in s.items
    requires |x| <= s.maxPay && |y| <= s.maxPay
    requires Interleaved(es, FragmentsOf(a, x, max), FragmentsOf(b, y, max))
    ensures HandedOnce(s, es, a, x) && HandedOnce(s, es, b, y)
  {
    hide Splittable;
    hide FragmentsOf;
    hide HandedOnce;
    OneOfTwo(s, es, a, b, x, y, max);
    assert Interleaved(es, FragmentsOf(b, y, max), FragmentsOf(a, x, max));
    OneOfTwo(s, es, b, a, y, x, max);
  }

  lemma OneOfTwo(s: State, es: seq<Event>, a: Frame, b: Frame, x: seq<byte>, y: seq<byte>, max: nat)
    requires Splittable(a, x, max) && Splittable(b, y, max)
    requires a.channel == b.channel && a.seqNo != b.seqNo && (a.channel == 0 || a.channel == 3 || a.channel == 4)
    requires Key(a.channel, a.seqNo) !in s.items && |x| <= s.maxPay
    requires Interleaved(es, FragmentsOf(a, x, max), FragmentsOf(b, y, max))
    ensures HandedOnce(s, es, a, x)
  {
    hide Splittable;
    hide FragmentsOf;
    var k, fs, gs := Key(a.channel, a.seqNo), FragmentsOf(a, x, max), FragmentsOf(b, y, max);
    assert KeyOf(a) == k;
    assert Reliable(a.channel);
    forall i | 0 <= i < |es| && On(es[i], k) ensures es[i].f in fs {
      if es[i].f in gs {
        SameKey(b, y, max, es[i].f);
      }
    }
    hide Reliable;
    InTimeUndisturbed(s, es, k, 0);
    OnceEach(es, a, x, max, gs);
    hide Interleaved;
    hide Undisturbed;
    hide Only;
    hide On;
    ExactlyOnceIff(s, es, a, x, max);
    HandedIsDelivered(s, es, a.channel, a.seqNo);
    hide HandedOut;
    hide Delivered;
    WholeIs(a, x);
    hide Whole;
  }

  /** Every fragment pushed once: all are seen, and never all of them twice. */
  lemma OnceEach(es: seq<Event>, a: Frame, x: seq<byte>, max: nat, gs: seq<Frame>)
    requires Splittable(a, x, max) && Interleaved(es, FragmentsOf(a, x, max), gs)
    requires forall i :: 0 <= i < |es| && On(es[i], KeyOf(a)) ==> es[i].f in FragmentsOf(a, x, max)
    ensures var all := Below(|FragmentsOf(a, x, max)|);
            all <= Seen(es, KeyOf(a)) && !exists i :: FullTwice(es, KeyOf(a), all, i)
  {
    hide Splittable;
    hide FragmentsOf;
    var fs, k := FragmentsOf(a, x, max), KeyOf(a);
    AtLeastOne(a, x, max);
    forall n: nat | n in Below(|fs|) ensures n in Seen(es, k) {
      FragmentIs(a, x, max, n);
      assert fs[n] in fs;
      var i :| 0 <= i < |es| && es[i].f == fs[n];
      SeenAt(es, k, i);
    }
    forall i: nat ensures !FullTwice(es, k, Below(|fs|), i) {
      if FullTwice(es, k, Below(|fs|), i) {
        assert 0 in Seen(es[..i], k) && 0 in Seen(es[i..], k);
        var m := SeenFrom(es[..i], k, 0);
        var n := SeenFrom(es[i..], k, 0);
        assert es[..i][m] == es[m] && es[i..][n] == es[i + n];
        SameKey(a, x, max, es[m].f);
        SameKey(a, x, max, es[i + n].f);
      }
    }
  }

  lemma {:induction false} SeenAt(es: seq<Event>, k: Key, i: nat)
    requires i < |es| && On(es[i], k)
    ensures es[i].f.fragIdx in Seen(es, k)
    decreases |es|
  {
    hide On;
    if i < |es| - 1 {
      SeenAt(es[..|es| - 1], k, i);
    }
  }

  lemma {:induction false} SeenFrom(es: seq<Event>, k: Key, idx: nat) returns (i: nat)
    requires idx in Seen(es, k)
    ensures i < |es| && On(es[i], k) && es[i].f.fragIdx == idx
    decreases |es|
  {
    hide KeyOf;
    var e := es[|es| - 1];
    if On(e, k) && e.f.fragIdx == idx {
      i := |es| - 1;
    } else {
      i := SeenFrom(es[..|es| - 1], k, idx);
    }
  }
}
