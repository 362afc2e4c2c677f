/**
 * What runs of the multiplexer do to single queues: when one holds more than its capacity, when its byte counter is
 * right, how long a signal waits, and what an oversize item does (scheduler/scheduler.go, scheduler/queue.go).
 */
module MuxQueues {
  import opened Wrappers
  import opened Queues
  import opened Wfq
  import opened Mux
  import opened MuxRuns
  import opened MuxStarvation
  import B = TokenBucket

  // ---------- one step, one queue ----------

  ghost predicate Returns(s: System, e: Event, k: Lane) {
    e.PutBack? && s.drainer.Refused? && s.drainer.it.Lane() == k
  }

  ghost predicate Inserts(s: System, e: Event, k: Lane) {
    e.Insert? && e.it.Lane() == k
  }

  /** A queue changes by an insertion, by a put-back, or by losing its head. */
  lemma QueueStep(s: System, e: Event, k: Lane)
    ensures var q, r := s.qs.Get(k), Next(s, e).qs.Get(k);
            if Returns(s, e, k) then r == q.Returned(s.drainer.it)
            else if Inserts(s, e, k) then r == q.Enqueued(e.it).0
            else r == q || (e.Pick? && !q.Empty() && r == q.Dequeued())
  {
    hide B.Allowed;
    if e.Pick? {
      PickedShape(s.qs, s.credit, s.weights);
      hide Picked;
    }
  }

  /** The queue of an item, by channel number: 0 signal, 1 audio, 2 cursor, 3 video; all others share the file queue. */
  lemma InsertGoes(s: System, it: Item)
    ensures var t := Next(s, Insert(it)).qs;
            if it.channel == 0 then t == s.qs.(signal := s.qs.signal.Enqueued(it).0)
            else if it.channel == 1 then t == s.qs.(audio := s.qs.audio.Enqueued(it).0)
            else if it.channel == 2 then t == s.qs.(cursor := s.qs.cursor.Enqueued(it).0)
            else if it.channel == 3 then t == s.qs.(video := s.qs.video.Enqueued(it).0)
            else t == s.qs.(file := s.qs.file.Enqueued(it).0)
  {
  }

  // ---------- more than the capacity ----------

  ghost predicate Overfull(s: System, k: Lane) {
    |s.qs.Get(k).items| > s.qs.Get(k).cap
  }

  /** A put-back on a queue that has filled up while the item was in hand. */
  ghost predicate ReturnsOntoFull(s: System, e: Event, k: Lane) {
    Returns(s, e, k) && |s.qs.Get(k).items| >= s.qs.Get(k).cap
  }

  lemma OverfullStep(s: System, e: Event, k: Lane)
    ensures ReturnsOntoFull(s, e, k) ==> Overfull(Next(s, e), k)
    ensures Overfull(Next(s, e), k) ==> Overfull(s, k) || ReturnsOntoFull(s, e, k)
  {
    QueueStep(s, e, k);
    hide Next;
  }

  /** Exactly when a queue gets to hold more than its capacity: an item is put back on it when it is full. */
  lemma {:induction false} OverfullIff(s: System, es: seq<Event>, k: Lane)
    requires Initial(s)
    ensures (exists n: nat :: n <= |es| && Overfull(Ran(s, es[..n]), k)) <==>
            (exists j: nat :: j < |es| && ReturnsOntoFull(Ran(s, es[..j]), es[j], k))
  {
    hide Next;
    hide Overfull;
    hide ReturnsOntoFull;
    if n: nat :| n <= |es| && Overfull(Ran(s, es[..n]), k) {
      var j := FirstOverfull(s, es[..n], k);
      assert es[..n][..j] == es[..j];
    }
    if j: nat :| j < |es| && ReturnsOntoFull(Ran(s, es[..j]), es[j], k) {
      OverfullStep(Ran(s, es[..j]), es[j], k);
      assert es[..j + 1][..j] == es[..j];
      assert Overfull(Ran(s, es[..j + 1]), k);
    }
  }

  lemma {:induction false} FirstOverfull(s: System, es: seq<Event>, k: Lane) returns (j: nat)
    requires Initial(s) && Overfull(Ran(s, es), k)
    ensures j < |es| && ReturnsOntoFull(Ran(s, es[..j]), es[j], k)
    decreases |es|
  {
    hide Next;
    hide ReturnsOntoFull;
    assert FreshQueue(s.qs.Get(k));
    if es != [] {
      hide Overfull;
      j := |es| - 1;
      OverfullStep(Ran(s, es[..j]), es[j], k);
      if !ReturnsOntoFull(Ran(s, es[..j]), es[j], k) {
        j := FirstOverfull(s, es[..j], k);
        assert es[..|es| - 1][..j] == es[..j];
      }
    }
  }

  // ---------- the byte counter ----------

  ghost predicate BytesRight(q: QueueState) {
    q.bytes == TotalSize(q.items)
  }

  ghost predicate BytesLow(q: QueueState) {
    q.bytes <= TotalSize(q.items)
  }

  ghost predicate ReturnsBytes(s: System, e: Event, k: Lane) {
    Returns(s, e, k) && s.drainer.it.Size() > 0
  }

  lemma BytesStep(s: System, e: Event, k: Lane)
    requires BytesLow(s.qs.Get(k))
    ensures var q, r := s.qs.Get(k), Next(s, e).qs.Get(k);
            && BytesLow(r) && (ReturnsBytes(s, e, k) ==> !BytesRight(r))
            && (!ReturnsBytes(s, e, k) && TotalSize(r.items) > 0 ==> (BytesRight(r) <==> BytesRight(q)))
            && (TotalSize(r.items) == 0 ==> BytesRight(r))
  {
    QueueStep(s, e, k);
    hide Next;
    var q := s.qs.Get(k);
    if Returns(s, e, k) {
      assert ([s.drainer.it] + q.items)[1..] == q.items;
    } else if Inserts(s, e, k) {
      TotalSizeAppend(q.items, e.it);
    }
  }

  /** Since event m, when lane k held no bytes, no item with bytes in it has been put back. */
  ghost predicate CleanSince(s: System, es: seq<Event>, k: Lane, m: nat) {
    && m <= |es| && TotalSize(Ran(s, es[..m]).qs.Get(k).items) == 0
    && forall j: nat :: m <= j < |es| ==> !ReturnsBytes(Ran(s, es[..j]), es[j], k)
  }

  /**
   * The byte counter never exceeds the true size of the queue; and it is the true size exactly when
   * no item with bytes in it has been put back since the queue last held no bytes.
   */
  lemma {:induction false} BytesRightIff(s: System, es: seq<Event>, k: Lane)
    requires Initial(s)
    ensures BytesLow(Ran(s, es).qs.Get(k))
    ensures BytesRight(Ran(s, es).qs.Get(k)) <==> exists m: nat :: CleanSince(s, es, k, m)
    decreases |es|
  {
    hide Next;
    hide ReturnsBytes;
    if es == [] {
      assert FreshQueue(s.qs.Get(k));
      assert CleanSince(s, es, k, 0);
    } else {
      var front, e := es[..|es| - 1], es[|es| - 1];
      BytesRightIff(s, front, k);
      BytesStep(Ran(s, front), e, k);
      assert es[..|es|] == es;
      hide BytesRight;
      hide BytesLow;
      forall m: nat | m < |es|
        ensures CleanSince(s, es, k, m) <==> CleanSince(s, front, k, m) && !ReturnsBytes(Ran(s, front), e, k)
      {
        CleanStep(s, es, k, m);
      }
      if BytesRight(Ran(s, front).qs.Get(k)) && !ReturnsBytes(Ran(s, front), e, k) {
        var m: nat :| CleanSince(s, front, k, m);
        assert CleanSince(s, es, k, m);
      }
      if TotalSize(Ran(s, es).qs.Get(k).items) == 0 {
        assert CleanSince(s, es, k, |es|);
      }
    }
  }

  lemma CleanStep(s: System, es: seq<Event>, k: Lane, m: nat)
    requires m < |es|
    ensures var front := es[..|es| - 1];
            CleanSince(s, es, k, m) <==> CleanSince(s, front, k, m) && !ReturnsBytes(Ran(s, front), es[|es| - 1], k)
  {
    hide Ran;
    hide ReturnsBytes;
    var front := es[..|es| - 1];
    assert front[..m] == es[..m];
    assert forall j: nat :: j < |front| ==> front[..j] == es[..j] && front[j] == es[j];
  }

  /** Both happen: a queue of capacity 1 fills up while its item is in hand, and the bucket refuses the item. */
  lemma RefillBehindRefusal(s: System) returns (es: seq<Event>)
    requires Initial(s) && s.qs.signal.cap == 1 && !s.bucket.disabled
    ensures Possible(s, es) && Overfull(Ran(s, es), Signal) && !BytesRight(Ran(s, es).qs.Get(Signal))
  {
    var a, b := Sample(Signal, s.bucket.burst + 1), Sample(Signal, 1);
    assert FreshQueue(s.qs.Get(Signal));
    es := FillOne(s, a, b);
    hide Initial;
    var t := Ran(s, es);
    assert t.qs.signal.items == [b] && t.qs.signal.cap == 1 && t.bucket == s.bucket;
    B.TooBigNeverAllowed(t.bucket, a.Size(), t.bucket.last);
    OneEvent(s, es, Decide(t.bucket.last));
    hide B.Allowed;
    OneEvent(s, es + [Decide(t.bucket.last)], PutBack);
    es := es + [Decide(t.bucket.last)] + [PutBack];
    var q := Ran(s, es).qs.Get(Signal);
    assert q.items == [a] + [b] && q.bytes == 1;
    assert q.items[1..] == [b] && [b][1..] == [];
    assert TotalSize(q.items) == a.Size() + (b.Size() + TotalSize([]));
  }

  /** a is picked, b takes its place. */
  lemma FillOne(s: System, a: Item, b: Item) returns (es: seq<Event>)
    requires s.drainer.Idle? && !s.closed && s.qs.signal == QueueState(1, [], 0, 0, 0, 0)
    requires a.Lane() == b.Lane() == Signal
    ensures Possible(s, es)
    ensures var t := Ran(s, es);
            t.drainer == Holding(a) && t.bucket == s.bucket && t.qs.signal == QueueState(1, [b], 0, 2, 1, b.Size())
  {
    hide Possible;
    hide Ran;
    hide Next;
    es := EnqueueSignal(s, a);
    var t := Ran(s, es);
    assert t.qs.signal == QueueState(1, [a], 0, 1, 0, a.Size());
    var pick := PickSignal(t);
    RunConcat(s, es, pick);
    assert [a][1..] == [];
    var more := EnqueueSignal(Ran(t, pick), b);
    RunConcat(s, es + pick, more);
    es := es + pick + more;
  }

  lemma EnqueueSignal(s: System, it: Item) returns (es: seq<Event>)
    requires !s.closed && s.qs.signal.items == [] && s.qs.signal.cap >= 1 && it.Lane() == Signal
    ensures Possible(s, es)
    ensures var t := Ran(s, es); var q := s.qs.signal;
            && t.drainer == s.drainer && t.bucket == s.bucket && !t.closed
            && t.qs.signal == q.(items := [it], enq := q.enq + 1, bytes := q.bytes + it.Size())
  {
    OneEvent(s, [], Check(it));
    OneEvent(s, [] + [Check(it)], Insert(it));
    es := [] + [Check(it)] + [Insert(it)];
    assert [] + [it] == [it];
  }

  lemma PickSignal(s: System) returns (es: seq<Event>)
    requires s.drainer.Idle? && !s.qs.signal.Empty()
    ensures Possible(s, es)
    ensures Ran(s, es) == s.(drainer := Holding(s.qs.signal.items[0]), qs := s.qs.(signal := s.qs.signal.Dequeued()))
  {
    hide Round;
    OneEvent(s, [], Pick);
    es := [] + [Pick];
  }

  // ---------- signals first ----------

  function Picks(es: seq<Event>): nat {
    if es == [] then 0 else Picks(es[..|es| - 1]) + (if es[|es| - 1].Pick? then 1 else 0)
  }

  /** How many of the accepted signals have left the queue. */
  function SignalsOut(s: System, l: Log): nat {
    |l.delivered.signal| + |InHand(s.drainer, Signal)|
  }

  /** From (s, l) to (t, m) by es, every pick took a signal. */
  ghost predicate OnlySignals(s: System, l: Log, es: seq<Event>, t: System, m: Log) {
    && Turns(s, es) == [] && t.credit == s.credit
    && SignalsOut(s, l) + Picks(es) == SignalsOut(t, m) + m.putBacks.signal - l.putBacks.signal
  }

  /** Signals out change with a pick while a signal is queued, with a put-back, and otherwise not. */
  lemma SignalStep(s: System, l: Log, e: Event)
    requires Inv(s, l) && Enabled(s, e) && (e.Pick? ==> |l.delivered.signal| < |l.accepted.signal|)
    ensures var t, m := Next(s, e), Recorded(s, l, e);
            && !IsRound(s, e) && t.credit == s.credit && |l.accepted.signal| <= |m.accepted.signal|
            && |l.delivered.signal| <= |m.delivered.signal| <= SignalsOut(t, m)
            && SignalsOut(t, m) + m.putBacks.signal
               == SignalsOut(s, l) + l.putBacks.signal + (if e.Pick? then 1 else 0)
            && (!e.Pick? ==> SignalsOut(t, m) <= SignalsOut(s, l))
  {
    assert LaneOk(s, l, Signal);
    hide B.Allowed;
    hide Round;
    if e.Pick? {
      assert s.qs.Get(Signal).items != [];
      HeadOf(s, l);
    }
    hide Inv;
  }

  lemma HeadOf(s: System, l: Log)
    requires Inv(s, l) && !s.qs.signal.Empty()
    ensures s.qs.signal.items[0].Lane() == Signal
  {
    assert LaneOk(s, l, Signal);
  }

  /**
   * Strict priority. Take any signal that has been accepted, say as number p, counting from 0. Whatever happens next,
   * until it has been sent (or has failed in send) no round of fair queueing takes place, no credit moves, every
   * pick takes a signal, and the picks are at most p + 1, less the signals already out, plus the number of
   * signals put back.
   */
  lemma SignalFirst(s: System, ds: seq<Event>, es: seq<Event>, p: nat)
    requires Initial(s) && Possible(s, ds) && Possible(Ran(s, ds), es)
    requires p < |Logged(s, NOTHING, ds).accepted.signal|
    ensures var t, l := Ran(s, ds), Logged(s, NOTHING, ds);
            var u, m := Ran(t, es), Logged(t, l, es);
            && p < |m.accepted.signal|
            && (p < |m.delivered.signal| ||
                (OnlySignals(t, l, es, u, m)
                 && Picks(es) <= p + 1 - SignalsOut(t, l) + m.putBacks.signal - l.putBacks.signal))
  {
    InitialInv(s);
    RunKeepsInv(s, NOTHING, ds);
    hide Inv;
    hide Initial;
    hide Possible;
    SignalRun(Ran(s, ds), Logged(s, NOTHING, ds), es, p);
  }

  lemma {:induction false} SignalRun(t: System, l: Log, es: seq<Event>, p: nat)
    requires Inv(t, l) && Possible(t, es) && p < |l.accepted.signal|
    ensures var u, m := Ran(t, es), Logged(t, l, es);
            && p < |m.accepted.signal|
            && (p < |m.delivered.signal| || (OnlySignals(t, l, es, u, m) && SignalsOut(u, m) <= p + 1))
    decreases |es|
  {
    if es == [] {
      assert LaneOk(t, l, Signal);
    }
    hide Inv;
    hide Next;
    hide Recorded;
    hide Enabled;
    hide InHand;
    hide IsRound;
    if es != [] {
      var front, e := es[..|es| - 1], es[|es| - 1];
      SignalRun(t, l, front, p);
      RunKeepsInv(t, l, front);
      var u, m := Ran(t, front), Logged(t, l, front);
      if p >= |m.delivered.signal| || !e.Pick? {
        SignalStep(u, m, e);
        IdleHand(u, e);
      } else {
        AcceptedGrows(u, m, e);
      }
    }
  }

  lemma IdleHand(s: System, e: Event)
    requires Enabled(s, e)
    ensures e.Pick? ==> InHand(s.drainer, Signal) == []
  {
  }

  lemma AcceptedGrows(s: System, l: Log, e: Event)
    ensures |l.accepted.signal| <= |Recorded(s, l, e).accepted.signal|
    ensures |l.delivered.signal| <= |Recorded(s, l, e).delivered.signal|
  {
  }

  // ---------- oversize items ----------

  /** Pacing is never switched off, and no rate lifts the burst above top. */
  ghost predicate Capped(es: seq<Event>, top: nat) {
    forall i :: 0 <= i < |es| ==> CappedEvent(es[i], top)
  }

  ghost predicate CappedEvent(e: Event, top: nat) {
    (e.SetDisabled? ==> !e.off) && (e.SetRate? ==> e.rate / 8 <= top)
  }

  ghost predicate SmallOnly(s: System, l: Log, top: nat) {
    && !s.bucket.disabled && s.bucket.burst <= top && (s.drainer.Granted? ==> s.drainer.it.Size() <= top)
    && forall k: Lane, i :: 0 <= i < |l.delivered.Get(k)| ==> l.delivered.Get(k)[i].Size() <= top
  }

  lemma SmallStep(s: System, l: Log, e: Event, top: nat)
    requires SmallOnly(s, l, top) && B.ValidState(s.bucket) && CappedEvent(e, top)
    ensures SmallOnly(Next(s, e), Recorded(s, l, e), top)
  {
    if e.Decide? && s.drainer.Holding? && s.drainer.it.Size() > top {
      B.TooBigNeverAllowed(s.bucket, s.drainer.it.Size(), e.now);
    }
    hide Picked;
  }

  /**
   * Head-of-line blocking. While pacing is on, an accepted item larger than every burst is never delivered, and neither
   * is anything accepted after it on the same lane.
   */
  lemma OversizeBlocksLane(s: System, es: seq<Event>, k: Lane, i: nat, top: nat)
    requires Initial(s) && Possible(s, es) && Capped(es, top) && !s.bucket.disabled && s.bucket.burst <= top
    requires i < |Logged(s, NOTHING, es).accepted.Get(k)| && Logged(s, NOTHING, es).accepted.Get(k)[i].Size() > top
    ensures |Logged(s, NOTHING, es).delivered.Get(k)| <= i
  {
    hide Inv;
    hide Next;
    hide Recorded;
    hide Enabled;
    SmallRun(s, es, top);
    OrderedConservation(s, es, k);
    var l := Logged(s, NOTHING, es);
    hide InHand;
    hide TotalSize;
    Prefix(l.accepted.Get(k), l.delivered.Get(k), InHand(Ran(s, es).drainer, k) + Ran(s, es).qs.Get(k).items);
  }

  lemma Prefix(all: seq<Item>, front: seq<Item>, rest: seq<Item>)
    requires all == front + rest
    ensures forall i :: 0 <= i < |front| ==> all[i] == front[i]
  {
  }

  lemma {:induction false} SmallRun(s: System, es: seq<Event>, top: nat)
    requires Initial(s) && Possible(s, es) && Capped(es, top) && !s.bucket.disabled && s.bucket.burst <= top
    ensures SmallOnly(Ran(s, es), Logged(s, NOTHING, es), top)
    decreases |es|
  {
    hide Next;
    hide Recorded;
    hide Enabled;
    hide CappedEvent;
    if es != [] {
      var front := es[..|es| - 1];
      SmallRun(s, front, top);
      InitialInv(s);
      RunKeepsInv(s, NOTHING, front);
      SmallStep(Ran(s, front), Logged(s, NOTHING, front), es[|es| - 1], top);
      hide SmallOnly;
    }
  }
}
