/**
 * The session multiplexer as a step system: one draining goroutine and any number of enqueuers, which take turns at
 * the lock boundaries of scheduler/scheduler.go and queue.go.
 */
module Mux {
  import opened Wrappers
  import opened Queues
  import opened Wfq
  import B = TokenBucket

  /** Where the draining goroutine stands inside drainOnce. */
  datatype Drainer =
    | Idle                         // about to pick
    | Holding(it: Item)            // picked, about to ask the bucket
    | Refused(it: Item)            // about to put the item back
    | Granted(it: Item)            // about to send
    | Finished(it: Item, ok: bool) // sent or failed, about to count it

  /**
   * checked: items of enqueuers that have passed the closed test and not yet reached the queue;
   * uncounted: enqueuers whose item was refused by a full queue and that have not yet counted the drop.
   */
  datatype System = System(
    weights: PerLane<nat>, qs: PerLane<QueueState>, credit: Credits, bucket: B.State, drainer: Drainer,
    closed: bool, checked: multiset<Item>, uncounted: nat, sent: nat, drops: nat)

  function Backlog(qs: PerLane<QueueState>): PerLane<bool> {
    PerLane(!qs.signal.Empty(), !qs.audio.Empty(), !qs.cursor.Empty(), !qs.video.Empty(), !qs.file.Empty())
  }

  function HeadCost(q: QueueState): nat {
    if q.Empty() then 0 else q.items[0].Cost()
  }

  function HeadCosts(qs: PerLane<QueueState>): PerLane<nat> {
    PerLane(HeadCost(qs.signal), HeadCost(qs.audio), HeadCost(qs.cursor), HeadCost(qs.video), HeadCost(qs.file))
  }

  /** pick: signal first, then the round of fair queueing. */
  function Picked(qs: PerLane<QueueState>, credit: Credits, w: PerLane<nat>)
    : (r: (PerLane<QueueState>, Credits, Option<Item>))
  {
    if !qs.signal.Empty() then (qs.(signal := qs.signal.Dequeued()), credit, Some(qs.signal.items[0]))
    else
      var (d, best) := Round(credit, w, Backlog(qs), HeadCosts(qs));
      match best
      case None => (qs, d, None)
      case Some(l) =>
        if qs.Get(l).Empty() then (qs, d, None)
        else (qs.Set(l, qs.Get(l).Dequeued()), d, Some(qs.Get(l).items[0]))
  }

  datatype Event =
    | Close
    | Check(it: Item)              // Enqueue: the closed test
    | Insert(it: Item)             // Enqueue: the locked insertion
    | CountDrop                    // Enqueue: drops.Add after a refusal
    | Pick
    | Decide(now: int)             // bucket.Allow
    | PutBack
    | Send(ok: bool)
    | CountSend
    | SetRate(rate: nat)           // ApplyBBR, from another goroutine
    | SetDisabled(off: bool)

  /** Whether the event can happen now. */
  ghost predicate Enabled(s: System, e: Event) {
    match e
    case Insert(it) => it in s.checked
    case CountDrop => s.uncounted > 0
    case Pick => s.drainer.Idle?
    case Decide(now) => s.drainer.Holding? && now >= s.bucket.last
    case PutBack => s.drainer.Refused?
    case Send(_) => s.drainer.Granted?
    case CountSend => s.drainer.Finished?
    case _ => true
  }

  function Next(s: System, e: Event): System {
    match e
    case Close => s.(closed := true)
    case Check(it) => if s.closed then s else s.(checked := s.checked + multiset{it})
    case Insert(it) =>
      var (q, ok) := s.qs.Get(it.Lane()).Enqueued(it);
      var t := s.(qs := s.qs.Set(it.Lane(), q), checked := s.checked - multiset{it});
      if ok then t else t.(uncounted := s.uncounted + 1)
    case CountDrop => if s.uncounted > 0 then s.(uncounted := s.uncounted - 1, drops := s.drops + 1) else s
    case Pick =>
      var (qs, credit, r) := Picked(s.qs, s.credit, s.weights);
      s.(qs := qs, credit := credit, drainer := if r.Some? then Holding(r.value) else Idle)
    case Decide(now) =>
      if s.drainer.Holding? then
        var (b, ok) := B.Allowed(s.bucket, s.drainer.it.Size(), now);
        s.(bucket := b, drainer := if ok then Granted(s.drainer.it) else Refused(s.drainer.it))
      else s
    case PutBack =>
      if s.drainer.Refused? then
        var it := s.drainer.it;
        s.(qs := s.qs.Set(it.Lane(), s.qs.Get(it.Lane()).Returned(it)), drainer := Idle)
      else s
    case Send(ok) => if s.drainer.Granted? then s.(drainer := Finished(s.drainer.it, ok)) else s
    case CountSend =>
      if s.drainer.Finished? then
        if s.drainer.ok then s.(sent := s.sent + 1, drainer := Idle) else s.(drops := s.drops + 1, drainer := Idle)
      else s
    case SetRate(rate) => s.(bucket := B.RateSet(s.bucket, rate))
    case SetDisabled(off) => s.(bucket := s.bucket.(disabled := off))
  }

  // ---------- history ----------

  /** Per lane: the items accepted, and those sent or failed in send, in order; and how often an item was put back. */
  datatype Log = Log(
    accepted: PerLane<seq<Item>>, delivered: PerLane<seq<Item>>, putBacks: PerLane<nat>, sentOk: nat, sendErrors: nat)

  function Recorded(s: System, l: Log, e: Event): Log {
    match e
    case Insert(it) =>
      var k := it.Lane();
      if s.qs.Get(k).Enqueued(it).1 then l.(accepted := l.accepted.Set(k, l.accepted.Get(k) + [it])) else l
    case PutBack =>
      if s.drainer.Refused? then
        var k := s.drainer.it.Lane();
        l.(putBacks := l.putBacks.Set(k, l.putBacks.Get(k) + 1))
      else l
    case Send(ok) =>
      if s.drainer.Granted? then
        var k := s.drainer.it.Lane();
        var m := l.(delivered := l.delivered.Set(k, l.delivered.Get(k) + [s.drainer.it]));
        if ok then m.(sentOk := l.sentOk + 1) else m.(sendErrors := l.sendErrors + 1)
      else l
    case _ => l
  }

  /** The item of lane k that the drainer has taken off its queue and not yet sent or put back. */
  function InHand(d: Drainer, k: Lane): seq<Item> {
    match d
    case Holding(it) => if it.Lane() == k then [it] else []
    case Refused(it) => if it.Lane() == k then [it] else []
    case Granted(it) => if it.Lane() == k then [it] else []
    case _ => []
  }

  // ---------- what every interleaving keeps ----------

  /** One lane: order, depth and counters. */
  ghost predicate LaneInv(q: QueueState, hand: seq<Item>, accepted: seq<Item>, delivered: seq<Item>, putBacks: nat) {
    && accepted == delivered + (hand + q.items)
    && |hand| <= 1
    && q.cap >= 1 && (if hand != [] then |q.items| <= q.cap else |q.items| <= q.cap + 1)
    && q.enq == |accepted| && |q.items| + q.deq == q.enq + putBacks
    && q.bytes <= TotalSize(q.items) && (putBacks == 0 ==> q.bytes == TotalSize(q.items))
  }

  ghost predicate Placed(q: QueueState, k: Lane) {
    forall i :: 0 <= i < |q.items| ==> q.items[i].Lane() == k
  }

  ghost predicate LaneOk(s: System, l: Log, k: Lane) {
    && LaneInv(s.qs.Get(k), InHand(s.drainer, k), l.accepted.Get(k), l.delivered.Get(k), l.putBacks.Get(k))
    && Placed(s.qs.Get(k), k)
  }

  function QueueDrops(qs: PerLane<QueueState>): nat {
    qs.signal.drops + qs.audio.drops + qs.cursor.drops + qs.video.drops + qs.file.drops
  }

  /** Every drop and every send is counted, or about to be. */
  ghost predicate CountsOk(s: System, l: Log) {
    && s.drops + s.uncounted + (if s.drainer.Finished? && !s.drainer.ok then 1 else 0)
       == QueueDrops(s.qs) + l.sendErrors
    && s.sent + (if s.drainer.Finished? && s.drainer.ok then 1 else 0) == l.sentOk
  }

  ghost predicate Inv(s: System, l: Log) {
    && (forall k: Lane :: LaneOk(s, l, k))
    && CountsOk(s, l)
    && B.ValidState(s.bucket)
  }

  // ---------- one lane at a time ----------

  lemma EnqueueKeeps(q: QueueState, it: Item, k: Lane, hand: seq<Item>, acc: seq<Item>, del: seq<Item>, n: nat)
    requires LaneInv(q, hand, acc, del, n) && Placed(q, k) && it.Lane() == k
    ensures var (r, ok) := q.Enqueued(it);
            LaneInv(r, hand, if ok then acc + [it] else acc, del, n) && Placed(r, k)
  {
    TotalSizeAppend(q.items, it);
    assert (del + (hand + q.items)) + [it] == del + (hand + (q.items + [it]));
  }

  lemma DequeueKeeps(q: QueueState, k: Lane, acc: seq<Item>, del: seq<Item>, n: nat)
    requires LaneInv(q, [], acc, del, n) && Placed(q, k) && !q.Empty()
    ensures LaneInv(q.Dequeued(), [q.items[0]], acc, del, n) && Placed(q.Dequeued(), k) && q.items[0].Lane() == k
  {
    assert [q.items[0]] + q.items[1..] == [] + q.items;
  }

  lemma ReturnKeeps(q: QueueState, it: Item, k: Lane, acc: seq<Item>, del: seq<Item>, n: nat)
    requires LaneInv(q, [it], acc, del, n) && Placed(q, k) && it.Lane() == k
    ensures LaneInv(q.Returned(it), [], acc, del, n + 1) && Placed(q.Returned(it), k)
  {
    assert ([it] + q.items)[1..] == q.items;
    assert [] + ([it] + q.items) == [it] + q.items;
  }

  lemma SendKeeps(q: QueueState, it: Item, k: Lane, acc: seq<Item>, del: seq<Item>, n: nat)
    requires LaneInv(q, [it], acc, del, n)
    ensures LaneInv(q, [], acc, del + [it], n)
  {
    assert del + ([it] + q.items) == (del + [it]) + ([] + q.items);
  }

  /** What a pick takes, and from where. */
  lemma PickedShape(qs: PerLane<QueueState>, credit: Credits, w: PerLane<nat>)
    ensures var (qs', _, r) := Picked(qs, credit, w);
            match r
            case None => qs' == qs && qs.signal.Empty()
            case Some(it) => exists l: Lane :: TakenFrom(qs, l, it) && qs' == qs.Set(l, qs.Get(l).Dequeued())
    ensures !qs.signal.Empty() ==> Picked(qs, credit, w).2 == Some(qs.signal.items[0])
  {
    if !qs.signal.Empty() {
      assert TakenFrom(qs, Signal, qs.signal.items[0]);
    } else {
      var best := Round(credit, w, Backlog(qs), HeadCosts(qs)).1;
      hide Round;
      if best.Some? && !qs.Get(best.value).Empty() {
        assert TakenFrom(qs, best.value, qs.Get(best.value).items[0]);
      }
    }
  }

  ghost predicate TakenFrom(qs: PerLane<QueueState>, l: Lane, it: Item) {
    !qs.Get(l).Empty() && it == qs.Get(l).items[0]
  }

  /** Lanes other than at are as they were. */
  lemma OtherLanes(s: System, l: Log, t: System, m: Log, at: Lane)
    requires forall k: Lane :: LaneOk(s, l, k)
    requires LaneOk(t, m, at)
    requires forall k: Lane :: k != at ==>
               && t.qs.Get(k) == s.qs.Get(k) && InHand(t.drainer, k) == InHand(s.drainer, k)
               && m.accepted.Get(k) == l.accepted.Get(k) && m.delivered.Get(k) == l.delivered.Get(k)
               && m.putBacks.Get(k) == l.putBacks.Get(k)
    ensures forall k: Lane :: LaneOk(t, m, k)
  {
    hide LaneInv;
    hide Placed;
    forall k: Lane ensures LaneOk(t, m, k) {
      assert LaneOk(s, l, k);
    }
  }

  lemma PickKeeps(s: System, l: Log)
    requires Inv(s, l) && s.drainer.Idle?
    ensures Inv(Next(s, Pick), l)
  {
    hide LaneOk;
    hide B.ValidState;
    PickedShape(s.qs, s.credit, s.weights);
    var (qs, _, r) := Picked(s.qs, s.credit, s.weights);
    hide Picked;
    var t := Next(s, Pick);
    var at := Signal;
    if r.Some? {
      at :| TakenFrom(s.qs, at, r.value) && qs == s.qs.Set(at, s.qs.Get(at).Dequeued());
    }
    assert LaneOk(s, l, at);
    PickKeepsLane(s, l, t, at);
    OtherHands(s, t, at);
    OtherLanes(s, l, t, l, at);
  }

  /** The lane that a pick takes from, if any. */
  lemma PickKeepsLane(s: System, l: Log, t: System, at: Lane)
    requires LaneOk(s, l, at) && s.drainer.Idle?
    requires (t.drainer == Idle && t.qs == s.qs)
             || (!s.qs.Get(at).Empty() && t.drainer == Holding(s.qs.Get(at).items[0])
                 && t.qs == s.qs.Set(at, s.qs.Get(at).Dequeued()))
    ensures LaneOk(t, l, at)
    ensures t.drainer.Holding? ==> t.drainer.it.Lane() == at
  {
    if t.drainer.Holding? {
      DequeueKeeps(s.qs.Get(at), at, l.accepted.Get(at), l.delivered.Get(at), l.putBacks.Get(at));
    }
    hide LaneInv;
    hide Placed;
  }

  lemma OtherHands(s: System, t: System, at: Lane)
    requires s.drainer.Idle? && (t.drainer.Idle? || (t.drainer.Holding? && t.drainer.it.Lane() == at))
    ensures forall k: Lane :: k != at ==> InHand(t.drainer, k) == InHand(s.drainer, k)
  {
  }

  lemma InsertKeeps(s: System, l: Log, it: Item)
    requires Inv(s, l)
    ensures Inv(Next(s, Insert(it)), Recorded(s, l, Insert(it)))
  {
    hide LaneOk;
    hide InHand;
    var t, m := Next(s, Insert(it)), Recorded(s, l, Insert(it));
    var at := it.Lane();
    assert LaneOk(s, l, at);
    InsertKeepsLane(s, l, it);
    OtherLanes(s, l, t, m, at);
    DropCounted(s, it);
    hide QueueDrops;
  }

  lemma InsertKeepsLane(s: System, l: Log, it: Item)
    requires LaneOk(s, l, it.Lane())
    ensures LaneOk(Next(s, Insert(it)), Recorded(s, l, Insert(it)), it.Lane())
  {
    var at := it.Lane();
    EnqueueKeeps(s.qs.Get(at), it, at, InHand(s.drainer, at), l.accepted.Get(at), l.delivered.Get(at),
                 l.putBacks.Get(at));
    hide LaneInv;
    hide Placed;
  }

  lemma DropCounted(s: System, it: Item)
    ensures var (q, ok) := s.qs.Get(it.Lane()).Enqueued(it);
            QueueDrops(s.qs.Set(it.Lane(), q)) == QueueDrops(s.qs) + if ok then 0 else 1
  {
  }

  lemma PutBackKeeps(s: System, l: Log)
    requires Inv(s, l) && s.drainer.Refused?
    ensures Inv(Next(s, PutBack), Recorded(s, l, PutBack))
  {
    var t, m := Next(s, PutBack), Recorded(s, l, PutBack);
    var it, at := s.drainer.it, s.drainer.it.Lane();
    assert LaneOk(s, l, at);
    ReturnKeeps(s.qs.Get(at), it, at, l.accepted.Get(at), l.delivered.Get(at), l.putBacks.Get(at));
    hide LaneInv;
    hide Placed;
    OtherLanes(s, l, t, m, at);
    hide LaneOk;
  }

  lemma SendKeepsInv(s: System, l: Log, ok: bool)
    requires Inv(s, l) && s.drainer.Granted?
    ensures Inv(Next(s, Send(ok)), Recorded(s, l, Send(ok)))
  {
    var t, m := Next(s, Send(ok)), Recorded(s, l, Send(ok));
    var it, at := s.drainer.it, s.drainer.it.Lane();
    assert LaneOk(s, l, at);
    SendKeeps(s.qs.Get(at), it, at, l.accepted.Get(at), l.delivered.Get(at), l.putBacks.Get(at));
    hide LaneInv;
    hide Placed;
    OtherLanes(s, l, t, m, at);
    hide LaneOk;
  }

  lemma DecideKeeps(s: System, l: Log, now: int)
    requires Inv(s, l) && Enabled(s, Decide(now))
    ensures Inv(Next(s, Decide(now)), l)
  {
    B.StepConforms(s.bucket, B.Allow(s.drainer.it.Size(), now), s.bucket.rate);
    var t := Next(s, Decide(now));
    forall k: Lane ensures LaneOk(t, l, k) {
      assert LaneOk(s, l, k);
    }
    hide LaneInv;
    hide B.Allowed;
  }

  lemma OtherKeeps(s: System, l: Log, e: Event)
    requires Inv(s, l)
    requires !(e.Insert? || e.Pick? || e.Decide? || e.PutBack? || e.Send?)
    ensures Inv(Next(s, e), Recorded(s, l, e))
  {
    var t := Next(s, e);
    forall k: Lane ensures LaneOk(t, l, k) {
      assert LaneOk(s, l, k);
    }
    hide LaneInv;
  }

  /** Every step of every goroutine keeps the invariant. */
  lemma StepKeepsInv(s: System, l: Log, e: Event)
    requires Inv(s, l) && Enabled(s, e)
    ensures Inv(Next(s, e), Recorded(s, l, e))
  {
    match e {
      case Insert(it) => InsertKeeps(s, l, it);
      case Pick => PickKeeps(s, l);
      case Decide(now) => DecideKeeps(s, l, now);
      case PutBack => PutBackKeeps(s, l);
      case Send(ok) => SendKeepsInv(s, l, ok);
      case _ => OtherKeeps(s, l, e);
    }
    hide Inv;
  }
}
