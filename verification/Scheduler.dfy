/** The scheduler object of a session, its methods proved against the step system: scheduler/scheduler.go. */
module Scheduler {
  import opened Wrappers
  import opened Queues
  import opened Wfq
  import opened Mux
  import opened MuxRuns
  import B = TokenBucket
  import P = Pacing

  /** The credits when the first n lanes of READY have been replenished. */
  function EarnedUpTo(c: Credits, w: PerLane<nat>, backlog: PerLane<bool>, n: nat): Credits
    requires n <= 4
  {
    if n == 0 then c
    else
      var d := EarnedUpTo(c, w, backlog, n - 1);
      var l := READY[n - 1];
      if backlog.Get(l) then d.Set(l, d.Get(l) + w.Get(l)) else d
  }

  lemma AllEarned(c: Credits, w: PerLane<nat>, backlog: PerLane<bool>)
    ensures EarnedUpTo(c, w, backlog, 4) == Replenished(c, w, backlog)
  {
    assert READY[0] == Audio && READY[1] == Cursor && READY[2] == Video && READY[3] == File;
    var e1, e2, e3 := EarnedUpTo(c, w, backlog, 1), EarnedUpTo(c, w, backlog, 2), EarnedUpTo(c, w, backlog, 3);
    assert EarnedUpTo(c, w, backlog, 0) == c;
    assert e1 == if backlog.audio then c.(audio := c.audio + w.audio) else c;
    assert e2 == if backlog.cursor then e1.(cursor := c.cursor + w.cursor) else e1;
    assert e3 == if backlog.video then e2.(video := c.video + w.video) else e2;
  }

  lemma SomeReady(backlog: PerLane<bool>)
    ensures (exists i :: 0 <= i < 4 && backlog.Get(READY[i])) <==> Busy(backlog)
  {
    assert READY[0] == Audio && READY[1] == Cursor && READY[2] == Video && READY[3] == File;
    assert backlog.Get(READY[0]) == backlog.audio && backlog.Get(READY[1]) == backlog.cursor;
    assert backlog.Get(READY[2]) == backlog.video && backlog.Get(READY[3]) == backlog.file;
  }

  lemma CostOfHead(qs: PerLane<QueueState>, l: Lane)
    ensures HeadCosts(qs).Get(l) == if qs.Get(l).Empty() then 0 else qs.Get(l).items[0].Cost()
  {
  }

  function TotalDepth(qs: PerLane<QueueState>): nat {
    |qs.signal.items| + |qs.audio.items| + |qs.cursor.items| + |qs.video.items| + |qs.file.items|
  }

  /** A pick that returns an item takes it off a queue. */
  lemma PickShrinks(v: System)
    ensures var (qs, _, r) := Picked(v.qs, v.credit, v.weights);
            if r.Some? then TotalDepth(qs) < TotalDepth(v.qs) else qs == v.qs
  {
    PickedShape(v.qs, v.credit, v.weights);
    var (qs, _, r) := Picked(v.qs, v.credit, v.weights);
    hide Picked;
    if r.Some? {
      var l: Lane :| TakenFrom(v.qs, l, r.value) && qs == v.qs.Set(l, v.qs.Get(l).Dequeued());
      assert |v.qs.Get(l).Dequeued().items| == |v.qs.Get(l).items| - 1;
    }
  }

  // The runs that one turn of the loop of drainOnce amounts to.

  lemma RunOf(v: System, es: seq<Event>, e: Event)
    requires Possible(v, es) && Enabled(Ran(v, es), e)
    ensures Possible(v, es + [e]) && Ran(v, es + [e]) == Next(Ran(v, es), e)
  {
    assert (es + [e])[..|es + [e]| - 1] == es;
  }

  lemma NothingRun(v: System)
    requires v.drainer.Idle? && Picked(v.qs, v.credit, v.weights).2 == None
    ensures Possible(v, [Pick]) && Ran(v, [Pick]) == v.(qs := Picked(v.qs, v.credit, v.weights).0,
                                                        credit := Picked(v.qs, v.credit, v.weights).1)
  {
    hide Picked;
    RunOf(v, [], Pick);
    assert [] + [Pick] == [Pick];
  }

  lemma RefusedRun(v: System, now: int)
    requires v.drainer.Idle? && now >= v.bucket.last && Picked(v.qs, v.credit, v.weights).2.Some?
    requires !B.Allowed(v.bucket, Picked(v.qs, v.credit, v.weights).2.value.Size(), now).1
    ensures var (qs, c, r) := Picked(v.qs, v.credit, v.weights); var it := r.value;
            var es := [Pick, Decide(now), PutBack];
            Possible(v, es) && Ran(v, es) == v.(qs := qs.Set(it.Lane(), qs.Get(it.Lane()).Returned(it)), credit := c,
                                                bucket := B.Allowed(v.bucket, it.Size(), now).0)
  {
    hide Picked;
    hide B.Allowed;
    RunOf(v, [], Pick);
    assert [] + [Pick] == [Pick];
    RunOf(v, [Pick], Decide(now));
    assert [Pick] + [Decide(now)] == [Pick, Decide(now)];
    RunOf(v, [Pick, Decide(now)], PutBack);
    assert [Pick, Decide(now)] + [PutBack] == [Pick, Decide(now), PutBack];
  }

  lemma GrantedRun(v: System, now: int, ok: bool)
    requires v.drainer.Idle? && now >= v.bucket.last && Picked(v.qs, v.credit, v.weights).2.Some?
    requires B.Allowed(v.bucket, Picked(v.qs, v.credit, v.weights).2.value.Size(), now).1
    ensures var (qs, c, r) := Picked(v.qs, v.credit, v.weights);
            var es := [Pick, Decide(now), Send(ok), CountSend];
            Possible(v, es) && Ran(v, es) == v.(qs := qs, credit := c,
                                                bucket := B.Allowed(v.bucket, r.value.Size(), now).0,
                                                sent := if ok then v.sent + 1 else v.sent,
                                                drops := if ok then v.drops else v.drops + 1)
  {
    hide Picked;
    hide B.Allowed;
    RunOf(v, [], Pick);
    assert [] + [Pick] == [Pick];
    hide Possible;
    hide Ran;
    SentRun(Next(v, Pick), now, ok);
    RunConcat(v, [Pick], [Decide(now), Send(ok), CountSend]);
    assert [Pick] + [Decide(now), Send(ok), CountSend] == [Pick, Decide(now), Send(ok), CountSend];
  }

  lemma SentRun(v: System, now: int, ok: bool)
    requires v.drainer.Holding? && now >= v.bucket.last && B.Allowed(v.bucket, v.drainer.it.Size(), now).1
    ensures var es := [Decide(now), Send(ok), CountSend];
            Possible(v, es) && Ran(v, es) == v.(bucket := B.Allowed(v.bucket, v.drainer.it.Size(), now).0,
                                                drainer := Idle, sent := if ok then v.sent + 1 else v.sent,
                                                drops := if ok then v.drops else v.drops + 1)
  {
    hide B.Allowed;
    RunOf(v, [], Decide(now));
    assert [] + [Decide(now)] == [Decide(now)];
    hide Possible;
    hide Ran;
    RunOf(v, [Decide(now)], Send(ok));
    assert [Decide(now)] + [Send(ok)] == [Decide(now), Send(ok)];
    RunOf(v, [Decide(now), Send(ok)], CountSend);
    assert [Decide(now), Send(ok)] + [CountSend] == [Decide(now), Send(ok), CountSend];
  }

  ghost predicate EmptyQueues(qs: PerLane<QueueState>) {
    && FreshQueue(qs.signal) && FreshQueue(qs.audio) && FreshQueue(qs.cursor)
    && FreshQueue(qs.video) && FreshQueue(qs.file)
  }

  predicate Distinct(bank: PerLane<Queue>) {
    && bank.signal != bank.audio && bank.signal != bank.cursor && bank.signal != bank.video && bank.signal != bank.file
    && bank.audio != bank.cursor && bank.audio != bank.video && bank.audio != bank.file
    && bank.cursor != bank.video && bank.cursor != bank.file && bank.video != bank.file
  }

  function Values(bank: PerLane<Queue>): PerLane<QueueState>
    reads bank.signal, bank.audio, bank.cursor, bank.video, bank.file
  {
    PerLane(bank.signal.Value(), bank.audio.Value(), bank.cursor.Value(), bank.video.Value(), bank.file.Value())
  }

  /** newBank. */
  method NewBank(caps: PerLane<int>) returns (bank: PerLane<Queue>)
    ensures Distinct(bank) && EmptyQueues(Values(bank))
    ensures bank.signal.cap == (if caps.signal < 1 then 8 else caps.signal)
    ensures bank.audio.cap == (if caps.audio < 1 then 8 else caps.audio)
    ensures bank.cursor.cap == (if caps.cursor < 1 then 8 else caps.cursor)
    ensures bank.video.cap == (if caps.video < 1 then 8 else caps.video)
    ensures bank.file.cap == (if caps.file < 1 then 8 else caps.file)
    ensures fresh(bank.signal) && fresh(bank.audio) && fresh(bank.cursor) && fresh(bank.video) && fresh(bank.file)
  {
    var q0 := new Queue(caps.signal);
    var q1 := new Queue(caps.audio);
    var q2 := new Queue(caps.cursor);
    var q3 := new Queue(caps.video);
    var q4 := new Queue(caps.file);
    bank := PerLane(q0, q1, q2, q3, q4);
  }

  lemma NewIsInitial(s: System)
    requires EmptyQueues(s.qs) && B.ValidState(s.bucket)
    requires s == System(s.weights, s.qs, PerLane(0, 0, 0, 0, 0), s.bucket, Idle, false, multiset{}, 0, 0, 0)
    ensures Initial(s)
  {
  }

  class Scheduler {
    const weights: PerLane<nat>
    const bank: PerLane<Queue>
    const bucket: B.Bucket
    var credit: Credits
    var closed: bool
    var sent: nat
    var drops: nat

    ghost predicate Valid()
      reads this, bucket
    {
      && Distinct(bank)
      && bucket.Valid()
    }

    function Qs(): PerLane<QueueState>
      reads bank.signal, bank.audio, bank.cursor, bank.video, bank.file
    {
      Values(bank)
    }

    /** The state between calls: nobody is half-way through an operation. */
    function Value(): System
      reads this, bucket, bank.signal, bank.audio, bank.cursor, bank.video, bank.file
    {
      System(weights, Qs(), credit, bucket.Value(), Idle, closed, multiset{}, 0, sent, drops)
    }

    constructor (caps: PerLane<int>, weights: PerLane<nat>, minPacing: nat, bbrEnabled: bool, now: int)
      requires minPacing >= 1
      ensures Valid() && Initial(Value()) && Value().weights == weights
      ensures bucket.Value() == B.State(minPacing, minPacing, minPacing as real, now, !bbrEnabled)
      ensures bank.signal.cap == (if caps.signal < 1 then 8 else caps.signal)
      ensures bank.audio.cap == (if caps.audio < 1 then 8 else caps.audio)
      ensures bank.cursor.cap == (if caps.cursor < 1 then 8 else caps.cursor)
      ensures bank.video.cap == (if caps.video < 1 then 8 else caps.video)
      ensures bank.file.cap == (if caps.file < 1 then 8 else caps.file)
      ensures fresh(bucket) && fresh(bank.signal) && fresh(bank.audio) && fresh(bank.cursor)
              && fresh(bank.video) && fresh(bank.file)
    {
      var queues := NewBank(caps);
      var b := new B.Bucket(minPacing, minPacing, now);
      b.SetDisabled(!bbrEnabled);
      this.weights := weights;
      bank := queues;
      bucket := b;
      credit := PerLane(0, 0, 0, 0, 0);
      closed, sent, drops := false, 0, 0;
      new;
      hide Initial;
      NewIsInitial(Value());
    }

    /** Enqueue, run without interference: check, insert, and count the drop. */
    method Enqueue(it: Item) returns (ok: bool)
      requires Valid()
      modifies this, bank.signal, bank.audio, bank.cursor, bank.video, bank.file
      ensures Valid()
      ensures ok <==> !old(closed) && |old(Qs()).Get(it.Lane()).items| < old(Qs()).Get(it.Lane()).cap
      ensures var s := old(Value());
              var t := Next(Next(s, Check(it)), Insert(it));
              Value() == if s.closed then s else if ok then t else Next(t, CountDrop)
    {
      if closed {
        return false;
      }
      ghost var s := Value();
      var q := bank.Get(it.Lane());
      ok := q.Enqueue(it);
      assert Qs() == s.qs.Set(it.Lane(), s.qs.Get(it.Lane()).Enqueued(it).0);
      assert multiset{} + multiset{it} - multiset{it} == multiset{};
      if !ok {
        drops := drops + 1;
      }
    }

    /** ApplyBBR: two locked operations on the bucket, with the controller's switch read first. */
    method ApplyBBR(bbrEnabled: bool, pacingBps: nat)
      requires Valid()
      modifies bucket
      ensures Valid() && bucket.Value() == P.Rated(P.Switched(old(bucket.Value()), bbrEnabled), pacingBps)
      ensures bucket.disabled == !bbrEnabled && bucket.tokens == old(bucket.tokens) && bucket.last == old(bucket.last)
      ensures bucket.rate == if pacingBps > 0 then pacingBps else old(bucket.rate)
      ensures bucket.burst == if pacingBps / 8 > old(bucket.burst) then pacingBps / 8 else old(bucket.burst)
      ensures Value() == Next(Next(old(Value()), SetDisabled(!bbrEnabled)), SetRate(pacingBps))
    {
      bucket.SetDisabled(!bbrEnabled);
      if pacingBps > 0 {
        bucket.SetRate(pacingBps);
      }
    }

    method Close()
      requires Valid()
      modifies this`closed
      ensures Valid() && Value() == Next(old(Value()), Event.Close)
    {
      closed := true;
    }

    /** The first loop of pick: every backlogged lane earns its weight. */
    method Replenish() returns (any: bool)
      modifies this`credit
      ensures credit == Replenished(old(credit), weights, Backlog(Qs())) && any == Busy(Backlog(Qs()))
    {
      any := false;
      ghost var backlog := Backlog(Qs());
      for i := 0 to 4
        invariant credit == EarnedUpTo(old(credit), weights, backlog, i)
        invariant any <==> exists j :: 0 <= j < i && backlog.Get(READY[j])
      {
        var ch := READY[i];
        BacklogIs(Qs(), ch);
        if bank.Get(ch).items != [] {
          any := true;
          credit := credit.Set(ch, credit.Get(ch) + weights.Get(ch));
        }
      }
      AllEarned(old(credit), weights, backlog);
      SomeReady(backlog);
    }

    /** The second loop of pick. The variable that holds the best lane starts as the zero channel, signal. */
    method Choose() returns (best: Lane)
      ensures Best(credit, Backlog(Qs())) == if best == Signal then None else Some(best)
    {
      var bestCredit := -1;
      best := Signal;
      for i := 0 to 4
        invariant Scan(credit, Backlog(Qs()), i) == (if best == Signal then None else Some(best), bestCredit)
      {
        var ch := READY[i];
        BacklogIs(Qs(), ch);
        if bank.Get(ch).items != [] && credit.Get(ch) > bestCredit {
          best, bestCredit := ch, credit.Get(ch);
        }
      }
    }

    method TakeFrom(l: Lane) returns (r: Option<Item>)
      requires Valid()
      modifies bank.signal, bank.audio, bank.cursor, bank.video, bank.file
      ensures Valid()
      ensures var q := old(Qs()).Get(l);
              if q.Empty() then r == None && Qs() == old(Qs())
              else r == Some(q.items[0]) && Qs() == old(Qs()).Set(l, q.Dequeued())
    {
      var q := bank.Get(l);
      r := q.Dequeue();
    }

    /** pick. When every backlogged lane is in debt, the last dequeue is tried on the signal queue, which is empty. */
    method Pick() returns (r: Option<Item>)
      requires Valid()
      modifies this`credit, bank.signal, bank.audio, bank.cursor, bank.video, bank.file
      ensures Valid()
      ensures (Qs(), credit, r) == Picked(old(Qs()), old(credit), weights)
    {
      ghost var s := Value();
      r := TakeFrom(Signal);
      if r.Some? {
        return;
      }
      var any := Replenish();
      if !any {
        IdleRound(s);
        return None;
      }
      var best := Choose();
      hide Best;
      hide Replenished;
      CostOfHead(Qs(), best);
      r := TakeFrom(best);
      if r.Some? {
        var cost := r.value.Size();
        if cost < 1 {
          cost := 1;
        }
        credit := credit.Set(best, credit.Get(best) - cost);
      }
    }

    /** The put-back of drainOnce. */
    method PutBackFront(it: Item)
      requires Valid()
      modifies bank.signal, bank.audio, bank.cursor, bank.video, bank.file
      ensures Valid()
      ensures Qs() == old(Qs()).Set(it.Lane(), old(Qs()).Get(it.Lane()).Returned(it))
    {
      var q := bank.Get(it.Lane());
      q.PutFront(it);
    }

    /** One turn of the loop of drainOnce, at time now; sendOk says whether send succeeds. */
    method DrainStep(now: int, sendOk: bool) returns (more: bool, ghost es: seq<Event>)
      requires Valid() && now >= bucket.last
      modifies this, bucket, bank.signal, bank.audio, bank.cursor, bank.video, bank.file
      ensures Valid() && old(bucket.last) <= bucket.last <= now
      ensures Possible(old(Value()), es) && Ran(old(Value()), es) == Value()
      ensures more ==> TotalDepth(Qs()) < TotalDepth(old(Qs()))
    {
      ghost var v := Value();
      PickShrinks(v);
      hide Picked;
      hide TotalDepth;
      hide Possible;
      hide Ran;
      var r := Pick();
      if r == None {
        NothingRun(v);
        es := [Event.Pick];
        return false, es;
      }
      var it := r.value;
      var ok := bucket.Allow(it.Size(), now);
      hide B.Allowed;
      if !ok {
        PutBackFront(it);
        RefusedRun(v, now);
        es := [Event.Pick, Decide(now), PutBack];
        return false, es;
      }
      if !sendOk {
        drops := drops + 1;
      } else {
        sent := sent + 1;
      }
      GrantedRun(v, now, sendOk);
      es := [Event.Pick, Decide(now), Send(sendOk), CountSend];
      more := true;
    }

    /**
     * drainOnce, run without interference; clock and outcomes stand for the wall clock and the send callback,
     * numbered by turn. What it does is a run of the step system that ends with the drainer idle.
     */
    method DrainOnce(clock: nat -> int, outcomes: nat -> bool) returns (ghost trace: seq<Event>)
      requires Valid() && bucket.last <= clock(0) && forall i: nat :: clock(i) <= clock(i + 1)
      modifies this, bucket, bank.signal, bank.audio, bank.cursor, bank.video, bank.file
      ensures Valid()
      ensures Possible(old(Value()), trace) && Ran(old(Value()), trace) == Value()
    {
      trace := [];
      ghost var s := Value();
      var n: nat := 0;
      var more := true;
      while more
        invariant Valid() && bucket.last <= clock(n)
        invariant Possible(s, trace) && Ran(s, trace) == Value()
        decreases if more then 1 else 0, TotalDepth(Qs())
      {
        hide Possible;
        hide Ran;
        ghost var es;
        more, es := DrainStep(clock(n), outcomes(n));
        RunConcat(s, trace, es);
        trace := trace + es;
        assert clock(n) <= clock(n + 1);
        n := n + 1;
      }
    }
  }
}
