/** Whole runs of the reassembler: it undoes Split whatever the arrival order, and in company. */
module ReassemblyRuns {
  import opened Bytes
  import opened Frames
  import opened Fragments
  import opened Reassembly

  datatype Event = Push(f: Frame, now: int) | Sweep(now: int) | Reset

  function Next(s: State, e: Event): (State, Outcome) {
    match e
    case Push(f, now) => Pushed(s, f, now)
    case Sweep(now) => (Expire(s, now), Incomplete)
    case Reset => (s.(items := map[]), Incomplete)
  }

  function After(s: State, es: seq<Event>): State
    decreases |es|
  {
    if es == [] then s else Next(After(s, es[..|es| - 1]), es[|es| - 1]).0
  }

  /** What the last event of the run answers. */
  function LastOutcome(s: State, es: seq<Event>): Outcome
    requires es != []
  {
    Next(After(s, es[..|es| - 1]), es[|es| - 1]).1
  }

  /** Every reachable state satisfies the invariant. */
  lemma {:induction false} RunsKeepValid(s: State, es: seq<Event>)
    requires ValidState(s)
    ensures var t := After(s, es); ValidState(t) && t.maxPay == s.maxPay && t.ttl == s.ttl
    decreases |es|
  {
    if es != [] {
      var front := es[..|es| - 1];
      RunsKeepValid(s, front);
      match es[|es| - 1] {
        case Push(f, now) => PushKeepsValid(After(s, front), f, now);
        case Sweep(now) => ExpireKeepsValid(After(s, front), now);
        case Reset =>
      }
    }
  }

  // ---------- the fragments of one message among other traffic ----------

  predicate On(e: Event, k: Key) {
    e.Push? && KeyOf(e.f) == k
  }

  /** Which fragments of k have been pushed at least once. */
  function Seen(es: seq<Event>, k: Key): set<nat>
    decreases |es|
  {
    if es == [] then {}
    else
      var e := es[|es| - 1];
      Seen(es[..|es| - 1], k) + (if On(e, k) then {e.f.fragIdx} else {})
  }

  /** Every push on k is one of the fragments fs: any order, any repeats, and anything at all on other keys. */
  ghost predicate Only(es: seq<Event>, k: Key, fs: seq<Frame>) {
    forall i :: 0 <= i < |es| && On(es[i], k) ==> es[i].f in fs
  }

  /** The event makes the reassembler drop what has expired: a sweep, or an acceptable fragment of any message. */
  predicate Sweeps(e: Event, maxPay: nat) {
    e.Sweep? || (e.Push? && ValidFrame(e.f) && |e.f.payload| <= maxPay && e.f.fragTotal != 1)
  }

  /** The event takes a pending entry of k away unfinished: a reset, or expiry. */
  predicate Loses(t: State, e: Event, k: Key) {
    k in t.items && (e.Reset? || (Sweeps(e, t.maxPay) && IsExpired(k, t.items[k], e.now)))
  }

  ghost predicate Undisturbed(s: State, es: seq<Event>, k: Key) {
    forall j :: 0 <= j < |es| ==> !Loses(After(s, es[..j]), es[j], k)
  }

  lemma UndisturbedFront(s: State, es: seq<Event>, k: Key)
    requires es != [] && Undisturbed(s, es, k)
    ensures Undisturbed(s, es[..|es| - 1], k) && !Loses(After(s, es[..|es| - 1]), es[|es| - 1], k)
  {
    var front := es[..|es| - 1];
    forall j | 0 <= j < |front| ensures !Loses(After(s, front[..j]), front[j], k) {
      assert front[..j] == es[..j];
    }
    hide Loses;
    hide After;
  }

  lemma {:induction false} ConfigKept(s: State, es: seq<Event>)
    ensures After(s, es).maxPay == s.maxPay && After(s, es).ttl == s.ttl
    decreases |es|
  {
    if es != [] {
      ConfigKept(s, es[..|es| - 1]);
    }
  }

  /** The entry for the message when the fragments in seen have arrived. */
  ghost predicate Collecting(p: Pending, base: Frame, payload: seq<byte>, max: nat, seen: set<nat>)
    requires Splittable(base, payload, max)
  {
    var fs := FragmentsOf(base, payload, max);
    && p.kind == base.kind && p.prio == base.priority && p.pts == base.pts && SetEom(p.flags) == SetEom(base.flags)
    && p.total == |fs| && p.parts.Keys == seen
    && (forall i :: i in seen ==> i < |fs| && p.parts[i] == fs[i].payload)
  }

  ghost predicate Progress(t: State, base: Frame, payload: seq<byte>, max: nat, seen: set<nat>)
    requires Splittable(base, payload, max)
  {
    var k := KeyOf(base);
    if seen == {} then k !in t.items
    else k in t.items && Collecting(t.items[k], base, payload, max, seen)
  }

  /** Events on other keys leave the entry alone, unless they take it away. */
  lemma OtherKeysIrrelevant(t: State, e: Event, k: Key)
    requires !On(e, k) && !Loses(t, e, k)
    ensures var u := Next(t, e).0;
            (k in u.items <==> k in t.items) && (k in t.items ==> u.items[k] == t.items[k])
  {
  }

  lemma SameKey(base: Frame, payload: seq<byte>, max: nat, f: Frame)
    requires Splittable(base, payload, max) && f in FragmentsOf(base, payload, max)
    ensures f.fragIdx < |FragmentsOf(base, payload, max)| && f == FragmentsOf(base, payload, max)[f.fragIdx]
    ensures KeyOf(f) == KeyOf(base) && f.fragTotal == |FragmentsOf(base, payload, max)|
    ensures ValidFrame(f) && |f.payload| <= |payload|
    ensures f.kind == base.kind && f.priority == base.priority && f.pts == base.pts
    ensures SetEom(f.flags) == SetEom(base.flags)
  {
    var fs := FragmentsOf(base, payload, max);
    var i :| 0 <= i < |fs| && fs[i] == f;
    FragmentsWellFormed(base, payload, max, i);
  }

  lemma AddKeepsCollecting(p: Pending, base: Frame, payload: seq<byte>, max: nat, seen: set<nat>, i: nat)
    requires Splittable(base, payload, max) && i < |FragmentsOf(base, payload, max)|
    requires Collecting(p, base, payload, max, seen)
    ensures Collecting(p.Add(i, FragmentsOf(base, payload, max)[i].payload), base, payload, max, seen + {i})
  {
    hide Splittable;
    hide FragmentsOf;
    if i in seen {
      assert seen + {i} == seen;
    }
  }

  lemma NewEntryCollecting(base: Frame, payload: seq<byte>, max: nat, f: Frame, deadline: int)
    requires Splittable(base, payload, max) && f in FragmentsOf(base, payload, max)
    ensures Collecting(NewPending(f, deadline), base, payload, max, {})
  {
    SameKey(base, payload, max, f);
  }

  /** What expiry leaves of the entry of k. */
  lemma ExpireLeaves(t: State, k: Key, now: int)
    ensures var live := Expire(t, now);
            && live.maxPay == t.maxPay && live.ttl == t.ttl
            && (k in live.items <==> k in t.items && !IsExpired(k, t.items[k], now))
            && (k in live.items ==> live.items[k] == t.items[k])
  {
  }

  /** A fragment of the message joins the entry, which expiry has left alone. */
  lemma EntryExtends(live: State, f: Frame, now: int, base: Frame, payload: seq<byte>, max: nat, seen: set<nat>)
    requires Splittable(base, payload, max) && f in FragmentsOf(base, payload, max)
    requires Progress(live, base, payload, max, seen)
    ensures var k := KeyOf(base); var p := Extended(live, f, now);
            && KeyOf(f) == k && (k in live.items ==> live.items[k].total == f.fragTotal)
            && Collecting(p, base, payload, max, seen + {f.fragIdx})
            && p.deadline == if seen == {} then now + live.ttl else live.items[k].deadline
  {
    SameKey(base, payload, max, f);
    hide Splittable;
    hide FragmentsOf;
    hide SetEom;
    if seen == {} {
      NewEntryCollecting(base, payload, max, f, now + live.ttl);
      AddKeepsCollecting(NewPending(f, now + live.ttl), base, payload, max, {}, f.fragIdx);
    } else {
      AddKeepsCollecting(live.items[KeyOf(base)], base, payload, max, seen, f.fragIdx);
    }
  }

  lemma FullEntryIsWhole(f: Frame, p: Pending, base: Frame, payload: seq<byte>, max: nat, seen: set<nat>)
    requires Splittable(base, payload, max) && payload != [] && f in FragmentsOf(base, payload, max)
    requires Collecting(p, base, payload, max, seen) && p.HasAll()
    ensures Concat(p.parts, p.total) == payload && Assembled(f, p) == Whole(base, payload)
  {
    SameKey(base, payload, max, f);
    PartsJoin(p, base, payload, max, seen, p.total);
    PiecesCoverPayload(payload, max);
  }

  lemma PayloadNotEmpty(base: Frame, payload: seq<byte>, max: nat)
    requires Splittable(base, payload, max) && |FragmentsOf(base, payload, max)| > 1
    ensures payload != []
  {
  }

  /** Whatever lives of the entry, a fragment is added to it; the message is handed on when none is missing. */
  lemma FragmentStored(live: State, f: Frame, now: int, base: Frame, payload: seq<byte>, max: nat, seen: set<nat>)
    requires Splittable(base, payload, max) && |FragmentsOf(base, payload, max)| > 1
    requires |payload| <= live.maxPay && f in FragmentsOf(base, payload, max)
    requires Progress(live, base, payload, max, seen)
    ensures var n, k := |FragmentsOf(base, payload, max)|, KeyOf(base);
            var (u, out) := Stored(live, f, now);
            if Below(n) <= seen + {f.fragIdx} then out == Done(Whole(base, payload)) && k !in u.items
            else && out == Incomplete && Progress(u, base, payload, max, seen + {f.fragIdx})
                 && u.items[k].deadline == if seen == {} then now + live.ttl else live.items[k].deadline
  {
    EntryExtends(live, f, now, base, payload, max, seen);
    PayloadNotEmpty(base, payload, max);
    hide Splittable;
    hide FragmentsOf;
    var n, p := |FragmentsOf(base, payload, max)|, Extended(live, f, now);
    FullWhenAllSeen(p, n, seen + {f.fragIdx});
    if p.HasAll() {
      FullEntryIsWhole(f, p, base, payload, max, seen + {f.fragIdx});
    }
    hide Extended;
  }

  /** What a push of a fragment comes to: expiry first. */
  lemma FragmentPushed(t: State, f: Frame, now: int, base: Frame, payload: seq<byte>, max: nat)
    requires Splittable(base, payload, max) && |payload| <= t.maxPay && f in FragmentsOf(base, payload, max)
    ensures KeyOf(f) == KeyOf(base) && (f.fragTotal != 1 ==> Sweeps(Push(f, now), t.maxPay))
    ensures f.fragTotal == |FragmentsOf(base, payload, max)|
    ensures f.fragTotal != 1 ==> Pushed(t, f, now) == Stored(Expire(t, now), f, now)
    ensures f.fragTotal == 1 ==>
              Pushed(t, f, now) == (t.(items := t.items - {KeyOf(base)}), Done(Whole(base, payload)))
              && Below(1) <= {f.fragIdx}
  {
    SameKey(base, payload, max, f);
    if f.fragTotal == 1 {
      SingleFragment(base, payload, max);
    }
    hide FragmentsOf;
    hide Splittable;
  }

  /** One fragment arrives: it is recorded, and nothing is handed on, unless it is the last one missing. */
  lemma FragmentArrives(t: State, e: Event, base: Frame, payload: seq<byte>, max: nat, seen: set<nat>)
    requires Splittable(base, payload, max) && |FragmentsOf(base, payload, max)| > 1
    requires |payload| <= t.maxPay && e.Push? && e.f in FragmentsOf(base, payload, max)
    requires !Loses(t, e, KeyOf(base)) && Progress(t, base, payload, max, seen)
    ensures var n := |FragmentsOf(base, payload, max)|; var now := seen + {e.f.fragIdx}; var (u, out) := Next(t, e);
            if Below(n) <= now then out == Done(Whole(base, payload)) && KeyOf(base) !in u.items
            else out == Incomplete && Progress(u, base, payload, max, now)
  {
    hide Splittable;
    hide FragmentsOf;
    hide Collecting;
    hide Sweeps;
    hide Stored;
    FragmentPushed(t, e.f, e.now, base, payload, max);
    hide Pushed;
    ExpireLeaves(t, KeyOf(base), e.now);
    hide Expire;
    FragmentStored(Expire(t, e.now), e.f, e.now, base, payload, max, seen);
  }

  lemma FullWhenAllSeen(p: Pending, n: nat, seen: set<nat>)
    requires p.total == n && p.parts.Keys == seen
    ensures p.HasAll() <==> Below(n) <= seen
  {
    if p.HasAll() {
      assert forall i: nat :: i in Below(n) ==> i in p.parts;
    }
  }

  lemma {:induction false} PartsJoin(
    p: Pending, base: Frame, payload: seq<byte>, max: nat, seen: set<nat>, i: nat)
    requires Splittable(base, payload, max) && payload != []
    requires Collecting(p, base, payload, max, seen) && p.HasAll() && i <= p.total
    ensures Concat(p.parts, i) == Joined(payload, max, i)
  {
    hide Splittable;
    hide FragmentsOf;
    hide Piece;
    if i > 0 {
      PartsJoin(p, base, payload, max, seen, i - 1);
      FragmentPayload(base, payload, max, i - 1);
    }
  }

  lemma FragmentPayload(base: Frame, payload: seq<byte>, max: nat, i: nat)
    requires Splittable(base, payload, max) && payload != [] && i < |FragmentsOf(base, payload, max)|
    ensures FragmentsOf(base, payload, max)[i].payload == Piece(payload, max, i)
  {
  }

  /** As long as some fragment is missing, the entry holds exactly what has arrived. */
  lemma {:induction false} ProgressHolds(s: State, es: seq<Event>, base: Frame, payload: seq<byte>, max: nat)
    requires Splittable(base, payload, max) && |FragmentsOf(base, payload, max)| > 1
    requires KeyOf(base) !in s.items && |payload| <= s.maxPay
    requires Only(es, KeyOf(base), FragmentsOf(base, payload, max)) && Undisturbed(s, es, KeyOf(base))
    requires !(Below(|FragmentsOf(base, payload, max)|) <= Seen(es, KeyOf(base)))
    ensures Progress(After(s, es), base, payload, max, Seen(es, KeyOf(base)))
    decreases |es|
  {
    hide Splittable;
    hide FragmentsOf;
    hide Next;
    hide Collecting;
    hide Undisturbed;
    hide Loses;
    if es != [] {
      var k, front, e := KeyOf(base), es[..|es| - 1], es[|es| - 1];
      UndisturbedFront(s, es, k);
      ProgressHolds(s, front, base, payload, max);
      ConfigKept(s, front);
      if On(e, k) {
        FragmentArrives(After(s, front), e, base, payload, max, Seen(front, k));
      } else {
        OtherKeysIrrelevant(After(s, front), e, k);
      }
    }
  }

  /**
   * Reassembly undoes splitting. From any state without an entry for the message, under any order, repetition and
   * interleaving that does not take a pending entry of the message away, a push on the message answers with the
   * whole message exactly when it supplies the last fragment that was missing; every earlier one answers that
   * the message is incomplete.
   */
  lemma ReassemblyUndoesSplit(s: State, es: seq<Event>, base: Frame, payload: seq<byte>, max: nat)
    requires Splittable(base, payload, max) && KeyOf(base) !in s.items && |payload| <= s.maxPay
    requires es != [] && On(es[|es| - 1], KeyOf(base))
    requires Only(es, KeyOf(base), FragmentsOf(base, payload, max)) && Undisturbed(s, es, KeyOf(base))
    requires var n := |FragmentsOf(base, payload, max)|;
             n > 1 ==> !(Below(n) <= Seen(es[..|es| - 1], KeyOf(base)))
    ensures var n := |FragmentsOf(base, payload, max)|;
            if Below(n) <= Seen(es, KeyOf(base))
            then LastOutcome(s, es) == Done(Whole(base, payload)) && KeyOf(base) !in After(s, es).items
            else LastOutcome(s, es) == Incomplete && KeyOf(base) in After(s, es).items
  {
    hide Splittable;
    hide FragmentsOf;
    hide Undisturbed;
    hide Loses;
    hide Collecting;
    var k, front, e := KeyOf(base), es[..|es| - 1], es[|es| - 1];
    ConfigKept(s, front);
    UndisturbedFront(s, es, k);
    if |FragmentsOf(base, payload, max)| <= 1 {
      FragmentPushed(After(s, front), e.f, e.now, base, payload, max);
      AtLeastOne(base, payload, max);
      hide Pushed;
    } else {
      hide Next;
      ProgressHolds(s, front, base, payload, max);
      FragmentArrives(After(s, front), e, base, payload, max, Seen(front, k));
    }
  }

  lemma AtLeastOne(base: Frame, payload: seq<byte>, max: nat)
    requires Splittable(base, payload, max)
    ensures |FragmentsOf(base, payload, max)| >= 1
  {
  }

  // ---------- a condition on the clock alone ----------

  /**
   * No reset; and, unless the channel is reliable, the fragments are pushed from t0 on and all events come within
   * ttl of t0. This is known before the run, and it keeps the entry from being taken away.
   */
  ghost predicate InTime(es: seq<Event>, k: Key, ttl: int, t0: int) {
    forall i :: 0 <= i < |es| ==> InTimeEvent(es[i], k, ttl, t0)
  }

  ghost predicate InTimeEvent(e: Event, k: Key, ttl: int, t0: int) {
    && !e.Reset?
    && (Reliable(k.ch) || ((On(e, k) ==> t0 <= e.now) && e.now <= t0 + ttl))
  }

  lemma DeadlineStep(t: State, e: Event, k: Key)
    ensures var u := Next(t, e).0; k in u.items ==>
              || (k in t.items && u.items[k].deadline == t.items[k].deadline)
              || (On(e, k) && u.items[k].deadline == e.now + t.ttl)
  {
  }

  lemma {:induction false} InTimeUndisturbed(s: State, es: seq<Event>, k: Key, t0: int)
    requires k !in s.items && InTime(es, k, s.ttl, t0)
    ensures Undisturbed(s, es, k)
    ensures k in After(s, es).items ==> Reliable(k.ch) || After(s, es).items[k].deadline >= t0 + s.ttl
    decreases |es|
  {
    hide Next;
    if es != [] {
      var front, e := es[..|es| - 1], es[|es| - 1];
      InTimeUndisturbed(s, front, k, t0);
      ConfigKept(s, front);
      assert InTimeEvent(e, k, s.ttl, t0);
      DeadlineStep(After(s, front), e, k);
      forall j | 0 <= j < |es| ensures !Loses(After(s, es[..j]), es[j], k) {
        if j < |front| {
          assert es[..j] == front[..j];
          assert !Loses(After(s, front[..j]), front[j], k);
        } else {
          assert es[..j] == front;
        }
      }
    }
  }
}
