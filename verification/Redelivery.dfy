/** How often a message is handed on when its fragments arrive repeatedly, late, or in the company of resets. */
module Redelivery {
  import opened Bytes
  import opened Frames
  import opened Fragments
  import opened Reassembly
  import opened ReassemblyRuns

  /** The messages handed on under key k, in order. */
  function Delivered(s: State, es: seq<Event>, k: Key): seq<Frame>
    decreases |es|
  {
    if es == [] then []
    else
      var front, e := es[..|es| - 1], es[|es| - 1];
      var out := Next(After(s, front), e).1;
      Delivered(s, front, k) + (if On(e, k) && out.Done? then [out.frame] else [])
  }

  function Copies<T>(x: T, n: nat): (c: seq<T>)
    ensures |c| == n
  {
    if n == 0 then [] else Copies(x, n - 1) + [x]
  }

  // ---------- exactly how often: one timer for the key ----------

  /** What matters of the traffic for one key: full sets so far, fragments of the next one, and when these expire. */
  datatype Timer = Timer(count: nat, seen: set<nat>, deadline: int)

  function Lapsed(c: Timer, k: Key, now: int): Timer {
    if !Reliable(k.ch) && now > c.deadline then c.(seen := {}) else c
  }

  function Added(c: Timer, idx: nat, n: nat, deadline: int): Timer {
    if Below(n) <= c.seen + {idx} then Timer(c.count + 1, {}, c.deadline)
    else Timer(c.count, c.seen + {idx}, if c.seen == {} then deadline else c.deadline)
  }

  function Ticked(c: Timer, e: Event, k: Key, n: nat, ttl: int, maxPay: nat): Timer {
    if e.Reset? then c.(seen := {})
    else
      var d := if Sweeps(e, maxPay) then Lapsed(c, k, e.now) else c;
      if On(e, k) then Added(d, e.f.fragIdx, n, e.now + ttl) else d
  }

  function Timed(es: seq<Event>, k: Key, n: nat, ttl: int, maxPay: nat): Timer
    decreases |es|
  {
    if es == [] then Timer(0, {}, 0)
    else Ticked(Timed(es[..|es| - 1], k, n, ttl, maxPay), es[|es| - 1], k, n, ttl, maxPay)
  }

  /** The timer shows the entry. */
  ghost predicate Shows(c: Timer, t: State, base: Frame, payload: seq<byte>, max: nat)
    requires Splittable(base, payload, max)
  {
    Progress(t, base, payload, max, c.seen)
    && (KeyOf(base) in t.items ==> t.items[KeyOf(base)].deadline == c.deadline)
  }

  lemma LapseShows(c: Timer, t: State, now: int, base: Frame, payload: seq<byte>, max: nat)
    requires Splittable(base, payload, max) && Shows(c, t, base, payload, max)
    ensures Shows(Lapsed(c, KeyOf(base), now), Expire(t, now), base, payload, max)
  {
    ExpireLeaves(t, KeyOf(base), now);
    hide Expire;
    hide Collecting;
    hide Splittable;
  }

  /** A fragment of the message: the timer counts exactly when the reassembler hands the message on. */
  lemma FragmentTicks(c: Timer, t: State, e: Event, base: Frame, payload: seq<byte>, max: nat)
    requires Splittable(base, payload, max) && |payload| <= t.maxPay && Shows(c, t, base, payload, max)
    requires e.Push? && e.f in FragmentsOf(base, payload, max) && |FragmentsOf(base, payload, max)| > 1
    ensures var d := Ticked(c, e, KeyOf(base), |FragmentsOf(base, payload, max)|, t.ttl, t.maxPay);
            var (u, out) := Next(t, e);
            && Shows(d, u, base, payload, max)
            && if d.count == c.count then !out.Done? else d.count == c.count + 1 && out == Done(Whole(base, payload))
  {
    hide Splittable;
    hide FragmentsOf;
    hide Collecting;
    hide Sweeps;
    hide Stored;
    LapseShows(c, t, e.now, base, payload, max);
    ExpireLeaves(t, KeyOf(base), e.now);
    hide Expire;
    FragmentPushed(t, e.f, e.now, base, payload, max);
    hide Pushed;
    var d := Lapsed(c, KeyOf(base), e.now);
    hide Lapsed;
    FragmentStored(Expire(t, e.now), e.f, e.now, base, payload, max, d.seen);
  }

  /** Any event. */
  lemma EventTicks(c: Timer, t: State, e: Event, base: Frame, payload: seq<byte>, max: nat)
    requires Splittable(base, payload, max) && |payload| <= t.maxPay && Shows(c, t, base, payload, max)
    requires On(e, KeyOf(base)) ==> e.f in FragmentsOf(base, payload, max)
    ensures var k := KeyOf(base);
            var d := Ticked(c, e, k, |FragmentsOf(base, payload, max)|, t.ttl, t.maxPay);
            var (u, out) := Next(t, e);
            && Shows(d, u, base, payload, max)
            && if d.count == c.count then !(On(e, k) && out.Done?)
               else d.count == c.count + 1 && On(e, k) && out == Done(Whole(base, payload))
  {
    hide Splittable;
    hide FragmentsOf;
    hide Collecting;
    AtLeastOne(base, payload, max);
    if !On(e, KeyOf(base)) {
      OtherTicks(c, t, e, base, payload, max);
      hide Next;
    } else if |FragmentsOf(base, payload, max)| > 1 {
      FragmentTicks(c, t, e, base, payload, max);
      hide Next;
      hide Ticked;
    } else {
      FragmentPushed(t, e.f, e.now, base, payload, max);
      hide Pushed;
      hide Sweeps;
    }
  }

  lemma OtherTicks(c: Timer, t: State, e: Event, base: Frame, payload: seq<byte>, max: nat)
    requires Splittable(base, payload, max) && Shows(c, t, base, payload, max) && !On(e, KeyOf(base))
    ensures Shows(Ticked(c, e, KeyOf(base), |FragmentsOf(base, payload, max)|, t.ttl, t.maxPay), Next(t, e).0,
                  base, payload, max)
  {
    hide Splittable;
    hide FragmentsOf;
    hide Collecting;
    if !e.Reset? {
      LapseShows(c, t, e.now, base, payload, max);
      OtherKeyed(t, e, KeyOf(base));
      hide Next;
      hide Lapsed;
      hide Expire;
    }
  }

  /** An event on another key: at most expiry. */
  lemma OtherKeyed(t: State, e: Event, k: Key)
    requires !On(e, k) && !e.Reset?
    ensures var u, v := Next(t, e).0, if Sweeps(e, t.maxPay) then Expire(t, e.now) else t;
            (k in u.items <==> k in v.items) && (k in v.items ==> u.items[k] == v.items[k])
  {
  }

  /**
   * How often a message is handed on, for all traffic in which every push on its key is one of its fragments, at
   * whatever times, with whatever sweeps, resets and other messages: one copy of the whole message for every
   * full set that the timer counts.
   */
  lemma {:induction false} DeliveredByTimer(s: State, es: seq<Event>, base: Frame, payload: seq<byte>, max: nat)
    requires Splittable(base, payload, max) && KeyOf(base) !in s.items && |payload| <= s.maxPay
    requires Only(es, KeyOf(base), FragmentsOf(base, payload, max))
    ensures var c := Timed(es, KeyOf(base), |FragmentsOf(base, payload, max)|, s.ttl, s.maxPay);
            && Delivered(s, es, KeyOf(base)) == Copies(Whole(base, payload), c.count)
            && Shows(c, After(s, es), base, payload, max)
    decreases |es|
  {
    hide Splittable;
    hide FragmentsOf;
    hide Next;
    hide Whole;
    hide Collecting;
    hide Ticked;
    if es != [] {
      var front, e := es[..|es| - 1], es[|es| - 1];
      DeliveredByTimer(s, front, base, payload, max);
      ConfigKept(s, front);
      var c := Timed(front, KeyOf(base), |FragmentsOf(base, payload, max)|, s.ttl, s.maxPay);
      EventTicks(c, After(s, front), e, base, payload, max);
      hide Shows;
    }
  }

  // ---------- without loss: once for every full set ----------

  /** Collecting the n fragments of k over and over: how many full sets, and which fragments of the next one. */
  function Cover(es: seq<Event>, k: Key, n: nat): (nat, set<nat>)
    decreases |es|
  {
    if es == [] then (0, {})
    else
      var (c, seen) := Cover(es[..|es| - 1], k, n);
      Counted(c, seen, es[|es| - 1], k, n)
  }

  function Counted(c: nat, seen: set<nat>, e: Event, k: Key, n: nat): (nat, set<nat>) {
    if !On(e, k) then (c, seen)
    else if Below(n) <= seen + {e.f.fragIdx} then (c + 1, {})
    else (c, seen + {e.f.fragIdx})
  }

  /** As long as no pending entry of the message is taken away: one copy for every full set. */
  lemma {:induction false} DeliveredPerSet(s: State, es: seq<Event>, base: Frame, payload: seq<byte>, max: nat)
    requires Splittable(base, payload, max) && KeyOf(base) !in s.items && |payload| <= s.maxPay
    requires Only(es, KeyOf(base), FragmentsOf(base, payload, max)) && Undisturbed(s, es, KeyOf(base))
    ensures var (c, seen) := Cover(es, KeyOf(base), |FragmentsOf(base, payload, max)|);
            && Delivered(s, es, KeyOf(base)) == Copies(Whole(base, payload), c)
            && Progress(After(s, es), base, payload, max, seen)
    decreases |es|
  {
    DeliveredByTimer(s, es, base, payload, max);
    hide Splittable;
    hide FragmentsOf;
    SameCount(s, es, base, payload, max);
    hide Progress;
    hide Undisturbed;
  }

  lemma {:induction false} SameCount(s: State, es: seq<Event>, base: Frame, payload: seq<byte>, max: nat)
    requires Splittable(base, payload, max) && KeyOf(base) !in s.items && |payload| <= s.maxPay
    requires Only(es, KeyOf(base), FragmentsOf(base, payload, max)) && Undisturbed(s, es, KeyOf(base))
    ensures var k, n := KeyOf(base), |FragmentsOf(base, payload, max)|;
            var c := Timed(es, k, n, s.ttl, s.maxPay); Cover(es, k, n) == (c.count, c.seen)
    decreases |es|
  {
    hide Splittable;
    hide FragmentsOf;
    hide Undisturbed;
    hide Next;
    hide Loses;
    hide Ticked;
    hide Counted;
    hide Shows;
    if es != [] {
      var k, front, e := KeyOf(base), es[..|es| - 1], es[|es| - 1];
      UndisturbedFront(s, es, k);
      SameCount(s, front, base, payload, max);
      DeliveredByTimer(s, front, base, payload, max);
      ConfigKept(s, front);
      SameStep(Timed(front, k, |FragmentsOf(base, payload, max)|, s.ttl, s.maxPay), After(s, front), e,
               base, payload, max);
    }
  }

  lemma SameStep(c: Timer, t: State, e: Event, base: Frame, payload: seq<byte>, max: nat)
    requires Splittable(base, payload, max) && Shows(c, t, base, payload, max) && !Loses(t, e, KeyOf(base))
    ensures var k, n := KeyOf(base), |FragmentsOf(base, payload, max)|;
            var d := Ticked(c, e, k, n, t.ttl, t.maxPay); Counted(c.count, c.seen, e, k, n) == (d.count, d.seen)
  {
    hide Splittable;
    hide FragmentsOf;
    hide Collecting;
    hide Below;
    var k := KeyOf(base);
    if Sweeps(e, t.maxPay) {
      assert Lapsed(c, k, e.now).seen == c.seen;
      SameCounted(Lapsed(c, k, e.now), c, e, k, |FragmentsOf(base, payload, max)|, t.ttl);
    } else if !e.Reset? {
      SameCounted(c, c, e, k, |FragmentsOf(base, payload, max)|, t.ttl);
    }
    hide Sweeps;
    hide Added;
    hide Counted;
  }

  lemma SameCounted(d: Timer, c: Timer, e: Event, k: Key, n: nat, ttl: int)
    requires d.count == c.count && d.seen == c.seen && !e.Reset?
    ensures var f := if On(e, k) then Added(d, e.f.fragIdx, n, e.now + ttl) else d;
            Counted(c.count, c.seen, e, k, n) == (f.count, f.seen)
  {
    hide Below;
  }

  // ---------- whatever the traffic: at most once for every full set ----------

  /** The fragments of k that are pending. */
  function PendingOf(t: State, k: Key): set<nat> {
    if k in t.items then t.items[k].parts.Keys else {}
  }

  /** Never more copies than full sets, nor, with equally many, more pending than the sets leave over. */
  ghost predicate NoMore(t: State, d: nat, c: nat, seen: set<nat>, k: Key, n: nat) {
    && (k in t.items ==> t.items[k].total == n)
    && (d < c || (d == c && PendingOf(t, k) <= seen))
  }

  lemma NoMoreStored(live: State, f: Frame, now: int, d: nat, c: nat, seen: set<nat>, n: nat)
    requires NoMore(live, d, c, seen, KeyOf(f), n) && f.fragTotal == n
    ensures var (u, out) := Stored(live, f, now); var k := KeyOf(f);
            var (c', seen') := if Below(n) <= seen + {f.fragIdx} then (c + 1, {}) else (c, seen + {f.fragIdx});
            NoMore(u, if out.Done? then d + 1 else d, c', seen', k, n)
  {
    var p := Extended(live, f, now);
    assert p.total == n && p.parts.Keys == PendingOf(live, KeyOf(f)) + {f.fragIdx};
    assert p.HasAll() ==> Below(n) <= p.parts.Keys;
    hide Extended;
    hide Concat;
    hide Below;
    hide KeyOf;
  }

  lemma NoMoreStep(t: State, e: Event, d: nat, c: nat, seen: set<nat>, k: Key, n: nat)
    requires NoMore(t, d, c, seen, k, n) && (On(e, k) ==> e.f.fragTotal == n)
    ensures var (u, out) := Next(t, e); var (c', seen') := Counted(c, seen, e, k, n);
            NoMore(u, if On(e, k) && out.Done? then d + 1 else d, c', seen', k, n)
  {
    hide Stored;
    hide Below;
    hide IsExpired;
    if e.Reset? {
    } else if !On(e, k) {
      OtherKeyed(t, e, k);
      ExpireLeaves(t, k, e.now);
      hide Next;
      hide Expire;
      hide Sweeps;
    } else if Sweeps(e, t.maxPay) {
      ExpireLeaves(t, k, e.now);
      hide Expire;
      NoMoreStored(Expire(t, e.now), e.f, e.now, d, c, seen, n);
      hide NoMore;
      hide HeaderError;
    } else {
      NoMoreOther(t, e.f, e.now, d, c, seen, n);
      hide Sweeps;
    }
  }

  /** A push that reaches no pending entry: refused, or a message in one frame. */
  lemma NoMoreOther(t: State, f: Frame, now: int, d: nat, c: nat, seen: set<nat>, n: nat)
    requires NoMore(t, d, c, seen, KeyOf(f), n) && f.fragTotal == n && !Sweeps(Push(f, now), t.maxPay)
    ensures var (u, out) := Pushed(t, f, now);
            var (c', seen') := Counted(c, seen, Push(f, now), KeyOf(f), n);
            NoMore(u, if out.Done? then d + 1 else d, c', seen', KeyOf(f), n)
  {
    hide Stored;
    assert ValidFrame(f) && n == 1 ==> Below(n) <= seen + {f.fragIdx};
    hide Below;
  }

  /**
   * At most once for every full set, whatever the times, sweeps, resets and size limits, provided that all pushes on
   * the key agree on the number of fragments: m copies of something need m consecutive stretches of the traffic that
   * each carry every index.
   */
  lemma HandedOnAtMost(s: State, es: seq<Event>, k: Key, n: nat, m: nat)
    requires k !in s.items && n >= 1 && forall i :: 0 <= i < |es| && On(es[i], k) ==> es[i].f.fragTotal == n
    ensures |Delivered(s, es, k)| >= m ==> Cuts(es, k, n, m)
  {
    NoMoreRun(s, es, k, n);
    CoverIsCuts(es, k, n, m);
    hide Cuts;
    hide NoMore;
  }

  lemma {:induction false} NoMoreRun(s: State, es: seq<Event>, k: Key, n: nat)
    requires k !in s.items && forall i :: 0 <= i < |es| && On(es[i], k) ==> es[i].f.fragTotal == n
    ensures var (c, seen) := Cover(es, k, n); NoMore(After(s, es), |Delivered(s, es, k)|, c, seen, k, n)
    ensures |Delivered(s, es, k)| <= Cover(es, k, n).0
    decreases |es|
  {
    assert PendingOf(s, k) == {};
    hide Next;
    hide Counted;
    hide PendingOf;
    if es != [] {
      var front, e := es[..|es| - 1], es[|es| - 1];
      NoMoreRun(s, front, k, n);
      var (c, seen) := Cover(front, k, n);
      NoMoreStep(After(s, front), e, |Delivered(s, front, k)|, c, seen, k, n);
    }
  }

  // ---------- full sets are stretches of the traffic ----------

  /** es falls into at least m consecutive stretches, each of which carries all n fragments of k. */
  ghost predicate Cuts(es: seq<Event>, k: Key, n: nat, m: nat)
    decreases m
  {
    m == 0 || exists i :: 0 <= i <= |es| && Below(n) <= Seen(es[i..], k) && Cuts(es[..i], k, n, m - 1)
  }

  lemma CutsWith(es: seq<Event>, k: Key, n: nat, m: nat, i: nat)
    requires i <= |es| && Below(n) <= Seen(es[i..], k) && Cuts(es[..i], k, n, m)
    ensures Cuts(es, k, n, m + 1)
  {
    hide Seen;
  }

  lemma LastCut(es: seq<Event>, k: Key, n: nat, m: nat) returns (i: nat)
    requires m > 0 && Cuts(es, k, n, m)
    ensures i <= |es| && Below(n) <= Seen(es[i..], k) && Cuts(es[..i], k, n, m - 1)
  {
    hide Seen;
    var j :| 0 <= j <= |es| && Below(n) <= Seen(es[j..], k) && Cuts(es[..j], k, n, m - 1);
    i := j;
  }

  lemma NoCuts(es: seq<Event>, k: Key, n: nat)
    ensures Cuts(es, k, n, 0)
  {
  }

  lemma {:induction false} SeenConcat(a: seq<Event>, b: seq<Event>, k: Key)
    ensures Seen(a + b, k) == Seen(a, k) + Seen(b, k)
    decreases |b|
  {
    if b == [] {
      assert a + b == a;
    } else {
      var front := b[..|b| - 1];
      assert (a + b)[..|a + b| - 1] == a + front;
      SeenConcat(a, front, k);
    }
  }

  /** More traffic completes another set, or leaves all of it in the next one. */
  lemma {:induction false} CoverGrows(a: seq<Event>, b: seq<Event>, k: Key, n: nat)
    requires n >= 1
    ensures var (c, _) := Cover(a, k, n); var (d, seen) := Cover(a + b, k, n);
            d > c || (d == c && Seen(b, k) <= seen)
    decreases |b|
  {
    if b == [] {
      assert a + b == a;
    } else {
      assert (a + b)[..|a + b| - 1] == a + b[..|b| - 1];
      CoverGrows(a, b[..|b| - 1], k, n);
    }
  }

  lemma {:induction false} NeverFull(es: seq<Event>, k: Key, n: nat)
    requires n >= 1
    ensures !(Below(n) <= Cover(es, k, n).1)
    decreases |es|
  {
    assert 0 in Below(n);
    if es != [] {
      NeverFull(es[..|es| - 1], k, n);
    }
  }

  /** The last stretch: everything since the last full set. */
  lemma {:induction false} LastStretch(es: seq<Event>, k: Key, n: nat) returns (i: nat)
    requires n >= 1
    ensures i <= |es| && Seen(es[i..], k) == Cover(es, k, n).1 && Cuts(es[..i], k, n, Cover(es, k, n).0)
    decreases |es|
  {
    hide Cuts;
    hide Seen;
    hide Cover;
    CoverLast(es, k, n);
    if es == [] {
      i := 0;
      assert es[i..] == [] && es[..i] == [];
      NoCuts([], k, n);
    } else {
      var front, e := es[..|es| - 1], es[|es| - 1];
      i := LastStretch(front, k, n);
      var (c, seen) := Cover(front, k, n);
      assert es[i..] == front[i..] + [e] && es[..i] == front[..i];
      SeenLast(front[i..], e, k);
      if Cover(es, k, n).0 == c + 1 {
        CutsWith(es, k, n, c, i);
        i := |es|;
        assert es[..i] == es && es[i..] == [];
        CoverLast([], k, n);
      }
    }
  }

  lemma CoverLast(es: seq<Event>, k: Key, n: nat)
    ensures if es == [] then Cover(es, k, n) == (0, {}) && Seen(es, k) == {}
            else var (c, seen) := Cover(es[..|es| - 1], k, n); Cover(es, k, n) == Counted(c, seen, es[|es| - 1], k, n)
  {
  }

  lemma SeenLast(es: seq<Event>, e: Event, k: Key)
    ensures Seen(es + [e], k) == Seen(es, k) + if On(e, k) then {e.f.fragIdx} else {}
  {
    assert (es + [e])[..|es|] == es;
  }

  /** The number of full sets is the largest number of stretches. */
  lemma {:induction false} CoverIsCuts(es: seq<Event>, k: Key, n: nat, m: nat)
    requires n >= 1
    ensures Cuts(es, k, n, m) <==> m <= Cover(es, k, n).0
    decreases m
  {
    hide Cuts;
    hide Seen;
    hide Cover;
    if m == 0 {
      NoCuts(es, k, n);
    } else {
      if Cuts(es, k, n, m) {
        var i := LastCut(es, k, n, m);
        CoverIsCuts(es[..i], k, n, m - 1);
        assert es[..i] + es[i..] == es;
        CoverGrows(es[..i], es[i..], k, n);
        NeverFull(es, k, n);
      }
      if m <= Cover(es, k, n).0 {
        var i := LastStretch(es, k, n);
        FewerCuts(es[..i], k, n, Cover(es, k, n).0, m);
        CutsExtend(es, i, k, n, m);
      }
    }
  }

  lemma CutsExtend(es: seq<Event>, j: nat, k: Key, n: nat, m: nat)
    requires j <= |es| && m >= 1 && Cuts(es[..j], k, n, m)
    ensures Cuts(es, k, n, m)
  {
    hide Cuts;
    hide Seen;
    var i := LastCut(es[..j], k, n, m);
    assert es[i..] == es[..j][i..] + es[j..] && es[..j][..i] == es[..i];
    SeenConcat(es[..j][i..], es[j..], k);
    CutsWith(es, k, n, m - 1, i);
  }

  lemma {:induction false} FewerCuts(es: seq<Event>, k: Key, n: nat, m: nat, fewer: nat)
    requires Cuts(es, k, n, m) && fewer <= m
    ensures Cuts(es, k, n, fewer)
    decreases m
  {
    hide Cuts;
    hide Seen;
    if fewer == 0 {
      NoCuts(es, k, n);
    } else if fewer < m {
      var i := LastCut(es, k, n, m);
      FewerCuts(es[..i], k, n, m - 1, fewer - 1);
      CutsWith(es, k, n, fewer - 1, i);
    }
  }

  // ---------- exactly once ----------

  /**
   * As long as no pending entry of the message is taken away by a reset or by expiry, m copies of the whole
   * message or more are handed on exactly when the traffic falls into m consecutive stretches that each carry
   * every fragment.
   */
  lemma HandedOnPerStretch(s: State, es: seq<Event>, base: Frame, payload: seq<byte>, max: nat, m: nat)
    requires Splittable(base, payload, max) && KeyOf(base) !in s.items && |payload| <= s.maxPay
    requires Only(es, KeyOf(base), FragmentsOf(base, payload, max)) && Undisturbed(s, es, KeyOf(base))
    ensures var d := Delivered(s, es, KeyOf(base));
            && d == Copies(Whole(base, payload), |d|)
            && (|d| >= m <==> Cuts(es, KeyOf(base), |FragmentsOf(base, payload, max)|, m))
  {
    hide Undisturbed;
    DeliveredPerSet(s, es, base, payload, max);
    AtLeastOne(base, payload, max);
    hide Splittable;
    hide FragmentsOf;
    CoverIsCuts(es, KeyOf(base), |FragmentsOf(base, payload, max)|, m);
    hide Progress;
  }

  /** All of the fragments are pushed before point i, and all of them after it. */
  ghost predicate FullTwice(es: seq<Event>, k: Key, all: set<nat>, i: nat) {
    i <= |es| && all <= Seen(es[..i], k) && all <= Seen(es[i..], k)
  }

  /**
   * Exactly when a message of which no pending entry is taken away is handed on exactly once: every fragment
   * arrives, and at no point have all of them arrived before and all of them arrive again after.
   */
  lemma ExactlyOnceIff(s: State, es: seq<Event>, base: Frame, payload: seq<byte>, max: nat)
    requires Splittable(base, payload, max) && KeyOf(base) !in s.items && |payload| <= s.maxPay
    requires Only(es, KeyOf(base), FragmentsOf(base, payload, max)) && Undisturbed(s, es, KeyOf(base))
    ensures var all := Below(|FragmentsOf(base, payload, max)|); var k := KeyOf(base);
            Delivered(s, es, k) == [Whole(base, payload)] <==>
              all <= Seen(es, k) && !exists i :: FullTwice(es, k, all, i)
  {
    var k, n, d := KeyOf(base), |FragmentsOf(base, payload, max)|, Delivered(s, es, KeyOf(base));
    hide Undisturbed;
    HandedOnPerStretch(s, es, base, payload, max, 1);
    HandedOnPerStretch(s, es, base, payload, max, 2);
    hide FragmentsOf;
    hide Delivered;
    OneCut(es, k, n);
    TwoCuts(es, k, n);
    assert Copies(Whole(base, payload), 1) == [Whole(base, payload)];
    hide Splittable;
    hide Seen;
    hide Cuts;
    hide Whole;
  }

  lemma OneCut(es: seq<Event>, k: Key, n: nat)
    ensures Cuts(es, k, n, 1) <==> Below(n) <= Seen(es, k)
  {
    hide Cuts;
    hide Seen;
    if Cuts(es, k, n, 1) {
      var i := LastCut(es, k, n, 1);
      assert es[..i] + es[i..] == es;
      SeenConcat(es[..i], es[i..], k);
    }
    if Below(n) <= Seen(es, k) {
      assert es[0..] == es;
      NoCuts(es[..0], k, n);
      CutsWith(es, k, n, 0, 0);
    }
  }

  lemma TwoCuts(es: seq<Event>, k: Key, n: nat)
    ensures Cuts(es, k, n, 2) <==> exists i :: FullTwice(es, k, Below(n), i)
  {
    hide Cuts;
    hide Seen;
    if Cuts(es, k, n, 2) {
      var i := LastCut(es, k, n, 2);
      OneCut(es[..i], k, n);
      assert FullTwice(es, k, Below(n), i);
    }
    if i: nat :| FullTwice(es, k, Below(n), i) {
      OneCut(es[..i], k, n);
      CutsWith(es, k, n, 1, i);
    }
  }

  // ---------- more than once ----------

  /** Reassembly is not exactly-once: after a completion, a late duplicate opens a new, incomplete entry. */
  lemma LateDuplicateReopens(s: State, es: seq<Event>, base: Frame, payload: seq<byte>, max: nat, i: nat, now: int)
    requires ValidState(s) && Splittable(base, payload, max) && |payload| <= s.maxPay
    requires es != [] && On(es[|es| - 1], KeyOf(base)) && LastOutcome(s, es).Done?
    requires 1 < |FragmentsOf(base, payload, max)| && i < |FragmentsOf(base, payload, max)|
    ensures var (t, out) := Next(After(s, es), Push(FragmentsOf(base, payload, max)[i], now));
            out == Incomplete && KeyOf(base) in t.items && t.items[KeyOf(base)].parts.Keys == {i}
  {
    var front, e := es[..|es| - 1], es[|es| - 1];
    RunsKeepValid(s, front);
    PushKeepsValid(After(s, front), e.f, e.now);
    ReopensWithout(After(s, es), base, payload, max, i, now);
    hide Next;
    hide FragmentsOf;
  }

  lemma ReopensWithout(t: State, base: Frame, payload: seq<byte>, max: nat, i: nat, now: int)
    requires Splittable(base, payload, max) && |payload| <= t.maxPay && KeyOf(base) !in t.items
    requires 1 < |FragmentsOf(base, payload, max)| && i < |FragmentsOf(base, payload, max)|
    ensures var (u, out) := Next(t, Push(FragmentsOf(base, payload, max)[i], now));
            out == Incomplete && KeyOf(base) in u.items && u.items[KeyOf(base)].parts.Keys == {i}
  {
    var f := FragmentsOf(base, payload, max)[i];
    SameKey(base, payload, max, f);
    FragmentsWellFormed(base, payload, max, i);
    hide FragmentsOf;
    hide Splittable;
    var p := Extended(Expire(t, now), f, now);
    assert p.parts.Keys == {i};
    assert (if i == 0 then 1 else 0) !in p.parts;
  }

  /** All fragments, in order, at one moment. */
  function InOrder(fs: seq<Frame>, now: int): seq<Event> {
    seq(|fs|, i requires 0 <= i < |fs| => Push(fs[i], now))
  }

  /** Sent twice over, every message is handed on at least twice. */
  lemma HandedOnTwice(s: State, base: Frame, payload: seq<byte>, max: nat, now: int)
    requires ValidState(s) && Splittable(base, payload, max)
    requires KeyOf(base) !in s.items && |payload| <= s.maxPay && s.ttl >= 0
    ensures var once := InOrder(FragmentsOf(base, payload, max), now);
            |Delivered(s, once + once, KeyOf(base))| >= 2
  {
    var fs, k := FragmentsOf(base, payload, max), KeyOf(base);
    var once := InOrder(fs, now);
    hide FragmentsOf;
    hide Splittable;
    hide ValidState;
    hide InTimeEvent;
    hide On;
    forall i | 0 <= i < |fs|
      ensures On(once[i], k) && once[i].f.fragIdx == i && InTimeEvent(once[i], k, s.ttl, now) && once[i].f in fs
    {
      FragmentPush(base, payload, max, i, now, s.ttl);
    }
    TwiceOver(once, k, fs, s.ttl, now);
    hide InTime;
    hide Only;
    hide Cuts;
    hide Delivered;
    InTimeUndisturbed(s, once + once, k, now);
    hide Undisturbed;
    HandedOnPerStretch(s, once + once, base, payload, max, 2);
  }

  lemma TwiceOver(once: seq<Event>, k: Key, fs: seq<Frame>, ttl: nat, now: int)
    requires |once| == |fs|
    requires forall i :: 0 <= i < |fs| ==>
               On(once[i], k) && once[i].f.fragIdx == i && InTimeEvent(once[i], k, ttl, now) && once[i].f in fs
    ensures InTime(once + once, k, ttl, now) && Only(once + once, k, fs) && Cuts(once + once, k, |fs|, 2)
  {
    hide InTimeEvent;
    hide Seen;
    hide Cuts;
    var es := once + once;
    AllSeen(once, k, |fs|);
    assert once[..|fs|] == once && es[..|once|] == once && es[|once|..] == once;
    assert FullTwice(es, k, Below(|fs|), |once|);
    TwoCuts(es, k, |fs|);
  }

  lemma FragmentPush(base: Frame, payload: seq<byte>, max: nat, i: nat, now: int, ttl: nat)
    requires Splittable(base, payload, max) && i < |FragmentsOf(base, payload, max)|
    ensures var fs := FragmentsOf(base, payload, max); var e := Push(fs[i], now);
            On(e, KeyOf(base)) && e.f.fragIdx == i && e.f in fs && InTimeEvent(e, KeyOf(base), ttl, now)
  {
    SameKey(base, payload, max, FragmentsOf(base, payload, max)[i]);
    FragmentsWellFormed(base, payload, max, i);
    hide FragmentsOf;
  }

  lemma {:induction false} AllSeen(es: seq<Event>, k: Key, n: nat)
    requires n <= |es|
    requires forall i :: 0 <= i < |es| ==> On(es[i], k) && es[i].f.fragIdx == i
    ensures Below(n) <= Seen(es[..n], k)
  {
    hide Seen;
    hide Below;
    if n > 0 {
      AllSeen(es, k, n - 1);
      assert es[..n] == es[..n - 1] + [es[n - 1]];
      SeenLast(es[..n - 1], es[n - 1], k);
    }
  }

  // ---------- not at all ----------

  lemma Tick(es: seq<Event>, e: Event, k: Key, n: nat, ttl: int, maxPay: nat)
    ensures Timed(es + [e], k, n, ttl, maxPay) == Ticked(Timed(es, k, n, ttl, maxPay), e, k, n, ttl, maxPay)
  {
    assert (es + [e])[..|es|] == es;
  }

  /** A push of fragment i of a message of two, when nothing of it is pending any more. */
  lemma TickAfresh(c: Timer, base: Frame, payload: seq<byte>, max: nat, i: nat, now: int, ttl: int, maxPay: nat)
    requires Splittable(base, payload, max) && |FragmentsOf(base, payload, max)| == 2 && |payload| <= maxPay && i < 2
    requires c.seen == {} || (!Reliable(base.channel) && now > c.deadline)
    ensures var k := KeyOf(base); var e := Push(FragmentsOf(base, payload, max)[i], now);
            && On(e, k) && e.f.fragIdx == i
            && Ticked(c, e, k, 2, ttl, maxPay) == Timer(c.count, {i}, now + ttl)
  {
    FragmentPush(base, payload, max, i, now, 0);
    FragmentSweeps(base, payload, max, i, now, maxPay);
    hide FragmentsOf;
    hide Splittable;
    hide Sweeps;
    TwoIndices();
    hide Below;
    assert {} + {i} == {i};
  }

  lemma FragmentSweeps(base: Frame, payload: seq<byte>, max: nat, i: nat, now: int, maxPay: nat)
    requires Splittable(base, payload, max) && i < |FragmentsOf(base, payload, max)| && |payload| <= maxPay
    requires |FragmentsOf(base, payload, max)| > 1
    ensures Sweeps(Push(FragmentsOf(base, payload, max)[i], now), maxPay)
  {
    SameKey(base, payload, max, FragmentsOf(base, payload, max)[i]);
    hide FragmentsOf;
  }

  /** Fragment 0 of two, and fragment 1 more than ttl later. */
  function Apart(fs: seq<Frame>, t: int, ttl: int): (es: seq<Event>)
    requires |fs| == 2
    ensures |es| == 2 && es[0] == Push(fs[0], t) && es[1] == Push(fs[1], t + ttl + 1)
  {
    [Push(fs[0], t), Push(fs[1], t + ttl + 1)]
  }

  /** On a channel that expires, a message whose two fragments come more than ttl apart is lost, though both arrive. */
  lemma ApartIsLost(s: State, base: Frame, payload: seq<byte>, max: nat, t: int)
    requires Splittable(base, payload, max) && |FragmentsOf(base, payload, max)| == 2
    requires KeyOf(base) !in s.items && |payload| <= s.maxPay && !Reliable(base.channel)
    ensures var es := Apart(FragmentsOf(base, payload, max), t, s.ttl);
            Delivered(s, es, KeyOf(base)) == [] && Below(2) <= Seen(es, KeyOf(base))
  {
    var fs, k := FragmentsOf(base, payload, max), KeyOf(base);
    hide Splittable;
    hide FragmentsOf;
    hide Delivered;
    hide Seen;
    hide Below;
    hide Apart;
    hide Ticked;
    hide Timed;
    var es := Apart(fs, t, s.ttl);
    FragmentIs(base, payload, max, 0);
    FragmentIs(base, payload, max, 1);
    BothSeen(es, k);
    hide On;
    ApartTicks(base, payload, max, t, s.ttl, s.maxPay);
    LostPushes(s, es, base, payload, max);
  }

  lemma ApartTicks(base: Frame, payload: seq<byte>, max: nat, t: int, ttl: int, maxPay: nat)
    requires Splittable(base, payload, max) && |FragmentsOf(base, payload, max)| == 2
    requires |payload| <= maxPay && !Reliable(base.channel)
    ensures Timed(Apart(FragmentsOf(base, payload, max), t, ttl), KeyOf(base), 2, ttl, maxPay).count == 0
  {
    var fs, k := FragmentsOf(base, payload, max), KeyOf(base);
    hide Splittable;
    hide FragmentsOf;
    hide Ticked;
    hide Timed;
    hide Seen;
    hide Apart;
    var es := Apart(fs, t, ttl);
    TickAfresh(Timer(0, {}, 0), base, payload, max, 0, t, ttl, maxPay);
    TickAfresh(Timer(0, {0}, t + ttl), base, payload, max, 1, t + ttl + 1, ttl, maxPay);
    hide On;
    TwoPushes(es[0], es[1], k, 2, ttl, maxPay);
    assert [es[0], es[1]] == es;
  }

  lemma BothSeen(es: seq<Event>, k: Key)
    requires |es| == 2 && On(es[0], k) && On(es[1], k) && es[0].f.fragIdx == 0 && es[1].f.fragIdx == 1
    ensures Below(2) <= Seen(es, k)
  {
    hide On;
    hide Seen;
    SeenLast([], es[0], k);
    SeenLast([es[0]], es[1], k);
    assert [] + [es[0]] == [es[0]] && [es[0]] + [es[1]] == es;
    TwoIndices();
    hide Below;
  }

  lemma FragmentIs(base: Frame, payload: seq<byte>, max: nat, i: nat)
    requires Splittable(base, payload, max) && i < |FragmentsOf(base, payload, max)|
    ensures KeyOf(FragmentsOf(base, payload, max)[i]) == KeyOf(base) && FragmentsOf(base, payload, max)[i].fragIdx == i
  {
    SameKey(base, payload, max, FragmentsOf(base, payload, max)[i]);
    FragmentsWellFormed(base, payload, max, i);
    hide FragmentsOf;
  }

  /** Fragment 0 of two, again ttl later, and fragment 1 just after that. */
  function StaleFirst(fs: seq<Frame>, t: int, ttl: int): (es: seq<Event>)
    requires |fs| == 2
    ensures |es| == 3 && es[0] == Push(fs[0], t) && es[1] == Push(fs[0], t + ttl) && es[2] == Push(fs[1], t + ttl + 1)
  {
    [Push(fs[0], t), Push(fs[0], t + ttl), Push(fs[1], t + ttl + 1)]
  }

  /**
   * And a stale duplicate can cost a message whose fragments come together: it starts the clock for the fragment that
   * comes again within ttl, so that this one has expired when the other follows.
   */
  lemma StaleDuplicateCosts(s: State, base: Frame, payload: seq<byte>, max: nat, t: int)
    requires Splittable(base, payload, max) && |FragmentsOf(base, payload, max)| == 2 && s.ttl >= 1
    requires KeyOf(base) !in s.items && |payload| <= s.maxPay && !Reliable(base.channel)
    ensures var es := StaleFirst(FragmentsOf(base, payload, max), t, s.ttl);
            Delivered(s, es, KeyOf(base)) == [] && Below(2) <= Seen(es[1..], KeyOf(base))
  {
    var fs, k := FragmentsOf(base, payload, max), KeyOf(base);
    hide Splittable;
    hide FragmentsOf;
    hide Delivered;
    hide Seen;
    hide Below;
    hide StaleFirst;
    hide Timed;
    var es := StaleFirst(fs, t, s.ttl);
    FragmentIs(base, payload, max, 0);
    FragmentIs(base, payload, max, 1);
    BothSeen(es[1..], k);
    hide On;
    StaleTicks(base, payload, max, t, s.ttl, s.maxPay);
    LostPushes(s, es, base, payload, max);
  }

  lemma StaleTicks(base: Frame, payload: seq<byte>, max: nat, t: int, ttl: nat, maxPay: nat)
    requires Splittable(base, payload, max) && |FragmentsOf(base, payload, max)| == 2 && ttl >= 1
    requires |payload| <= maxPay && !Reliable(base.channel)
    ensures Timed(StaleFirst(FragmentsOf(base, payload, max), t, ttl), KeyOf(base), 2, ttl, maxPay).count == 0
  {
    var fs, k := FragmentsOf(base, payload, max), KeyOf(base);
    hide Splittable;
    hide FragmentsOf;
    hide Ticked;
    hide Timed;
    hide Seen;
    hide StaleFirst;
    var es := StaleFirst(fs, t, ttl);
    TickAfresh(Timer(0, {}, 0), base, payload, max, 0, t, ttl, maxPay);
    TickRepeated(Timer(0, {0}, t + ttl), base, payload, max, 0, t + ttl, ttl, maxPay);
    TickAfresh(Timer(0, {0}, t + ttl), base, payload, max, 1, t + ttl + 1, ttl, maxPay);
    hide On;
    TwoPushes(es[0], es[1], k, 2, ttl, maxPay);
    assert [es[0], es[1]] + [es[2]] == es;
    Tick([es[0], es[1]], es[2], k, 2, ttl, maxPay);
  }

  /** A repeated fragment changes nothing as long as the entry lives: its deadline stays. */
  lemma TickRepeated(c: Timer, base: Frame, payload: seq<byte>, max: nat, i: nat, now: int, ttl: int, maxPay: nat)
    requires Splittable(base, payload, max) && |FragmentsOf(base, payload, max)| == 2 && |payload| <= maxPay && i < 2
    requires c.seen == {i} && now <= c.deadline
    ensures var k := KeyOf(base); var e := Push(FragmentsOf(base, payload, max)[i], now);
            On(e, k) && e.f.fragIdx == i && Ticked(c, e, k, 2, ttl, maxPay) == c
  {
    FragmentPush(base, payload, max, i, now, 0);
    hide FragmentsOf;
    hide Splittable;
    hide Sweeps;
    TwoIndices();
    hide Below;
    assert {i} + {i} == {i};
  }

  /** Pushes of fragments of a message of two, for which the timer counts nothing. */
  lemma LostPushes(s: State, es: seq<Event>, base: Frame, payload: seq<byte>, max: nat)
    requires Splittable(base, payload, max) && KeyOf(base) !in s.items && |payload| <= s.maxPay
    requires var fs := FragmentsOf(base, payload, max);
             |fs| == 2 && forall i :: 0 <= i < |es| ==> es[i].Push? && (es[i].f == fs[0] || es[i].f == fs[1])
    requires Timed(es, KeyOf(base), 2, s.ttl, s.maxPay).count == 0
    ensures Delivered(s, es, KeyOf(base)) == []
  {
    hide Splittable;
    hide FragmentsOf;
    hide Timed;
    hide Shows;
    DeliveredByTimer(s, es, base, payload, max);
  }

  lemma TwoPushes(e1: Event, e2: Event, k: Key, n: nat, ttl: int, maxPay: nat)
    requires On(e1, k) && On(e2, k)
    ensures Seen([e1, e2], k) == {e1.f.fragIdx, e2.f.fragIdx}
    ensures Timed([e1, e2], k, n, ttl, maxPay)
            == Ticked(Ticked(Timer(0, {}, 0), e1, k, n, ttl, maxPay), e2, k, n, ttl, maxPay)
  {
    hide Ticked;
    assert [] + [e1] == [e1] && [e1] + [e2] == [e1, e2];
    Tick([], e1, k, n, ttl, maxPay);
    Tick([e1], e2, k, n, ttl, maxPay);
    SeenLast([], e1, k);
    SeenLast([e1], e2, k);
  }

  lemma TwoIndices()
    ensures Below(2) == {0, 1} && !({0, 1} <= {0}) && !({0, 1} <= {1})
  {
    assert 0 !in {1} && 1 !in {0};
  }
}
