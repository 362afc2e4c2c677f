/** Bookkeeping over whole runs of the reassembler: where every entry went, and which pushes made each message. */
module ReassemblyLedger {
  import opened Bytes
  import opened Frames
  import opened Reassembly
  import opened ReassemblyRuns

  /** When an entry was created, and which event supplied each of its fragments. Events are numbered from 0. */
  datatype Origin = Origin(born: nat, feeds: map<nat, nat>)

  datatype Ledger = Ledger(
    origins: map<Key, Origin>, used: set<nat>,
    created: nat, completed: nat, expired: nat, mismatched: nat, oversize: nat, superseded: nat, reset: nat)

  const EMPTY: Ledger := Ledger(map[], {}, 0, 0, 0, 0, 0, 0, 0)

  /** The entry that fragment f extends, created now if there is none. */
  function Fed(l: Ledger, f: Frame, t: nat): Origin {
    var o := if KeyOf(f) in l.origins then l.origins[KeyOf(f)] else Origin(t, map[]);
    if f.fragIdx in o.feeds then o else o.(feeds := o.feeds[f.fragIdx := t])
  }

  function Strike(l: Ledger, gone: set<Key>): Ledger {
    l.(origins := l.origins - gone, expired := l.expired + |gone|)
  }

  /** Event number t, e, meets state s with ledger l. */
  function Entered(s: State, l: Ledger, e: Event, t: nat): Ledger {
    match e
    case Reset => l.(origins := map[], reset := l.reset + |s.items|)
    case Sweep(now) => Strike(l, ExpiredKeys(s.items, now))
    case Push(f, now) =>
      if !Acceptable(s, f) then l
      else if f.fragTotal == 1 then
        if KeyOf(f) in s.items then l.(origins := l.origins - {KeyOf(f)}, superseded := l.superseded + 1) else l
      else EnteredFragment(Expire(s, now), Strike(l, ExpiredKeys(s.items, now)), f, now, t)
  }

  function EnteredFragment(live: State, l: Ledger, f: Frame, now: int, t: nat): Ledger {
    var k := KeyOf(f);
    if k in live.items && live.items[k].total != f.fragTotal then
      l.(origins := l.origins - {k}, mismatched := l.mismatched + 1)
    else
      var m := l.(created := l.created + (if k in live.items then 0 else 1));
      var o := Fed(l, f, t);
      var p := Extended(live, f, now);
      if !p.HasAll() then m.(origins := l.origins[k := o])
      else if |Concat(p.parts, p.total)| > live.maxPay then
        m.(origins := l.origins - {k}, oversize := l.oversize + 1)
      else m.(origins := l.origins - {k}, completed := l.completed + 1, used := l.used + o.feeds.Values)
  }

  /** The books after a run from s. */
  function Books(s: State, es: seq<Event>): Ledger
    decreases |es|
  {
    if es == [] then EMPTY
    else
      var front := es[..|es| - 1];
      Entered(After(s, front), Books(s, front), es[|es| - 1], |front|)
  }

  // ---------- every entry is accounted for ----------

  ghost predicate Balanced(s: State, l: Ledger) {
    && l.origins.Keys == s.items.Keys
    && l.created == l.completed + l.expired + l.mismatched + l.oversize + l.superseded + l.reset + |s.items|
  }

  /** Taking the same keys out of two maps with the same keys. */
  lemma DropKeys<K, V, W>(a: map<K, V>, b: map<K, W>, gone: set<K>)
    requires a.Keys == b.Keys && gone <= a.Keys
    ensures (a - gone).Keys == (b - gone).Keys && |a - gone| == |a| - |gone|
  {
    assert (a - gone).Keys == a.Keys - gone;
    assert |a.Keys| == |a.Keys - gone| + |gone| by {
      assert a.Keys == (a.Keys - gone) + gone;
    }
  }

  lemma DropKey<K, V, W>(a: map<K, V>, b: map<K, W>, k: K)
    requires a.Keys == b.Keys
    ensures (a - {k}).Keys == (b - {k}).Keys && |a - {k}| == |a| - if k in a then 1 else 0
  {
    if k in a {
      DropKeys(a, b, {k});
    } else {
      assert a - {k} == a && b - {k} == b;
    }
  }

  lemma PutKey<K, V, W>(a: map<K, V>, b: map<K, W>, k: K, v: V, w: W)
    requires a.Keys == b.Keys
    ensures a[k := v].Keys == b[k := w].Keys && |a[k := v]| == |a| + if k in a then 0 else 1
  {
    assert a[k := v].Keys == a.Keys + {k};
  }

  lemma StrikeBalanced(s: State, l: Ledger, now: int)
    requires Balanced(s, l)
    ensures Balanced(Expire(s, now), Strike(l, ExpiredKeys(s.items, now)))
    ensures Expire(s, now).dropped - s.dropped == Strike(l, ExpiredKeys(s.items, now)).expired - l.expired
  {
    DropKeys(s.items, l.origins, ExpiredKeys(s.items, now));
  }

  lemma FragmentBalanced(live: State, l: Ledger, f: Frame, now: int, t: nat)
    requires Balanced(live, l)
    ensures var u := Stored(live, f, now).0; var m := EnteredFragment(live, l, f, now, t);
            && Balanced(u, m) && m.expired == l.expired
            && u.dropped - live.dropped == m.mismatched - l.mismatched
  {
    hide Stored;
    hide EnteredFragment;
    hide Balanced;
    if KeyOf(f) in live.items && live.items[KeyOf(f)].total != f.fragTotal {
      MismatchBalanced(live, l, f, now, t);
    } else if !Extended(live, f, now).HasAll() {
      OpenBalanced(live, l, f, now, t);
    } else {
      FullBalanced(live, l, f, now, t);
    }
  }

  lemma MismatchBalanced(live: State, l: Ledger, f: Frame, now: int, t: nat)
    requires Balanced(live, l) && KeyOf(f) in live.items && live.items[KeyOf(f)].total != f.fragTotal
    ensures var u := Stored(live, f, now).0; var m := EnteredFragment(live, l, f, now, t);
            && Balanced(u, m) && m.expired == l.expired
            && u.dropped - live.dropped == m.mismatched - l.mismatched
  {
    hide KeyOf;
    EntryGoes(live, l, KeyOf(f), live.(items := live.items - {KeyOf(f)}, dropped := live.dropped + 1),
              l.(origins := l.origins - {KeyOf(f)}, mismatched := l.mismatched + 1));
    hide Balanced;
  }

  lemma OpenBalanced(live: State, l: Ledger, f: Frame, now: int, t: nat)
    requires Balanced(live, l) && !(KeyOf(f) in live.items && live.items[KeyOf(f)].total != f.fragTotal)
    requires !Extended(live, f, now).HasAll()
    ensures var u := Stored(live, f, now).0; var m := EnteredFragment(live, l, f, now, t);
            && Balanced(u, m) && m.expired == l.expired
            && u.dropped - live.dropped == m.mismatched - l.mismatched
  {
    hide KeyOf;
    hide Fed;
    hide Extended;
    EntryStays(live, l, KeyOf(f), Extended(live, f, now), Fed(l, f, t), EnteredFragment(live, l, f, now, t));
    hide Balanced;
  }

  lemma FullBalanced(live: State, l: Ledger, f: Frame, now: int, t: nat)
    requires Balanced(live, l) && !(KeyOf(f) in live.items && live.items[KeyOf(f)].total != f.fragTotal)
    requires Extended(live, f, now).HasAll()
    ensures var u := Stored(live, f, now).0; var m := EnteredFragment(live, l, f, now, t);
            && Balanced(u, m) && m.expired == l.expired
            && u.dropped - live.dropped == m.mismatched - l.mismatched
  {
    hide KeyOf;
    hide Fed;
    hide Extended;
    hide Concat;
    EntryGoes(live, l, KeyOf(f), Stored(live, f, now).0, EnteredFragment(live, l, f, now, t));
    hide Balanced;
  }

  /** The entry of k leaves the books, under exactly one heading; it may have been opened by the same event. */
  lemma EntryGoes(s: State, l: Ledger, k: Key, t: State, m: Ledger)
    requires Balanced(s, l) && t.items == s.items - {k} && m.origins == l.origins - {k}
    requires m.created == l.created + if k in s.items then 0 else 1
    requires m.completed + m.expired + m.mismatched + m.oversize + m.superseded + m.reset
             == l.completed + l.expired + l.mismatched + l.oversize + l.superseded + l.reset + 1
    ensures Balanced(t, m)
  {
    DropKey(s.items, l.origins, k);
  }

  lemma EntryStays(s: State, l: Ledger, k: Key, p: Pending, o: Origin, m: Ledger)
    requires Balanced(s, l)
    requires m == l.(created := l.created + (if k in s.items then 0 else 1), origins := l.origins[k := o])
    ensures Balanced(s.(items := s.items[k := p]), m)
  {
    PutKey(s.items, l.origins, k, p, o);
  }

  /**
   * Entries created = completed + expired + mismatched + oversize + replaced by a single-fragment frame
   * + reset + still in flight; and the drop counter counts exactly the expired and the mismatched.
   */
  lemma {:induction false} EntriesAccountedFor(s: State, es: seq<Event>)
    requires ValidState(s) && s.items == map[]
    ensures Balanced(After(s, es), Books(s, es))
    ensures After(s, es).dropped == s.dropped + Books(s, es).expired + Books(s, es).mismatched
    decreases |es|
  {
    if es != [] {
      var front, e := es[..|es| - 1], es[|es| - 1];
      EntriesAccountedFor(s, front);
      EventBalanced(After(s, front), Books(s, front), e, |front|);
      hide Next;
      hide Entered;
      hide Balanced;
    }
  }

  lemma EventBalanced(b: State, l: Ledger, e: Event, t: nat)
    requires Balanced(b, l)
    ensures var c := Next(b, e).0; var m := Entered(b, l, e, t);
            && Balanced(c, m) && c.dropped - b.dropped == m.expired - l.expired + m.mismatched - l.mismatched
  {
    hide EnteredFragment;
    hide Stored;
    hide HeaderError;
    match e {
      case Reset =>
        assert |b.(items := map[]).items| == 0;
      case Sweep(now) =>
        StrikeBalanced(b, l, now);
        hide Balanced;
        hide Expire;
        hide Strike;
      case Push(f, now) =>
        if Acceptable(b, f) && f.fragTotal == 1 {
          SingleBalanced(b, l, f);
        } else if Acceptable(b, f) {
          StrikeBalanced(b, l, now);
          FragmentBalanced(Expire(b, now), Strike(l, ExpiredKeys(b.items, now)), f, now, t);
          hide Strike;
          hide Expire;
        }
        hide Balanced;
    }
  }

  lemma SingleBalanced(b: State, l: Ledger, f: Frame)
    requires Balanced(b, l)
    ensures Balanced(b.(items := b.items - {KeyOf(f)}),
                     if KeyOf(f) in b.items then l.(origins := l.origins - {KeyOf(f)}, superseded := l.superseded + 1)
                     else l)
  {
    DropKey(b.items, l.origins, KeyOf(f));
    assert KeyOf(f) !in b.items ==> b.items - {KeyOf(f)} == b.items;
  }

  // ---------- what each message is made of ----------

  /** Event number j of es is an acceptable fragment of message k. */
  ghost predicate Supplies(s: State, es: seq<Event>, j: nat, k: Key) {
    j < |es| && On(es[j], k) && Acceptable(s, es[j].f) && es[j].f.fragTotal > 1
  }

  /** Feed i of the entry is the first acceptable push of index i since the entry was created. */
  ghost predicate FirstSince(s: State, es: seq<Event>, k: Key, o: Origin) {
    && Supplies(s, es, o.born, k)
    && (forall i :: i in o.feeds ==>
          o.born <= o.feeds[i] && Supplies(s, es, o.feeds[i], k) && es[o.feeds[i]].f.fragIdx == i)
    && (forall j :: o.born <= j && Supplies(s, es, j, k) ==>
          es[j].f.fragIdx in o.feeds && o.feeds[es[j].f.fragIdx] <= j)
  }

  ghost predicate Stores(es: seq<Event>, o: Origin, p: Pending) {
    && o.feeds.Keys == p.parts.Keys
    && forall i :: i in o.feeds ==> o.feeds[i] < |es| && es[o.feeds[i]].Push? && p.parts[i] == es[o.feeds[i]].f.payload
  }

  /** Entry p of message k, with its origin o, after run es. */
  ghost predicate Known(s: State, es: seq<Event>, k: Key, o: Origin, p: Pending) {
    FirstSince(s, es, k, o) && Stores(es, o, p)
  }

  ghost predicate Unused(o: Origin, used: set<nat>) {
    o.feeds.Values !! used
  }

  ghost predicate Traced(s: State, es: seq<Event>, items: map<Key, Pending>, l: Ledger) {
    && l.origins.Keys == items.Keys
    && (forall k :: k in items ==> Known(s, es, k, l.origins[k], items[k]) && Unused(l.origins[k], l.used))
    && (forall j :: j in l.used ==> j < |es|)
  }

  /** One more event that is no fragment of k changes nothing for an entry of k. */
  lemma EntryUntouched(s: State, es: seq<Event>, e: Event, k: Key, o: Origin, p: Pending)
    requires Known(s, es, k, o, p) && !Supplies(s, es + [e], |es|, k)
    ensures Known(s, es + [e], k, o, p)
  {
    var fs := es + [e];
    SameEarlier(s, es, e, k);
    forall j | o.born <= j && Supplies(s, fs, j, k)
      ensures fs[j].f.fragIdx in o.feeds && o.feeds[fs[j].f.fragIdx] <= j
    {
      assert Supplies(s, es, j, k);
    }
  }

  lemma SameEarlier(s: State, es: seq<Event>, e: Event, k: Key)
    ensures forall j: nat :: j < |es| ==> (es + [e])[j] == es[j]
    ensures forall j: nat :: j < |es| ==> (Supplies(s, es + [e], j, k) <==> Supplies(s, es, j, k))
  {
  }

  /** A repeated fragment: what was stored first stays. */
  lemma EntryRepeats(s: State, es: seq<Event>, e: Event, k: Key, o: Origin, p: Pending)
    requires Known(s, es, k, o, p)
    requires Supplies(s, es + [e], |es|, k) && e.f.fragIdx in o.feeds
    ensures Known(s, es + [e], k, o, p)
  {
    var fs := es + [e];
    SameEarlier(s, es, e, k);
    forall j | o.born <= j && Supplies(s, fs, j, k)
      ensures fs[j].f.fragIdx in o.feeds && o.feeds[fs[j].f.fragIdx] <= j
    {
      if j < |es| {
        assert Supplies(s, es, j, k);
      }
    }
  }

  lemma EntryGrows(s: State, es: seq<Event>, e: Event, k: Key, o: Origin, p: Pending)
    requires Known(s, es, k, o, p)
    requires Supplies(s, es + [e], |es|, k) && e.f.fragIdx !in o.feeds
    ensures Known(s, es + [e], k, o.(feeds := o.feeds[e.f.fragIdx := |es|]),
                  p.(parts := p.parts[e.f.fragIdx := e.f.payload]))
  {
    var fs, o' := es + [e], o.(feeds := o.feeds[e.f.fragIdx := |es|]);
    SameEarlier(s, es, e, k);
    forall j | o.born <= j && Supplies(s, fs, j, k)
      ensures fs[j].f.fragIdx in o'.feeds && o'.feeds[fs[j].f.fragIdx] <= j
    {
      if j < |es| {
        assert Supplies(s, es, j, k);
      }
    }
  }

  lemma EntryBegins(s: State, es: seq<Event>, e: Event, k: Key, deadline: int)
    requires Supplies(s, es + [e], |es|, k)
    ensures Known(s, es + [e], k, Origin(|es|, map[e.f.fragIdx := |es|]),
                  NewPending(e.f, deadline).(parts := map[e.f.fragIdx := e.f.payload]))
  {
    assert (es + [e])[|es|] == e;
  }

  /** What is known of the entry that f joined, as event number |es|. */
  ghost predicate Joined(s: State, es: seq<Event>, f: Frame, now: int, o: Origin, p: Pending, used: set<nat>) {
    && Known(s, es + [Push(f, now)], KeyOf(f), o, p)
    && Unused(o, used) && (forall j :: j in o.feeds.Values ==> j < |es| + 1)
  }

  lemma OldEntryFed(s: State, es: seq<Event>, f: Frame, now: int, o: Origin, p: Pending, used: set<nat>)
    requires Acceptable(s, f) && f.fragTotal > 1
    requires Known(s, es, KeyOf(f), o, p) && Unused(o, used) && forall j :: j in used ==> j < |es|
    ensures Joined(s, es, f, now, if f.fragIdx in o.feeds then o else o.(feeds := o.feeds[f.fragIdx := |es|]),
                   p.Add(f.fragIdx, f.payload), used)
  {
    var e, k := Push(f, now), KeyOf(f);
    assert (es + [e])[|es|] == e;
    FeedsEarlier(s, es, k, o, p);
    if f.fragIdx in o.feeds {
      EntryRepeats(s, es, e, k, o, p);
    } else {
      EntryGrows(s, es, e, k, o, p);
      assert o.feeds[f.fragIdx := |es|].Values <= o.feeds.Values + {|es|};
    }
    hide Known;
  }

  lemma FeedsEarlier(s: State, es: seq<Event>, k: Key, o: Origin, p: Pending)
    requires Known(s, es, k, o, p)
    ensures o.feeds.Keys == p.parts.Keys && forall j :: j in o.feeds.Values ==> j < |es|
  {
  }

  lemma NewEntryFed(s: State, es: seq<Event>, f: Frame, now: int, used: set<nat>, deadline: int)
    requires Acceptable(s, f) && f.fragTotal > 1
    requires forall j :: j in used ==> j < |es|
    ensures Joined(s, es, f, now, Origin(|es|, map[]).(feeds := map[][f.fragIdx := |es|]),
                   NewPending(f, deadline).Add(f.fragIdx, f.payload), used)
  {
    assert (es + [Push(f, now)])[|es|] == Push(f, now);
    EntryBegins(s, es, Push(f, now), KeyOf(f), deadline);
    assert map[f.fragIdx := |es|].Values == {|es|};
    assert map[][f.fragIdx := |es|] == map[f.fragIdx := |es|];
    assert NewPending(f, deadline).parts[f.fragIdx := f.payload] == map[f.fragIdx := f.payload];
    hide Known;
  }

  /** A fragment joins the entry of its message: the new event is a feed only if the index was missing. */
  lemma EntryFed(s: State, es: seq<Event>, f: Frame, now: int, live: State, l: Ledger)
    requires Acceptable(s, f) && f.fragTotal > 1
    requires Traced(s, es, live.items, l)
    ensures Joined(s, es, f, now, Fed(l, f, |es|), Extended(live, f, now), l.used)
  {
    var k := KeyOf(f);
    if k in live.items {
      OldEntryFed(s, es, f, now, l.origins[k], live.items[k], l.used);
    } else {
      NewEntryFed(s, es, f, now, l.used, now + live.ttl);
    }
    hide Known;
    hide Joined;
  }

  /** Two messages never share a push. */
  lemma FeedsApart(s: State, es: seq<Event>, k: Key, o: Origin, k': Key, o': Origin)
    requires k != k' && FirstSince(s, es, k, o) && FirstSince(s, es, k', o')
    ensures o.feeds.Values !! o'.feeds.Values
  {
    forall i, i' | i in o.feeds && i' in o'.feeds ensures o.feeds[i] != o'.feeds[i'] {
      assert Supplies(s, es, o.feeds[i], k) && Supplies(s, es, o'.feeds[i'], k');
    }
  }

  lemma TracedWithout(s: State, es: seq<Event>, items: map<Key, Pending>, l: Ledger, gone: set<Key>, m: Ledger)
    requires Traced(s, es, items, l)
    requires m.origins == l.origins - gone && m.used == l.used
    ensures Traced(s, es, items - gone, m)
  {
    hide Known;
  }

  /** The ledger of the other entries survives an event that is a fragment of none of them. */
  lemma TracedStep(s: State, es: seq<Event>, e: Event, items: map<Key, Pending>, l: Ledger)
    requires Traced(s, es, items, l)
    requires forall k :: k in items ==> !Supplies(s, es + [e], |es|, k)
    ensures Traced(s, es + [e], items, l)
  {
    forall k | k in items ensures Known(s, es + [e], k, l.origins[k], items[k]) {
      EntryUntouched(s, es, e, k, l.origins[k], items[k]);
    }
    hide Known;
  }

  /** Putting the entry of k back. */
  lemma TracedWith(
    s: State, fs: seq<Event>, rest: map<Key, Pending>, l: Ledger, k: Key, o: Origin, p: Pending, m: Ledger)
    requires k !in rest && Traced(s, fs, rest, l)
    requires Known(s, fs, k, o, p) && Unused(o, l.used)
    requires m.origins == l.origins[k := o] && m.used == l.used
    ensures Traced(s, fs, rest[k := p], m)
  {
    hide Known;
  }

  /** Or handing it on, with everything it was made of. */
  lemma TracedUse(
    s: State, fs: seq<Event>, rest: map<Key, Pending>, l: Ledger, k: Key, o: Origin, p: Pending, m: Ledger)
    requires k !in rest && Traced(s, fs, rest, l)
    requires Known(s, fs, k, o, p) && forall j :: j in o.feeds.Values ==> j < |fs|
    requires m.origins == l.origins && m.used == l.used + o.feeds.Values
    ensures Traced(s, fs, rest, m)
  {
    forall k' | k' in rest ensures Unused(l.origins[k'], m.used) {
      FeedsApart(s, fs, k, o, k', l.origins[k']);
    }
    hide Known;
  }

  lemma TracedFragment(s: State, es: seq<Event>, f: Frame, now: int, live: State, l: Ledger)
    requires Traced(s, es, live.items, l) && Acceptable(s, f) && f.fragTotal > 1
    ensures Traced(s, es + [Push(f, now)], Stored(live, f, now).0.items, EnteredFragment(live, l, f, now, |es|))
  {
    hide Known;
    var k, fs, o, p := KeyOf(f), es + [Push(f, now)], Fed(l, f, |es|), Extended(live, f, now);
    var rest := live.items - {k};
    var lr := l.(origins := l.origins - {k});
    var m := EnteredFragment(live, l, f, now, |es|);
    EntryFed(s, es, f, now, live, l);
    OtherEntries(s, es, f, now, live, l);
    hide Fed;
    hide Extended;
    hide Traced;
    if k in live.items && live.items[k].total != f.fragTotal {
      TracedWithout(s, fs, rest, lr, {}, m);
      assert rest - {} == rest && lr.origins - {} == lr.origins;
    } else if !p.HasAll() {
      assert rest[k := p] == live.items[k := p] && lr.origins[k := o] == l.origins[k := o];
      TracedWith(s, fs, rest, lr, k, o, p, m);
    } else if |Concat(p.parts, p.total)| > live.maxPay {
      TracedWithout(s, fs, rest, lr, {}, m);
      assert rest - {} == rest && lr.origins - {} == lr.origins;
    } else {
      TracedUse(s, fs, rest, lr, k, o, p, m);
    }
  }

  lemma OtherEntries(s: State, es: seq<Event>, f: Frame, now: int, live: State, l: Ledger)
    requires Traced(s, es, live.items, l)
    ensures Traced(s, es + [Push(f, now)], live.items - {KeyOf(f)}, l.(origins := l.origins - {KeyOf(f)}))
  {
    var rest := live.items - {KeyOf(f)};
    var lr := l.(origins := l.origins - {KeyOf(f)});
    TracedWithout(s, es, live.items, l, {KeyOf(f)}, lr);
    assert (es + [Push(f, now)])[|es|] == Push(f, now);
    TracedStep(s, es, Push(f, now), rest, lr);
  }

  lemma {:induction false} BooksTraced(s: State, es: seq<Event>)
    requires ValidState(s) && s.items == map[]
    ensures Traced(s, es, After(s, es).items, Books(s, es))
    decreases |es|
  {
    if es != [] {
      var front, e := es[..|es| - 1], es[|es| - 1];
      assert es == front + [e];
      BooksTraced(s, front);
      RunsKeepValid(s, front);
      BooksTracedStep(s, front, e, After(s, front), Books(s, front));
      hide Traced;
      hide Entered;
      hide Next;
    }
  }

  lemma BooksTracedStep(s: State, es: seq<Event>, e: Event, b: State, l: Ledger)
    requires Traced(s, es, b.items, l) && b.maxPay == s.maxPay
    ensures Traced(s, es + [e], Next(b, e).0.items, Entered(b, l, e, |es|))
  {
    assert (es + [e])[|es|] == e;
    if e.Push? && Acceptable(b, e.f) && e.f.fragTotal > 1 {
      var gone := ExpiredKeys(b.items, e.now);
      TracedWithout(s, es, b.items, l, gone, Strike(l, gone));
      TracedFragment(s, es, e.f, e.now, Expire(b, e.now), Strike(l, gone));
      hide Traced;
      hide EnteredFragment;
      hide Stored;
    } else {
      BooksTracedOther(s, es, e, b, l);
    }
  }

  lemma BooksTracedOther(s: State, es: seq<Event>, e: Event, b: State, l: Ledger)
    requires Traced(s, es, b.items, l) && b.maxPay == s.maxPay
    requires !(e.Push? && Acceptable(b, e.f) && e.f.fragTotal > 1)
    ensures Traced(s, es + [e], Next(b, e).0.items, Entered(b, l, e, |es|))
  {
    hide Traced;
    hide EnteredFragment;
    hide Stored;
    assert (es + [e])[|es|] == e;
    assert forall k :: !Supplies(s, es + [e], |es|, k);
    hide Supplies;
    TracedStep(s, es, e, b.items, l);
    match e {
      case Reset => TracedNone(s, es + [e], b.items, l, Entered(b, l, e, |es|));
      case Sweep(now) =>
        TracedWithout(s, es + [e], b.items, l, ExpiredKeys(b.items, now), Strike(l, ExpiredKeys(b.items, now)));
      case Push(f, now) =>
        if Acceptable(b, f) {
          SingleTraced(s, es + [e], f, b, l, Entered(b, l, e, |es|));
        }
    }
  }

  lemma SingleTraced(s: State, es: seq<Event>, f: Frame, b: State, l: Ledger, m: Ledger)
    requires Traced(s, es, b.items, l)
    requires m.used == l.used && m.origins == if KeyOf(f) in b.items then l.origins - {KeyOf(f)} else l.origins
    ensures Traced(s, es, b.items - {KeyOf(f)}, m)
  {
    hide Known;
    hide Unused;
    assert l.origins.Keys == b.items.Keys;
    hide Traced;
    var k := KeyOf(f);
    hide KeyOf;
    TracedWithout(s, es, b.items, l, {k}, m.(origins := l.origins - {k}));
    if k !in b.items {
      assert l.origins - {k} == l.origins;
    }
  }

  lemma TracedNone(s: State, es: seq<Event>, items: map<Key, Pending>, l: Ledger, m: Ledger)
    requires Traced(s, es, items, l)
    requires m.origins == map[] && m.used == l.used
    ensures Traced(s, es, map[], m)
  {
  }

  /** The payloads of the events numbered feeds[0], feeds[1], ..., joined. */
  function Supplied(es: seq<Event>, feeds: seq<nat>): seq<byte>
    requires forall i :: 0 <= i < |feeds| ==> feeds[i] < |es| && es[feeds[i]].Push?
  {
    if feeds == [] then []
    else Supplied(es, feeds[..|feeds| - 1]) + es[feeds[|feeds| - 1]].f.payload
  }

  lemma {:induction false} ConcatIsSupplied(es: seq<Event>, o: Origin, p: Pending, n: nat)
    requires p.HasAll() && Stores(es, o, p) && n <= p.total
    ensures Concat(p.parts, n) == Supplied(es, FeedList(o, p)[..n])
  {
    if n > 0 {
      ConcatIsSupplied(es, o, p, n - 1);
      assert FeedList(o, p)[..n][..n - 1] == FeedList(o, p)[..n - 1];
    }
  }

  /**
   * For each index, feeds names the first acceptable push of that index of message k since event born,
   * which itself is one of them.
   */
  ghost predicate FirstOfEach(s: State, es: seq<Event>, k: Key, born: nat, feeds: seq<nat>) {
    && Supplies(s, es, born, k)
    && (forall i :: 0 <= i < |feeds| ==>
          born <= feeds[i] && Supplies(s, es, feeds[i], k) && es[feeds[i]].f.fragIdx == i)
    && (forall j :: born <= j && Supplies(s, es, j, k) ==>
          es[j].f.fragIdx < |feeds| && feeds[es[j].f.fragIdx] <= j)
  }

  lemma KnownFirst(s: State, es: seq<Event>, k: Key, o: Origin, p: Pending)
    requires Known(s, es, k, o, p) && p.HasAll()
    requires forall i :: i in p.parts ==> i < p.total
    ensures FirstOfEach(s, es, k, o.born, FeedList(o, p))
  {
  }

  /** Event number n, a push, meets an entry of k that has not expired. */
  ghost predicate Meets(s: State, es: seq<Event>, n: nat, k: Key)
    requires n < |es| && es[n].Push?
  {
    k in Expire(After(s, es[..n]), es[n].now).items
  }

  /**
   * Event number born created the entry of k that is there after es: it met no entry, there has been one ever since,
   * and every later fragment of k met it, so that it was never replaced by another.
   */
  ghost predicate CreatedAt(s: State, es: seq<Event>, k: Key, born: nat) {
    && Supplies(s, es, born, k) && !Meets(s, es, born, k)
    && (forall n :: born < n <= |es| ==> k in After(s, es[..n]).items)
    && (forall n :: born < n && Supplies(s, es, n, k) ==> Meets(s, es, n, k))
  }

  /** The event is an acceptable fragment of message k. */
  predicate Joins(b: State, e: Event, k: Key) {
    On(e, k) && Acceptable(b, e.f) && e.f.fragTotal > 1
  }

  /** Where the entry of k comes from after one more event: it was there before, or the event created it. */
  lemma OriginStep(b: State, l: Ledger, e: Event, t: nat, k: Key)
    requires Balanced(b, l) && k in Next(b, e).0.items
    ensures k in Entered(b, l, e, t).origins
    ensures var born := Entered(b, l, e, t).origins[k].born;
            || (k in b.items && born == l.origins[k].born && (Joins(b, e, k) ==> k in Expire(b, e.now).items))
            || (born == t && Joins(b, e, k) && k !in Expire(b, e.now).items)
  {
    assert e.Push? && ValidFrame(e.f) ==> e.f.fragTotal >= 1;
    hide IsExpired;
    hide EnteredFragment;
    hide Stored;
    hide HeaderError;
    if e.Push? && Acceptable(b, e.f) && e.f.fragTotal > 1 {
      var gone := ExpiredKeys(b.items, e.now);
      DropKeys(b.items, l.origins, gone);
      OriginOfFragment(Expire(b, e.now), Strike(l, gone), e.f, e.now, t, k);
    }
  }

  lemma OriginOfFragment(live: State, l: Ledger, f: Frame, now: int, t: nat, k: Key)
    requires live.items.Keys == l.origins.Keys && k in Stored(live, f, now).0.items
    ensures var m := EnteredFragment(live, l, f, now, t);
            && k in m.origins
            && if k in live.items then m.origins[k].born == l.origins[k].born
               else m.origins[k].born == t && k == KeyOf(f)
  {
    hide Extended;
    hide Concat;
    hide KeyOf;
  }

  /** The ledger's birth dates are right. */
  lemma {:induction false} BirthsRecorded(s: State, es: seq<Event>, k: Key)
    requires ValidState(s) && s.items == map[] && k in After(s, es).items
    ensures k in Books(s, es).origins && CreatedAt(s, es, k, Books(s, es).origins[k].born)
    decreases |es|
  {
    var front, e := es[..|es| - 1], es[|es| - 1];
    var b, l := After(s, front), Books(s, front);
    assert es == front + [e];
    EntriesAccountedFor(s, front);
    RunsKeepValid(s, front);
    OriginStep(b, l, e, |front|, k);
    hide Next;
    hide Entered;
    hide Expire;
    hide Balanced;
    var born := Books(s, es).origins[k].born;
    assert es[..|front|] == front;
    if k in b.items && born == l.origins[k].born && (Joins(b, e, k) ==> k in Expire(b, e.now).items) {
      BirthsRecorded(s, front, k);
      StillThere(s, front, e, k, born);
    } else {
      JustCreated(s, front, e, k);
    }
    hide CreatedAt;
    hide Books;
    hide Acceptable;
  }

  lemma JustCreated(s: State, es: seq<Event>, e: Event, k: Key)
    requires Supplies(s, es + [e], |es|, k) && !Meets(s, es + [e], |es|, k) && k in After(s, es + [e]).items
    ensures CreatedAt(s, es + [e], k, |es|)
  {
    hide Meets;
    hide After;
    hide Acceptable;
    var fs := es + [e];
    assert fs[..|fs|] == fs;
  }

  /** One more event, after which the entry is still there and which, if it is a fragment of k, met it. */
  lemma StillThere(s: State, es: seq<Event>, e: Event, k: Key, born: nat)
    requires CreatedAt(s, es, k, born) && k in After(s, es + [e]).items
    requires Supplies(s, es + [e], |es|, k) ==> Meets(s, es + [e], |es|, k)
    ensures CreatedAt(s, es + [e], k, born)
  {
    var fs := es + [e];
    hide Expire;
    hide After;
    SameEarlier(s, es, e, k);
    forall n | born < n <= |fs| ensures k in After(s, fs[..n]).items {
      if n <= |es| {
        assert fs[..n] == es[..n];
      } else {
        assert fs[..n] == fs;
      }
    }
    forall n | born < n && Supplies(s, fs, n, k) ensures Meets(s, fs, n, k) {
      if n < |es| {
        assert fs[..n] == es[..n];
        assert Meets(s, es, n, k);
      }
    }
    assert fs[..born] == es[..born];
    hide Supplies;
  }

  /**
   * When the last event of a run completes a message of several fragments, it joins an entry that an earlier event,
   * born, created; the payload is the concatenation, index by index, of the first acceptable push of that index
   * since then; and none of these pushes went into an earlier message.
   */
  lemma CompletionIsConcatenation(s: State, es: seq<Event>) returns (born: nat, feeds: seq<nat>)
    requires ValidState(s) && s.items == map[] && es != []
    requires es[|es| - 1].Push? && es[|es| - 1].f.fragTotal > 1 && LastOutcome(s, es).Done?
    ensures |feeds| == es[|es| - 1].f.fragTotal
    ensures CreatedAt(s, es[..|es| - 1], KeyOf(es[|es| - 1].f), born)
    ensures Meets(s, es, |es| - 1, KeyOf(es[|es| - 1].f))
    ensures FirstOfEach(s, es, KeyOf(es[|es| - 1].f), born, feeds)
    ensures forall i :: 0 <= i < |feeds| ==> feeds[i] !in Books(s, es[..|es| - 1]).used && feeds[i] in Books(s, es).used
    ensures LastOutcome(s, es).frame.payload == Supplied(es, feeds)
  {
    hide CreatedAt;
    hide Expire;
    hide Traced;
    hide Entered;
    hide Pushed;
    hide ValidState;
    hide FirstOfEach;
    hide Known;
    hide Concat;
    hide Supplied;
    hide Acceptable;
    var front, e := es[..|es| - 1], es[|es| - 1];
    assert es == front + [e] && es[..|front|] == front;
    BooksTraced(s, front);
    RunsKeepValid(s, front);
    var o, p := CompletedEntry(s, front, e.f, e.now, After(s, front), Books(s, front));
    BirthsRecorded(s, front, KeyOf(e.f));
    FeedsEarlier(s, es, KeyOf(e.f), o, p);
    KnownFirst(s, es, KeyOf(e.f), o, p);
    born, feeds := o.born, FeedList(o, p);
    KnownStores(s, es, KeyOf(e.f), o, p);
    ConcatIsSupplied(es, o, p, p.total);
    assert feeds[..p.total] == feeds;
  }

  lemma KnownStores(s: State, es: seq<Event>, k: Key, o: Origin, p: Pending)
    requires Known(s, es, k, o, p)
    ensures Stores(es, o, p)
  {
  }

  /** The entry that was handed on, and its origin. */
  lemma CompletedEntry(s: State, es: seq<Event>, f: Frame, now: int, b: State, l: Ledger)
    returns (o: Origin, p: Pending)
    requires Traced(s, es, b.items, l) && b.maxPay == s.maxPay
    requires f.fragTotal > 1 && Pushed(b, f, now).1.Done? && ValidState(b)
    ensures KeyOf(f) in Expire(b, now).items && KeyOf(f) in b.items
    ensures KeyOf(f) in l.origins && o.born == l.origins[KeyOf(f)].born
    ensures Joined(s, es, f, now, o, p, l.used)
    ensures p.HasAll() && p.total == f.fragTotal && forall i :: i in p.parts ==> i < p.total
    ensures Pushed(b, f, now).1.frame.payload == Concat(p.parts, p.total)
    ensures Entered(b, l, Push(f, now), |es|).used == l.used + o.feeds.Values
  {
    hide ValidState;
    hide Traced;
    hide Pushed;
    hide Entered;
    hide Extended;
    hide Fed;
    hide Joined;
    hide Concat;
    hide HeaderError;
    var gone := ExpiredKeys(b.items, now);
    var live, m := Expire(b, now), Strike(l, gone);
    TracedWithout(s, es, b.items, l, gone, m);
    DoneMeans(b, l, f, now, |es|);
    ExpireKeepsValid(b, now);
    ExtendedShape(live, f, now);
    EntryFed(s, es, f, now, live, m);
    FullMeets(live, f, now);
    TracedKeys(s, es, b.items, l);
    OriginKept(b, l, f, now, |es|);
    o, p := Fed(m, f, |es|), Extended(live, f, now);
  }

  lemma TracedKeys(s: State, es: seq<Event>, items: map<Key, Pending>, l: Ledger)
    requires Traced(s, es, items, l)
    ensures l.origins.Keys == items.Keys
  {
  }

  /** One fragment of several does not complete a message: the entry was there. */
  lemma FullMeets(live: State, f: Frame, now: int)
    requires f.fragTotal > 1 && Extended(live, f, now).HasAll() && Extended(live, f, now).total == f.fragTotal
    ensures KeyOf(f) in live.items
  {
    var p := Extended(live, f, now);
    assert 0 in p.parts && 1 in p.parts;
  }

  lemma OriginKept(b: State, l: Ledger, f: Frame, now: int, t: nat)
    requires l.origins.Keys == b.items.Keys && KeyOf(f) in Expire(b, now).items
    ensures KeyOf(f) in b.items
    ensures Fed(Strike(l, ExpiredKeys(b.items, now)), f, t).born == l.origins[KeyOf(f)].born
  {
  }

  function FeedList(o: Origin, p: Pending): (feeds: seq<nat>)
    requires p.HasAll() && o.feeds.Keys == p.parts.Keys
    ensures |feeds| == p.total && forall i :: 0 <= i < p.total ==> feeds[i] == o.feeds[i] && feeds[i] in o.feeds.Values
  {
    seq(p.total, i requires 0 <= i < p.total => o.feeds[i])
  }

  lemma DoneMeans(b: State, l: Ledger, f: Frame, now: int, t: nat)
    requires f.fragTotal > 1 && Pushed(b, f, now).1.Done?
    ensures var live := Expire(b, now); var m := Strike(l, ExpiredKeys(b.items, now)); var p := Extended(live, f, now);
            && Acceptable(b, f) && p.HasAll() && p.total == f.fragTotal
            && (KeyOf(f) in live.items ==> live.items[KeyOf(f)].total == f.fragTotal)
            && Pushed(b, f, now).1.frame.payload == Concat(p.parts, p.total)
            && m.used == l.used && Entered(b, l, Push(f, now), t).used == l.used + Fed(m, f, t).feeds.Values
  {
    hide Expire;
    hide Concat;
    hide HeaderError;
  }

  lemma EnteredUses(s: State, l: Ledger, e: Event, t: nat)
    ensures l.used <= Entered(s, l, e, t).used
  {
  }

  /** Pushes already used stay used, so with the lemma above no push ever feeds two messages. */
  lemma {:induction false} UsedStaysUsed(s: State, es: seq<Event>, n: nat)
    requires n <= |es|
    ensures Books(s, es[..n]).used <= Books(s, es).used
    decreases |es|
  {
    if n < |es| {
      var front := es[..|es| - 1];
      UsedStaysUsed(s, front, n);
      assert front[..n] == es[..n];
      EnteredUses(After(s, front), Books(s, front), es[|es| - 1], |front|);
      hide Entered;
    } else {
      assert es[..n] == es;
    }
  }
}
