/** Sliding maximum and minimum over ring buffers: congestion/bbr/window.go. */
module RingFilters {

  /** The last n entries, or all of them when there are fewer. */
  function LastN(h: seq<int>, n: nat): seq<int> {
    if |h| <= n then h else h[|h| - n..]
  }

  /** m is the largest of the values, or 0 when there are none or none is positive. */
  ghost predicate IsMax(vals: seq<int>, m: int) {
    && m >= 0 && (forall v :: v in vals ==> v <= m)
    && (m == 0 || m in vals)
  }

  /** m is the least of the positive values, or 0 when there are none. */
  ghost predicate IsLeastPositive(vals: seq<int>, m: int) {
    if forall v :: v in vals ==> v <= 0 then m == 0
    else m > 0 && m in vals && forall v :: v in vals && v > 0 ==> m <= v
  }

  function MaxOf(vals: seq<int>): (m: nat)
    ensures IsMax(vals, m)
    decreases |vals|
  {
    if vals == [] then 0
    else
      var front, last := vals[..|vals| - 1], vals[|vals| - 1];
      assert vals == front + [last];
      var m := MaxOf(front);
      if last > m then last else m
  }

  function LeastPositiveOf(vals: seq<int>): (m: nat)
    ensures IsLeastPositive(vals, m)
    decreases |vals|
  {
    if vals == [] then 0
    else
      var front, last := vals[..|vals| - 1], vals[|vals| - 1];
      assert vals == front + [last];
      var m := LeastPositiveOf(front);
      if last > 0 && (m == 0 || last < m) then last else m
  }

  lemma MaxUnique(vals: seq<int>, m: int, n: int)
    requires IsMax(vals, m) && IsMax(vals, n)
    ensures m == n
  {
  }

  lemma LeastPositiveUnique(vals: seq<int>, m: int, n: int)
    requires IsLeastPositive(vals, m) && IsLeastPositive(vals, n)
    ensures m == n
  {
  }

  /** Where the k-th newest entry (k = 0 the newest) sits in a ring whose next write goes to pos. */
  function Slot(pos: nat, k: nat, window: nat): int {
    if k < pos then pos - 1 - k else pos - 1 - k + window
  }

  /** The ring holds exactly the last entries of the history. */
  ghost predicate RingHolds(vals: seq<int>, pos: nat, filled: bool, h: seq<int>) {
    && |vals| >= 2 && pos < |vals|
    && (if filled then |h| >= |vals| else |h| == pos)
    && forall k :: 0 <= k < |vals| && k < |h| ==> vals[Slot(pos, k, |vals|)] == h[|h| - 1 - k]
  }

  lemma NextPos(pos: nat, w: nat)
    requires pos < w
    ensures (pos + 1) % w == if pos + 1 == w then 0 else pos + 1
  {
  }

  lemma RingAfterAdd(vals: seq<int>, pos: nat, filled: bool, h: seq<int>, v: int)
    requires RingHolds(vals, pos, filled, h)
    ensures var pos' := if pos + 1 == |vals| then 0 else pos + 1;
            RingHolds(vals[pos := v], pos', filled || pos' == 0, h + [v])
  {
    var w := |vals|;
    var pos' := if pos + 1 == w then 0 else pos + 1;
    var vals', h' := vals[pos := v], h + [v];
    forall k | 0 <= k < w && k < |h'| ensures vals'[Slot(pos', k, w)] == h'[|h'| - 1 - k] {
      if k == 0 {
        assert Slot(pos', 0, w) == pos;
      } else {
        assert Slot(pos', k, w) == Slot(pos, k - 1, w) != pos;
        assert h'[|h'| - 1 - k] == h[|h| - 1 - (k - 1)];
      }
    }
  }

  /** The entries in use are the last ones of the history, in some order. */
  lemma RingIsLastN(vals: seq<int>, pos: nat, filled: bool, h: seq<int>, v: int)
    requires RingHolds(vals, pos, filled, h)
    ensures v in vals[..if filled then |vals| else pos] <==> v in LastN(h, |vals|)
  {
    var w := |vals|;
    var n := if filled then w else pos;
    var last := LastN(h, w);
    assert |last| == n;
    if v in vals[..n] {
      var i :| 0 <= i < n && vals[i] == v;
      var k := if i < pos then pos - 1 - i else pos - 1 - i + w;
      assert Slot(pos, k, w) == i;
      assert h[|h| - 1 - k] == v;
      assert last[n - 1 - k] == v;
    }
    if v in last {
      var j :| 0 <= j < n && last[j] == v;
      var k := n - 1 - j;
      assert h[|h| - 1 - k] == v;
      assert vals[Slot(pos, k, w)] == v;
      assert 0 <= Slot(pos, k, w) < n;
      assert vals[..n][Slot(pos, k, w)] == v;
    }
  }

  class MaxFilter {
    const window: nat
    const vals: array<int>
    var pos: nat
    var filled: bool
    ghost var history: seq<int>

    ghost predicate Valid()
      reads this, vals
    {
      vals.Length == window >= 2 && RingHolds(vals[..], pos, filled, history)
    }

    constructor (window: int)
      ensures Valid() && history == [] && fresh(vals)
      ensures this.window == if window < 2 then 2 else window
    {
      var w := if window < 2 then 2 else window;
      this.window := w;
      vals := new int[w](_ => 0);
      pos, filled := 0, false;
      history := [];
    }

    /** Values are unsigned. */
    method Add(v: int) returns (m: int)
      requires Valid() && v >= 0
      modifies this, vals
      ensures Valid() && history == old(history) + [v]
      ensures IsMax(LastN(history, window), m) && m == MaxOf(LastN(history, window))
    {
      RingAfterAdd(vals[..], pos, filled, history, v);
      NextPos(pos, window);
      ghost var after := vals[..][pos := v];
      vals[pos] := v;
      assert vals[..] == after;
      pos := (pos + 1) % window;
      if pos == 0 {
        filled := true;
      }
      history := history + [v];
      m := Max();
    }

    method Max() returns (m: int)
      requires Valid()
      ensures IsMax(LastN(history, window), m) && m == MaxOf(LastN(history, window))
    {
      var n := window;
      if !filled {
        n := pos;
      }
      m := 0;
      for i := 0 to n
        invariant m >= 0 && (m == 0 || m in vals[..i])
        invariant forall j :: 0 <= j < i ==> vals[j] <= m
      {
        if vals[i] > m {
          m := vals[i];
        }
        assert vals[..i + 1] == vals[..i] + [vals[i]];
      }
      ScannedMax(vals[..], pos, filled, history, m);
      MaxUnique(LastN(history, window), m, MaxOf(LastN(history, window)));
    }
  }

  lemma ScannedMax(vals: seq<int>, pos: nat, filled: bool, h: seq<int>, m: int)
    requires RingHolds(vals, pos, filled, h)
    requires IsMax(vals[..if filled then |vals| else pos], m)
    ensures IsMax(LastN(h, |vals|), m)
  {
    var used := vals[..if filled then |vals| else pos];
    forall v ensures v in used <==> v in LastN(h, |vals|) {
      RingIsLastN(vals, pos, filled, h, v);
    }
  }

  class MinFilter {
    const window: nat
    const vals: array<int>
    var pos: nat
    var filled: bool
    ghost var history: seq<int>

    ghost predicate Valid()
      reads this, vals
    {
      vals.Length == window >= 2 && RingHolds(vals[..], pos, filled, history)
    }

    constructor (window: int)
      ensures Valid() && history == [] && fresh(vals)
      ensures this.window == if window < 2 then 2 else window
    {
      var w := if window < 2 then 2 else window;
      this.window := w;
      vals := new int[w](_ => 0);
      pos, filled := 0, false;
      history := [];
    }

    method Add(v: int) returns (m: int)
      requires Valid()
      modifies this, vals
      ensures Valid() && history == old(history) + [v]
      ensures IsLeastPositive(LastN(history, window), m) && m == LeastPositiveOf(LastN(history, window))
    {
      RingAfterAdd(vals[..], pos, filled, history, v);
      NextPos(pos, window);
      ghost var after := vals[..][pos := v];
      vals[pos] := v;
      assert vals[..] == after;
      pos := (pos + 1) % window;
      if pos == 0 {
        filled := true;
      }
      history := history + [v];
      m := Min();
    }

    /** Zero and negative entries count as missing. */
    method Min() returns (m: int)
      requires Valid()
      ensures IsLeastPositive(LastN(history, window), m) && m == LeastPositiveOf(LastN(history, window))
    {
      var n := window;
      if !filled {
        n := pos;
      }
      m := 0;
      var have := false;
      for i := 0 to n
        invariant have ==> m > 0 && m in vals[..i]
        invariant !have ==> m == 0
        invariant forall j :: 0 <= j < i && vals[j] > 0 ==> have && m <= vals[j]
      {
        if vals[i] > 0 {
          if !have || vals[i] < m {
            m := vals[i];
            have := true;
          }
        }
        assert vals[..i + 1] == vals[..i] + [vals[i]];
      }
      ScannedMin(vals[..], pos, filled, history, m);
      LeastPositiveUnique(LastN(history, window), m, LeastPositiveOf(LastN(history, window)));
    }
  }

  lemma ScannedMin(vals: seq<int>, pos: nat, filled: bool, h: seq<int>, m: int)
    requires RingHolds(vals, pos, filled, h)
    requires IsLeastPositive(vals[..if filled then |vals| else pos], m)
    ensures IsLeastPositive(LastN(h, |vals|), m)
  {
    var used := vals[..if filled then |vals| else pos];
    forall v ensures v in used <==> v in LastN(h, |vals|) {
      RingIsLastN(vals, pos, filled, h, v);
    }
  }
}
