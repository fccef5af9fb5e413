/** Sequence-gap reconstruction of the offline analyser: the nominal step, the missing ranges, their
    expansion, and what replay recovered. Quotients are exact, which the analyser's floats are for
    32-bit sequence ids. */
module Gaps {
  import opened Basics

  datatype Range = Range(start: int, end: int, count: nat)

  // ---------- The grid of a step ----------

  /** `v` is a whole number of steps away from `a`. */
  predicate OnGrid(v: int, a: int, step: int)
    requires step >= 1
  {
    (v - a) % step == 0
  }

  lemma RemainderIs(n: int, k: int, r: int, s: int)
    requires s >= 1 && n == k * s + r && 0 <= r < s
    ensures n % s == r && n / s == k
  {
    var k', r' := n / s, n % s;
    assert n == k' * s + r';
    Distribute(k, k', s);
    if k > k' {
      AtLeast(k - k', s);
      assert false;
    } else if k < k' {
      AtLeast(k' - k, s);
      Distribute(k', k, s);
      assert false;
    }
  }

  lemma Distribute(a: int, b: int, s: int)
    ensures a * s - b * s == (a - b) * s
  {
  }

  lemma AtLeast(k: int, s: int)
    requires k >= 1 && s >= 1
    ensures k * s >= s
  {
  }

  lemma Steps(k: int, a: int, s: int)
    requires s >= 1
    ensures OnGrid(a + k * s, a, s) && k * s / s == k
  {
    RemainderIs(k * s, k, 0, s);
  }

  /** Any point of the grid is as good an origin. */
  lemma Rebase(v: int, a: int, b: int, s: int)
    requires s >= 1 && OnGrid(b, a, s)
    ensures OnGrid(v, a, s) <==> OnGrid(v, b, s)
  {
    var k, j, r := (b - a) / s, (v - b) / s, (v - b) % s;
    Distribute(k, -j, s);
    RemainderIs(v - a, k + j, r, s);
  }

  /** Two points of the grid less than a step apart are the same. */
  lemma Neighbours(v: int, b: int, s: int)
    requires s >= 1 && OnGrid(v, b, s) && -s < v - b < s
    ensures v == b
  {
    if v < b {
      RemainderIs(v - b, -1, v - b + s, s);
    } else {
      RemainderIs(v - b, 0, v - b, s);
    }
  }

  // ---------- round(d / step) ----------

  /** Python's round of an exact quotient: to nearest, ties to even. */
  function RoundHalfEven(d: int, step: int): int
    requires step >= 1
  {
    var q, r := d / step, d % step;
    if 2 * r < step then q
    else if 2 * r > step then q + 1
    else if q % 2 == 0 then q else q + 1
  }

  /** It is the nearest integer to the quotient, and the even one of two nearest. */
  lemma RoundIsNearest(d: int, step: int)
    requires step >= 1
    ensures var n := RoundHalfEven(d, step);
            -step <= 2 * (d - n * step) <= step
            && (2 * (d - n * step) == step || 2 * (d - n * step) == -step ==> n % 2 == 0)
  {
    var q, r := d / step, d % step;
    assert d == q * step + r;
    assert (q + 1) * step == q * step + step;
  }

  lemma RoundExact(q: int, step: int)
    requires step >= 1
    ensures RoundHalfEven(q * step, step) == q
  {
    RemainderIs(q * step, q, 0, step);
  }

  // ---------- infer_nominal_seq_step ----------

  function PositiveDiffs(s: seq<int>): seq<int> {
    if |s| < 2 then []
    else (if s[1] > s[0] then [s[1] - s[0]] else []) + PositiveDiffs(s[1..])
  }

  function Count(x: int, s: seq<int>): nat {
    if s == [] then 0 else Count(x, s[..|s| - 1]) + if s[|s| - 1] == x then 1 else 0
  }

  /** The most frequent value and, of several, the one met first: Counter.most_common(1). */
  ghost predicate IsFirstMode(m: int, s: seq<int>) {
    exists i :: 0 <= i < |s| && s[i] == m && FirstModeAt(i, s)
  }

  ghost predicate FirstModeAt(i: int, s: seq<int>)
    requires 0 <= i < |s|
  {
    && (forall j :: 0 <= j < |s| ==> Count(s[j], s) <= Count(s[i], s))
    && (forall j :: 0 <= j < i ==> Count(s[j], s) < Count(s[i], s))
  }

  lemma FirstModeUnique(m: int, n: int, s: seq<int>)
    requires IsFirstMode(m, s) && IsFirstMode(n, s)
    ensures m == n
  {
    var i :| 0 <= i < |s| && s[i] == m && FirstModeAt(i, s);
    var j :| 0 <= j < |s| && s[j] == n && FirstModeAt(j, s);
    assert i == j;
  }

  lemma {:induction false} CountPositive(x: int, s: seq<int>)
    ensures Count(x, s) > 0 <==> x in s
  {
    if s != [] {
      CountPositive(x, s[..|s| - 1]);
      assert s == s[..|s| - 1] + [s[|s| - 1]];
    }
  }

  /** Counter(diffs): a dictionary from each value to how often it occurs. */
  method Tally(s: seq<int>) returns (counts: map<int, nat>)
    ensures forall j :: 0 <= j < |s| ==> s[j] in counts && counts[s[j]] == Count(s[j], s)
  {
    counts := map[];
    for i := 0 to |s|
      invariant forall j :: 0 <= j < i ==> s[j] in counts
      invariant forall x :: Count(x, s[..i]) == if x in counts then counts[x] else 0
    {
      assert s[..i + 1][..i] == s[..i];
      counts := counts[s[i] := (if s[i] in counts then counts[s[i]] else 0) + 1];
    }
    assert s[..|s|] == s;
  }

  method CollectPositiveDiffs(seqs: seq<int>) returns (diffs: seq<int>)
    requires |seqs| >= 2
    ensures diffs == PositiveDiffs(seqs)
  {
    hide PositiveDiffs;
    diffs := [];
    var prev := seqs[0];
    assert seqs[0..] == seqs;
    for i := 1 to |seqs|
      invariant prev == seqs[i - 1]
      invariant diffs + PositiveDiffs(seqs[i - 1..]) == PositiveDiffs(seqs)
    {
      var cur := seqs[i];
      var d := cur - prev;
      DiffsFrom(seqs, i - 1);
      AppendAll(diffs, if d > 0 then [d] else [], PositiveDiffs(seqs[i..]));
      if d > 0 {
        diffs := diffs + [d];
      } else {
        assert diffs + [] == diffs;
      }
      prev := cur;
    }
    NoDiffs(seqs[|seqs| - 1..]);
  }

  lemma NoDiffs(s: seq<int>)
    requires |s| < 2
    ensures PositiveDiffs(s) == []
  {
  }

  lemma AppendAll(a: seq<int>, b: seq<int>, c: seq<int>)
    ensures a + (b + c) == a + b + c
  {
  }

  lemma DiffsFrom(s: seq<int>, i: nat)
    requires i + 1 < |s|
    ensures PositiveDiffs(s[i..]) == (if s[i + 1] > s[i] then [s[i + 1] - s[i]] else []) + PositiveDiffs(s[i + 1..])
  {
    assert s[i..][1..] == s[i + 1..];
  }

  lemma {:induction false} DiffsArePositive(s: seq<int>)
    ensures forall k :: 0 <= k < |PositiveDiffs(s)| ==> PositiveDiffs(s)[k] > 0
  {
    if |s| >= 2 {
      DiffsArePositive(s[1..]);
    }
  }

  method InferNominalSeqStep(seqs: seq<int>) returns (step: int)
    ensures step >= 1
    ensures PositiveDiffs(seqs) == [] ==> step == 1
    ensures PositiveDiffs(seqs) != [] ==> IsFirstMode(step, PositiveDiffs(seqs))
  {
    if |seqs| < 2 {
      return 1;
    }
    var diffs := CollectPositiveDiffs(seqs);
    if diffs == [] {
      return 1;
    }
    DiffsArePositive(seqs);
    step := MostCommon(diffs);
    assert step in diffs;
  }

  /** Counter(diffs).most_common(1)[0][0] */
  method MostCommon(diffs: seq<int>) returns (m: int)
    requires diffs != []
    ensures IsFirstMode(m, diffs)
  {
    var counts := Tally(diffs);
    var best := 0;
    for i := 1 to |diffs|
      invariant 0 <= best < i
      invariant forall j :: 0 <= j < i ==> counts[diffs[j]] <= counts[diffs[best]]
      invariant forall j :: 0 <= j < best ==> counts[diffs[j]] < counts[diffs[best]]
    {
      if counts[diffs[i]] > counts[diffs[best]] {
        best := i;
      }
    }
    m := diffs[best];
    assert FirstModeAt(best, diffs);
  }

  // ---------- compute_missing_ranges_with_step ----------

  function GapRange(prev: int, cur: int, step: int): (r: seq<Range>)
    requires step >= 1
    ensures |r| <= 1
  {
    var d := cur - prev;
    if d > step then
      var missing := RoundHalfEven(d, step) - 1;
      if missing > 0 then [Range(prev + step, prev + step * missing, missing)] else []
    else []
  }

  function MissingRanges(s: seq<int>, step: int): seq<Range>
    requires step >= 1
  {
    if |s| < 2 then [] else GapRange(s[0], s[1], step) + MissingRanges(s[1..], step)
  }

  method ComputeMissingRangesWithStep(seqs: seq<int>, step: int) returns (ranges: seq<Range>)
    requires step >= 1
    ensures ranges == MissingRanges(seqs, step)
  {
    hide GapRange;
    ranges := [];
    if |seqs| < 2 {
      return;
    }
    var prev := seqs[0];
    for i := 1 to |seqs|
      invariant prev == seqs[i - 1]
      invariant ranges + MissingRanges(seqs[i - 1..], step) == MissingRanges(seqs, step)
    {
      var cur := seqs[i];
      ghost var rest := MissingRanges(seqs[i..], step);
      assert seqs[i - 1..][1..] == seqs[i..];
      var gap := RangeBetween(prev, cur, step);
      assert ranges + (gap + rest) == ranges + gap + rest;
      ranges := ranges + gap;
      prev := cur;
    }
  }

  /** The body of the loop: the range appended for two consecutive ids, if any. */
  method RangeBetween(prev: int, cur: int, step: int) returns (gap: seq<Range>)
    requires step >= 1
    ensures gap == GapRange(prev, cur, step)
  {
    hide RoundHalfEven;
    gap := [];
    var d := cur - prev;
    if d > step {
      var approxUnits := RoundHalfEven(d, step);
      var missingCount := if approxUnits - 1 > 0 then approxUnits - 1 else 0;
      if missingCount > 0 {
        gap := [Range(prev + step, prev + step * missingCount, missingCount)];
      }
    }
  }

  // ---------- expand_missing_expected_values ----------

  function Progression(start: int, end: int, step: int): set<int>
    requires step >= 1
  {
    set v | start <= v <= end && OnGrid(v, start, step)
  }

  function Expand(ranges: seq<Range>, step: int): set<int>
    requires step >= 1
  {
    if ranges == [] then {} else Progression(ranges[0].start, ranges[0].end, step) + Expand(ranges[1..], step)
  }

  method ExpandMissingExpectedValues(ranges: seq<Range>, step: int) returns (values: set<int>)
    requires step >= 1
    ensures values == Expand(ranges, step)
  {
    hide OnGrid;
    values := {};
    for i := 0 to |ranges|
      invariant values + Expand(ranges[i..], step) == Expand(ranges, step)
    {
      ghost var before := values;
      var v, end := ranges[i].start, ranges[i].end;
      ghost var start := v;
      Steps(0, start, step);
      while v <= end
        invariant v >= start && OnGrid(v, start, step)
        invariant values == before + Below(start, v, end, step)
        decreases end + step - v
      {
        NextOnGrid(start, v, end, step);
        values := values + {v};
        v := v + step;
      }
      assert Below(start, v, end, step) == Progression(start, end, step);
      assert ranges[i..][1..] == ranges[i + 1..];
    }
  }

  ghost function Below(start: int, v: int, end: int, step: int): set<int>
    requires step >= 1
  {
    set u | start <= u < v && u <= end && OnGrid(u, start, step)
  }

  lemma NextOnGrid(start: int, v: int, end: int, step: int)
    requires step >= 1 && start <= v <= end && OnGrid(v, start, step)
    ensures OnGrid(v + step, start, step)
    ensures Below(start, v + step, end, step) == Below(start, v, end, step) + {v}
  {
    hide OnGrid;
    forall u | v <= u < v + step && OnGrid(u, start, step)
      ensures u == v
    {
      Rebase(u, start, v, step);
      Neighbours(u, v, step);
    }
    Steps(1, v, step);
    Rebase(v + step, start, v, step);
  }

  // ---------- What the ranges cover ----------

  ghost predicate Increasing(s: seq<int>) {
    forall i, j :: 0 <= i < j < |s| ==> s[i] < s[j]
  }

  lemma IncreasingTail(s: seq<int>)
    requires Increasing(s) && |s| >= 1
    ensures Increasing(s[1..])
  {
    forall i, j | 0 <= i < j < |s[1..]|
      ensures s[1..][i] < s[1..][j]
    {
      assert s[i + 1] < s[j + 1];
    }
  }

  /** Rounding never reaches the next live id: the range of a gap lies strictly inside it, begins a step behind the
      live id, and its count is one less than the number of steps nearest to the gap, the even one of two. */
  lemma GapInside(prev: int, cur: int, step: int)
    requires step >= 1 && GapRange(prev, cur, step) != []
    ensures var r := GapRange(prev, cur, step)[0];
            && |GapRange(prev, cur, step)| == 1 && prev < r.start <= r.end < cur
            && r.start == prev + step && r.end == r.start + (r.count - 1) * step && r.count >= 1
            && var off := 2 * (cur - prev - (r.count + 1) * step);
               && -step <= off <= step && (off == step || off == -step ==> (r.count + 1) % 2 == 0)
  {
    hide RoundHalfEven;
    var d := cur - prev;
    var n := RoundHalfEven(d, step);
    RoundIsNearest(d, step);
    Distribute(n, 1, step);
    Distribute(n, 2, step);
    assert step * (n - 1) == n * step - step && (n - 2) * step == n * step - 2 * step;
    AtLeast(n - 1, step);
  }

  /** There is no range exactly where the nearest number of steps is one or less. */
  lemma NoGap(prev: int, cur: int, step: int)
    requires step >= 1
    ensures GapRange(prev, cur, step) == [] <==> 2 * (cur - prev) < 3 * step
  {
    hide RoundHalfEven;
    var d := cur - prev;
    var n := RoundHalfEven(d, step);
    RoundIsNearest(d, step);
    if n >= 2 {
      Distribute(n, 2, step);
      AtLeast(n - 1, step);
      assert (n - 2) * step >= 0;
    } else if n <= 1 {
      Distribute(1, n, step);
      assert (1 - n) * step >= 0;
    }
  }

  lemma {:induction false} ProgressionSize(start: int, count: nat, step: int)
    requires step >= 1 && count >= 1
    ensures |Progression(start, start + (count - 1) * step, step)| == count
    decreases count
  {
    var last := start + (count - 1) * step;
    Steps(count - 1, start, step);
    if count == 1 {
      assert Progression(start, start, step) == {start};
    } else {
      ProgressionSize(start, count - 1, step);
      Distribute(count - 1, 1, step);
      Steps(count - 2, start, step);
      ProgressionStep(start, last - step, step);
    }
  }

  lemma ProgressionStep(start: int, end: int, step: int)
    requires step >= 1 && start <= end && OnGrid(end, start, step)
    ensures Progression(start, end + step, step) == Progression(start, end, step) + {end + step}
    ensures end + step !in Progression(start, end, step)
  {
    hide OnGrid;
    Steps(1, end, step);
    Rebase(end + step, start, end, step);
    forall u | end < u <= end + step && OnGrid(u, start, step)
      ensures u == end + step
    {
      Rebase(u, start, end, step);
      Rebase(u, end, end + step, step);
      Neighbours(u, end + step, step);
    }
  }

  function TotalCount(ranges: seq<Range>): nat {
    if ranges == [] then 0 else ranges[0].count + TotalCount(ranges[1..])
  }

  /** Expanded ids lie strictly between two consecutive live ids. */
  lemma {:induction false} ExpandedAreBetween(live: seq<int>, step: int, v: int) returns (i: nat)
    requires step >= 1
    ensures v in Expand(MissingRanges(live, step), step) ==>
      && i + 1 < |live| && live[i] < v < live[i + 1]
      && GapRange(live[i], live[i + 1], step) != []
      && v in Expand(GapRange(live[i], live[i + 1], step), step)
  {
    hide OnGrid, GapRange;
    if |live| < 2 {
      return 0;
    }
    ExpandAppend(GapRange(live[0], live[1], step), MissingRanges(live[1..], step), step);
    if v in Expand(GapRange(live[0], live[1], step), step) {
      GapInside(live[0], live[1], step);
      i := 0;
    } else {
      var k := ExpandedAreBetween(live[1..], step, v);
      i := k + 1;
    }
  }

  lemma {:induction false} ExpandAppend(a: seq<Range>, b: seq<Range>, step: int)
    requires step >= 1
    ensures Expand(a + b, step) == Expand(a, step) + Expand(b, step)
  {
    if a == [] {
      assert a + b == b;
    } else {
      assert (a + b)[1..] == a[1..] + b;
      ExpandAppend(a[1..], b, step);
    }
  }

  /** The ranges lie behind `first`, one behind the other. */
  ghost predicate InOrder(first: int, ranges: seq<Range>) {
    && (forall i :: 0 <= i < |ranges| ==> first < ranges[i].start <= ranges[i].end)
    && (forall i, j :: 0 <= i < j < |ranges| ==> ranges[i].end < ranges[j].start)
  }

  lemma {:induction false} RangesInOrder(live: seq<int>, step: int)
    requires step >= 1 && Increasing(live) && |live| >= 1
    ensures InOrder(live[0], MissingRanges(live, step))
  {
    hide GapRange;
    if |live| >= 2 {
      IncreasingTail(live);
      RangesInOrder(live[1..], step);
      var gap, rest := GapRange(live[0], live[1], step), MissingRanges(live[1..], step);
      if gap == [] {
        assert gap + rest == rest;
      } else {
        GapInside(live[0], live[1], step);
        assert gap == [gap[0]];
        ConsInOrder(live[0], live[1], gap[0], rest);
      }
    }
  }

  lemma ConsInOrder(first: int, second: int, r: Range, rest: seq<Range>)
    requires first < r.start <= r.end < second && InOrder(second, rest)
    ensures InOrder(first, [r] + rest)
  {
  }

  lemma {:induction false} ExpandedSize(live: seq<int>, step: int)
    requires step >= 1 && Increasing(live)
    ensures |Expand(MissingRanges(live, step), step)| == TotalCount(MissingRanges(live, step))
  {
    hide OnGrid, GapRange;
    if |live| >= 2 {
      IncreasingTail(live);
      ExpandedSize(live[1..], step);
      var gap, rest := GapRange(live[0], live[1], step), MissingRanges(live[1..], step);
      if gap == [] {
        assert gap + rest == rest;
      } else {
        GapInside(live[0], live[1], step);
        ProgressionSize(gap[0].start, gap[0].count, step);
        assert (gap + rest)[1..] == rest;
        forall v | v in Expand(rest, step)
          ensures v > live[1]
        {
          var i := ExpandedAreBetween(live[1..], step, v);
          assert live[1..][0] <= live[1..][i];
        }
        DisjointSize(Progression(gap[0].start, gap[0].end, step), Expand(rest, step));
      }
    }
  }

  lemma DisjointSize(a: set<int>, b: set<int>)
    requires a !! b
    ensures |a + b| == |a| + |b|
  {
  }

  /** For increasing live ids the ranges are ordered and disjoint, none covers a live id, and the set
      of expanded ids has exactly the announced size. */
  lemma GapAccounting(live: seq<int>, step: int)
    requires step >= 1 && Increasing(live)
    ensures var ranges := MissingRanges(live, step);
            && (live != [] ==> InOrder(live[0], ranges))
            && |Expand(ranges, step)| == TotalCount(ranges)
            && (forall v :: v in Expand(ranges, step) ==> |live| >= 2 && v !in live && live[0] < v < live[|live| - 1])
  {
    if live != [] {
      RangesInOrder(live, step);
    }
    ExpandedSize(live, step);
    forall v | v in Expand(MissingRanges(live, step), step)
      ensures |live| >= 2 && v !in live && live[0] < v < live[|live| - 1]
    {
      var i := ExpandedAreBetween(live, step, v);
      NotLive(live, i, v);
    }
  }

  lemma NotLive(live: seq<int>, i: nat, v: int)
    requires Increasing(live) && i + 1 < |live| && live[i] < v < live[i + 1]
    ensures v !in live && live[0] < v < live[|live| - 1]
  {
  }

  // ---------- When the reconstruction is exact ----------

  /** The ids were emitted one step apart: each live id is on the grid of the first. */
  ghost predicate OnProgression(live: seq<int>, step: int)
    requires step >= 1
  {
    forall i :: 0 <= i < |live| ==> OnGrid(live[i], live[0], step)
  }

  /** The ids emitted between the first and the last live one that were not received live. */
  ghost function TrulyMissing(live: seq<int>, step: int): set<int>
    requires step >= 1
  {
    if live == [] then {}
    else set v | live[0] < v < live[|live| - 1] && OnGrid(v, live[0], step) && v !in live
  }

  ghost function GridBetween(prev: int, cur: int, step: int): set<int>
    requires step >= 1
  {
    set v | prev < v < cur && OnGrid(v, prev, step)
  }

  lemma GapExact(prev: int, cur: int, step: int)
    requires step >= 1 && prev < cur && OnGrid(cur, prev, step)
    ensures Expand(GapRange(prev, cur, step), step) == GridBetween(prev, cur, step)
  {
    hide RoundHalfEven;
    var d := cur - prev;
    var q := d / step;
    assert d == q * step;
    RoundExact(q, step);
    Distribute(q, 1, step);
    if q <= 1 {
      assert d <= step by {
        if q < 1 { AtLeast(1 - q, step); }
      }
      NothingBetween(prev, cur, step);
    } else {
      AtLeast(q - 1, step);
      assert step * (q - 1) == d - step;
      assert GapRange(prev, cur, step) == [Range(prev + step, cur - step, q - 1)];
      InnerGrid(prev, cur, step);
    }
  }

  lemma NothingBetween(prev: int, cur: int, step: int)
    requires step >= 1 && prev < cur <= prev + step
    ensures GridBetween(prev, cur, step) == {}
  {
    hide OnGrid;
    forall v | prev < v < cur && OnGrid(v, prev, step)
      ensures false
    {
      Neighbours(v, prev, step);
    }
  }

  lemma InnerGrid(prev: int, cur: int, step: int)
    requires step >= 1 && prev + step < cur && OnGrid(cur, prev, step)
    ensures Progression(prev + step, cur - step, step) == GridBetween(prev, cur, step)
  {
    hide OnGrid;
    Steps(1, prev, step);
    forall v
      ensures prev + step <= v <= cur - step && OnGrid(v, prev + step, step) <==>
        prev < v < cur && OnGrid(v, prev, step)
    {
      Rebase(v, prev, prev + step, step);
      Rebase(v, prev, cur, step);
      if prev < v < prev + step && OnGrid(v, prev, step) {
        Neighbours(v, prev, step);
      }
      if cur - step < v < cur && OnGrid(v, prev, step) {
        Neighbours(v, cur, step);
      }
    }
  }

  lemma ProgressionTail(live: seq<int>, step: int)
    requires step >= 1 && |live| >= 2 && OnProgression(live, step)
    ensures OnProgression(live[1..], step)
  {
    hide OnGrid;
    forall i | 0 <= i < |live[1..]|
      ensures OnGrid(live[1..][i], live[1..][0], step)
    {
      Rebase(live[i + 1], live[0], live[1], step);
    }
  }

  lemma MissingSplits(live: seq<int>, step: int)
    requires step >= 1 && |live| >= 2 && Increasing(live) && OnProgression(live, step)
    ensures TrulyMissing(live, step) == GridBetween(live[0], live[1], step) + TrulyMissing(live[1..], step)
  {
    hide OnGrid;
    var rest := live[1..];
    assert live == [live[0]] + rest;
    forall v
      ensures v in TrulyMissing(live, step) <==>
        v in GridBetween(live[0], live[1], step) || v in TrulyMissing(rest, step)
    {
      Rebase(v, live[0], live[1], step);
      assert rest[0] == live[1] && rest[|rest| - 1] == live[|live| - 1];
      if v < live[1] {
        assert v !in rest;
      }
    }
  }

  /** With the step the ids really have, nothing is missed and nothing is invented. */
  lemma {:induction false} ExactForTrueStep(live: seq<int>, step: int)
    requires step >= 1 && Increasing(live) && OnProgression(live, step)
    ensures Expand(MissingRanges(live, step), step) == TrulyMissing(live, step)
  {
    hide OnGrid, GapRange;
    if |live| >= 2 {
      IncreasingTail(live);
      ProgressionTail(live, step);
      ExactForTrueStep(live[1..], step);
      ExpandAppend(GapRange(live[0], live[1], step), MissingRanges(live[1..], step), step);
      GapExact(live[0], live[1], step);
      MissingSplits(live, step);
    }
  }

  lemma {:induction false} DiffIndex(s: seq<int>, d: int) returns (i: nat)
    requires d in PositiveDiffs(s)
    ensures i + 1 < |s| && s[i + 1] - s[i] == d
  {
    if s[1] - s[0] == d {
      i := 0;
    } else {
      var k := DiffIndex(s[1..], d);
      i := k + 1;
    }
  }

  /** A step that occurs as a difference but is not the true one leaves out an id that is missing. */
  lemma WrongStepMisses(live: seq<int>, step: int, i: nat) returns (v: int)
    requires step >= 1 && Increasing(live) && OnProgression(live, step) && i + 1 < |live|
    ensures var t := live[i + 1] - live[i];
            t >= 1 && (t != step ==> v in TrulyMissing(live, step) && v !in Expand(MissingRanges(live, t), t))
  {
    hide OnGrid;
    var t := live[i + 1] - live[i];
    v := live[i] + step;
    if t == step {
      return;
    }
    Rebase(live[i + 1], live[0], live[i], step);
    if t < step {
      Neighbours(live[i + 1], live[i], step);
    }
    Steps(1, live[i], step);
    Rebase(v, live[0], live[i], step);
    NotLive(live, i, v);
    if v in Expand(MissingRanges(live, t), t) {
      var j := ExpandedAreBetween(live, t, v);
      assert false;
    }
  }

  /** The reconstruction with the inferred step is exact if and only if the step the ids really have
      is the most frequent difference, first met among equals. */
  lemma ExactIffModeIsStep(live: seq<int>, step: int, inferred: int)
    requires step >= 1 && inferred >= 1 && |live| >= 2 && Increasing(live) && OnProgression(live, step)
    requires IsFirstMode(inferred, PositiveDiffs(live))
    ensures Expand(MissingRanges(live, inferred), inferred) == TrulyMissing(live, step)
       <==> IsFirstMode(step, PositiveDiffs(live))
  {
    if inferred == step {
      ExactForTrueStep(live, step);
    } else {
      var i := DiffIndex(live, inferred);
      var v := WrongStepMisses(live, step, i);
      if IsFirstMode(step, PositiveDiffs(live)) {
        FirstModeUnique(step, inferred, PositiveDiffs(live));
        assert false;
      }
    }
  }

  lemma {:induction false} CountTwo(x: int, y: int, s: seq<int>)
    requires x != y
    ensures Count(x, s) + Count(y, s) <= |s|
  {
    if s != [] {
      CountTwo(x, y, s[..|s| - 1]);
    }
  }

  /** Enough for exactness: steps taken outnumber the gaps. */
  lemma MajorityIsFirstMode(step: int, diffs: seq<int>)
    requires 2 * Count(step, diffs) > |diffs|
    ensures IsFirstMode(step, diffs)
  {
    CountPositive(step, diffs);
    var i :| 0 <= i < |diffs| && diffs[i] == step;
    var first := FirstOccurrence(diffs, i);
    forall j | 0 <= j < |diffs| && diffs[j] != step
      ensures Count(diffs[j], diffs) < Count(step, diffs)
    {
      CountTwo(diffs[j], step, diffs);
    }
    assert FirstModeAt(first, diffs);
  }

  lemma {:induction false} FirstOccurrence(s: seq<int>, i: nat) returns (k: nat)
    requires i < |s|
    ensures k <= i && s[k] == s[i] && s[i] !in s[..k]
  {
    k := 0;
    while s[k] != s[i]
      invariant k <= i && s[i] !in s[..k]
      decreases i - k
    {
      k := k + 1;
    }
  }

  /** The analyser's chain: infer the step, find the ranges, expand them. */
  method MissingExpected(live: seq<int>) returns (missing: set<int>, step: int)
    ensures step >= 1
    ensures missing == Expand(MissingRanges(live, step), step)
    ensures forall s: int :: s >= 1 && Increasing(live) && OnProgression(live, s) ==>
      (missing == TrulyMissing(live, s) <==> |live| < 2 || IsFirstMode(s, PositiveDiffs(live)))
  {
    step := InferNominalSeqStep(live);
    var ranges := ComputeMissingRangesWithStep(live, step);
    missing := ExpandMissingExpectedValues(ranges, step);
    forall s: int | s >= 1 && Increasing(live) && OnProgression(live, s)
      ensures missing == TrulyMissing(live, s) <==> |live| < 2 || IsFirstMode(s, PositiveDiffs(live))
    {
      if |live| >= 2 {
        assert PositiveDiffs(live)[0] == live[1] - live[0];
        ExactIffModeIsStep(live, s, step);
      }
    }
  }

  // ---------- Recovery accounting (analyze_one_file) ----------

  /** `ratio` is None where the analyser writes NaN. */
  datatype Recovery = Recovery(recovered: nat, unrecovered: nat, ratio: Option<real>)

  function AccountRecovery(missing: set<int>, replay: set<int>, reconnectOnly: bool): Recovery {
    var hits := |missing * replay|;
    var recovered := if reconnectOnly then 0 else hits;
    var ratio :=
      if missing == {} then None
      else if reconnectOnly then Some(0.0)
      else Some(recovered as real / |missing| as real);
    HitsBound(missing, replay);
    Recovery(recovered, if missing != {} then |missing| - recovered else 0, ratio)
  }

  lemma HitsBound(missing: set<int>, replay: set<int>)
    ensures |missing * replay| <= |missing|
    ensures |missing * replay| == |missing| <==> missing <= replay
  {
    var hit, lost := missing * replay, missing - replay;
    assert missing == hit + lost;
    DisjointSize(hit, lost);
    assert lost == {} <==> missing <= replay;
  }

  /** Nothing is counted twice or lost, the ratio is a ratio, and it is one exactly when something
      was missing and replay brought all of it back; the baseline recovers nothing. */
  lemma RecoveryAccounting(missing: set<int>, replay: set<int>, reconnectOnly: bool)
    ensures var r := AccountRecovery(missing, replay, reconnectOnly);
            && r.recovered + r.unrecovered == |missing|
            && (r.ratio.None? <==> missing == {})
            && r.recovered == (if reconnectOnly then 0 else |missing * replay|)
            && (r.ratio.Some? ==> r.ratio.value * |missing| as real == r.recovered as real)
            && (r.ratio.Some? ==> 0.0 <= r.ratio.value <= 1.0)
            && (r.ratio == Some(1.0) <==> !reconnectOnly && missing != {} && missing <= replay)
            && (r.unrecovered == 0 <==> missing == {} || (!reconnectOnly && missing <= replay))
            && (reconnectOnly ==> r.recovered == 0)
  {
    HitsBound(missing, replay);
    if missing != {} && !reconnectOnly {
      RatioBounds(|missing * replay|, |missing|);
    }
  }

  lemma RatioBounds(a: nat, b: nat)
    requires a <= b && b > 0
    ensures 0.0 <= a as real / b as real <= 1.0
    ensures a as real / b as real == 1.0 <==> a == b
  {
  }
}
