/** Half-open intervals of lines and the sweep that merges them (`mergedLength`): what it measures, for intervals of
    any shape and in any order. */
module Intervals {
  import opened Sorting

  /** The range of lines `lo`, …, `hi - 1`. */
  datatype Interval = Interval(lo: int, hi: int)

  predicate Covers(iv: Interval, x: int) {
    iv.lo <= x < iv.hi
  }

  function Lines(iv: Interval): set<int> {
    set x | iv.lo <= x < iv.hi && Covers(iv, x)
  }

  function Union(ivs: seq<Interval>): set<int> {
    set iv, x | iv in ivs && x in Lines(iv) :: x
  }

  predicate Backward(iv: Interval) {
    iv.hi < iv.lo
  }

  /** By how much a backward interval runs backwards. */
  function Deficit(iv: Interval): nat {
    if Backward(iv) then iv.lo - iv.hi else 0
  }

  ghost predicate Ordered(ivs: seq<Interval>) {
    forall iv :: iv in ivs ==> !Backward(iv)
  }

  lemma {:induction false} LinesCount(iv: Interval)
    ensures |Lines(iv)| == iv.hi - iv.lo + Deficit(iv)
    decreases iv.hi - iv.lo
  {
    if iv.lo < iv.hi {
      LinesCount(Interval(iv.lo, iv.hi - 1));
      assert Lines(iv) == Lines(Interval(iv.lo, iv.hi - 1)) + {iv.hi - 1};
    } else {
      assert Lines(iv) == {};
    }
  }

  function ByStart(): (Interval, Interval) -> bool {
    (a: Interval, b: Interval) => a.lo <= b.lo
  }

  lemma UnionAppend(ivs: seq<Interval>, iv: Interval)
    ensures Union(ivs + [iv]) == Union(ivs) + Lines(iv)
  {
    forall x | x in Union(ivs) + Lines(iv)
      ensures x in Union(ivs + [iv])
    {
      if x in Union(ivs) {
        var other :| other in ivs && x in Lines(other);
        assert other in ivs + [iv];
      } else {
        assert iv in ivs + [iv];
      }
    }
  }

  lemma UnionSorted(ivs: seq<Interval>)
    ensures SortedBy(ByStart(), Sort(ByStart(), ivs)) && multiset(Sort(ByStart(), ivs)) == multiset(ivs)
    ensures forall iv :: iv in Sort(ByStart(), ivs) <==> iv in ivs
    ensures Union(Sort(ByStart(), ivs)) == Union(ivs)
  {
    SortPermutes(ByStart(), ivs);
    SortSorts(ByStart(), ivs);
  }

  // ----- mergedLength

  function Wider(cur: Interval, next: Interval): Interval {
    Interval(cur.lo, if cur.hi < next.hi then next.hi else cur.hi)
  }

  /** The sweep over intervals in order, of whatever shape. */
  function Sweep(sorted: seq<Interval>, total: int, cur: Interval): int {
    if sorted == [] then total + cur.hi - cur.lo
    else if sorted[0].lo <= cur.hi then Sweep(sorted[1..], total, Wider(cur, sorted[0]))
    else Sweep(sorted[1..], total + cur.hi - cur.lo, sorted[0])
  }

  function Merged(intervals: seq<Interval>): int {
    var sorted := Sort(ByStart(), intervals);
    if sorted == [] then 0 else Sweep(sorted[1..], 0, sorted[0])
  }

  method MergedLength(intervals: seq<Interval>) returns (total: int)
    ensures total == Merged(intervals)
  {
    SortPermutes(ByStart(), intervals);
    if intervals == [] {
      return 0;
    }
    var sorted := Sort(ByStart(), intervals);
    total := 0;
    var cur := sorted[0];
    for i := 1 to |sorted|
      invariant Sweep(sorted[i..], total, cur) == Merged(intervals)
    {
      assert sorted[i..][0] == sorted[i] && sorted[i..][1..] == sorted[i + 1..];
      if sorted[i].lo <= cur.hi {
        cur := Interval(cur.lo, if cur.hi < sorted[i].hi then sorted[i].hi else cur.hi);
      } else {
        total, cur := total + cur.hi - cur.lo, sorted[i];
      }
    }
    total := total + cur.hi - cur.lo;
  }

  // ----- what it measures

  /** No interval before it reaches its start. */
  predicate OpensGroup(sorted: seq<Interval>, j: nat)
    requires j < |sorted|
  {
    forall i :: 0 <= i < j ==> sorted[i].hi < sorted[j].lo
  }

  /** What the backward openers among the first `n` take off the total. */
  function Shortfall(sorted: seq<Interval>, n: nat): nat
    requires n <= |sorted|
  {
    if n == 0 then 0
    else Shortfall(sorted, n - 1) + if OpensGroup(sorted, n - 1) then Deficit(sorted[n - 1]) else 0
  }

  /** `cur.hi` is as far as the intervals so far reach from `cur.lo` on. */
  ghost predicate Reaches(sorted: seq<Interval>, i: nat, cur: Interval)
    requires i <= |sorted|
  {
    && (exists k :: 0 <= k < i && sorted[k].hi == cur.hi)
    && (forall k :: 0 <= k < i ==> sorted[k].hi <= cur.hi || sorted[k].hi < cur.lo)
    && (forall j :: i <= j < |sorted| ==> cur.lo <= sorted[j].lo)
  }

  /** `past` holds the lines of the groups already closed, all before the current one. */
  ghost predicate Swept(sorted: seq<Interval>, i: nat, total: int, cur: Interval, past: set<int>)
    requires i <= |sorted|
  {
    && total + Shortfall(sorted, i) == |past| + Deficit(cur)
    && (forall x :: x in past ==> x < cur.lo)
    && Union(sorted[..i]) == past + Lines(cur)
    && Reaches(sorted, i, cur)
  }

  lemma OpensIff(sorted: seq<Interval>, i: nat, cur: Interval)
    requires i < |sorted| && Reaches(sorted, i, cur)
    ensures OpensGroup(sorted, i) <==> cur.hi < sorted[i].lo
  {
  }

  lemma Widen(sorted: seq<Interval>, i: nat, total: int, cur: Interval, past: set<int>)
    requires i < |sorted| && Swept(sorted, i, total, cur, past) && sorted[i].lo <= cur.hi
    ensures Swept(sorted, i + 1, total, Wider(cur, sorted[i]), past)
  {
    hide Union, Lines, OpensGroup, Reaches;
    OpensIff(sorted, i, cur);
    WidenReaches(sorted, i, cur);
    assert sorted[..i + 1] == sorted[..i] + [sorted[i]];
    UnionAppend(sorted[..i], sorted[i]);
    WidenLines(cur, sorted[i]);
  }

  lemma WidenReaches(sorted: seq<Interval>, i: nat, cur: Interval)
    requires i < |sorted| && Reaches(sorted, i, cur) && sorted[i].lo <= cur.hi
    ensures cur.lo <= sorted[i].lo && Reaches(sorted, i + 1, Wider(cur, sorted[i]))
  {
    var k :| 0 <= k < i && sorted[k].hi == cur.hi;
    assert sorted[if cur.hi < sorted[i].hi then i else k].hi == Wider(cur, sorted[i]).hi;
  }

  lemma WidenLines(cur: Interval, next: Interval)
    requires cur.lo <= next.lo <= cur.hi
    ensures Lines(cur) + Lines(next) == Lines(Wider(cur, next))
  {
  }

  lemma Close(sorted: seq<Interval>, i: nat, total: int, cur: Interval, past: set<int>)
    requires i < |sorted| && SortedBy(ByStart(), sorted)
    requires Swept(sorted, i, total, cur, past) && sorted[i].lo > cur.hi
    ensures Swept(sorted, i + 1, total + cur.hi - cur.lo, sorted[i], past + Lines(cur))
  {
    hide Union, OpensGroup, Reaches, SortedBy;
    OpensIff(sorted, i, cur);
    CloseReaches(sorted, i, cur);
    assert sorted[..i + 1] == sorted[..i] + [sorted[i]];
    UnionAppend(sorted[..i], sorted[i]);
    LinesCount(cur);
    assert past * Lines(cur) == {};
  }

  lemma CloseReaches(sorted: seq<Interval>, i: nat, cur: Interval)
    requires i < |sorted| && SortedBy(ByStart(), sorted) && Reaches(sorted, i, cur) && sorted[i].lo > cur.hi
    ensures cur.lo <= sorted[i].lo && Reaches(sorted, i + 1, sorted[i])
  {
    forall j | i < j < |sorted|
      ensures sorted[i].lo <= sorted[j].lo
    {
      assert ByStart()(sorted[i], sorted[j]);
    }
  }

  lemma StartSweep(sorted: seq<Interval>)
    requires sorted != [] && SortedBy(ByStart(), sorted)
    ensures Swept(sorted, 1, 0, sorted[0], {})
  {
    assert sorted[..1] == [] + [sorted[0]];
    UnionAppend([], sorted[0]);
    assert OpensGroup(sorted, 0) && Shortfall(sorted, 1) == Deficit(sorted[0]);
    forall j | 1 <= j < |sorted|
      ensures sorted[0].lo <= sorted[j].lo
    {
      assert ByStart()(sorted[0], sorted[j]);
    }
  }

  lemma {:induction false} SweepMeasures(sorted: seq<Interval>, i: nat, total: int, cur: Interval, past: set<int>)
    requires i <= |sorted| && SortedBy(ByStart(), sorted) && Swept(sorted, i, total, cur, past)
    ensures Sweep(sorted[i..], total, cur) == |Union(sorted)| - Shortfall(sorted, |sorted|)
    decreases |sorted| - i
  {
    hide Union, Swept, Shortfall, SortedBy;
    if i == |sorted| {
      SweptAll(sorted, total, cur, past);
    } else {
      assert sorted[i..][0] == sorted[i] && sorted[i..][1..] == sorted[i + 1..];
      if sorted[i].lo <= cur.hi {
        Widen(sorted, i, total, cur, past);
        SweepMeasures(sorted, i + 1, total, Wider(cur, sorted[i]), past);
      } else {
        Close(sorted, i, total, cur, past);
        SweepMeasures(sorted, i + 1, total + cur.hi - cur.lo, sorted[i], past + Lines(cur));
      }
    }
  }

  lemma SweptAll(sorted: seq<Interval>, total: int, cur: Interval, past: set<int>)
    requires Swept(sorted, |sorted|, total, cur, past)
    ensures total + cur.hi - cur.lo == |Union(sorted)| - Shortfall(sorted, |sorted|)
  {
    hide Union, Shortfall, Reaches;
    assert sorted[..|sorted|] == sorted;
    LinesCount(cur);
    assert past * Lines(cur) == {};
  }

  /** For intervals of any shape: the number of lines covered, less what backward openers take off. */
  lemma MergedMeasures(intervals: seq<Interval>)
    ensures var sorted := Sort(ByStart(), intervals);
      Merged(intervals) == |Union(intervals)| - Shortfall(sorted, |sorted|)
  {
    hide Union, Swept, SortedBy;
    UnionSorted(intervals);
    var sorted := Sort(ByStart(), intervals);
    if sorted == [] {
      NothingCovered();
    } else {
      StartSweep(sorted);
      SweepMeasures(sorted, 1, 0, sorted[0], {});
    }
  }

  lemma NothingCovered()
    ensures Union([]) == {}
  {
  }

  lemma {:induction false} ShortfallZero(sorted: seq<Interval>, n: nat)
    requires n <= |sorted|
    ensures Shortfall(sorted, n) == 0 <==> forall j :: 0 <= j < n && OpensGroup(sorted, j) ==> !Backward(sorted[j])
  {
    hide OpensGroup;
    if n > 0 {
      ShortfallZero(sorted, n - 1);
    }
  }

  /** The sweep counts each covered line once if and only if no group of the stable sweep opens backwards. */
  lemma MergedIsMeasureIff(intervals: seq<Interval>)
    ensures var sorted := Sort(ByStart(), intervals);
      Merged(intervals) == |Union(intervals)| <==>
      forall j :: 0 <= j < |sorted| && OpensGroup(sorted, j) ==> !Backward(sorted[j])
  {
    hide Merged, Union, OpensGroup;
    MergedMeasures(intervals);
    ShortfallZero(Sort(ByStart(), intervals), |Sort(ByStart(), intervals)|);
  }

  /** In particular for intervals that do not run backwards, in whatever order they come and however they overlap. */
  lemma MergedIsMeasure(intervals: seq<Interval>)
    requires Ordered(intervals)
    ensures Merged(intervals) == |Union(intervals)|
  {
    hide Merged, Union, OpensGroup;
    MergedIsMeasureIff(intervals);
    UnionSorted(intervals);
    var sorted := Sort(ByStart(), intervals);
    assert forall j :: 0 <= j < |sorted| ==> sorted[j] in sorted;
  }
}
