/** When the order in which intervals arrive shows in their merged length. */
module IntervalOrder {
  import opened Sorting
  import opened Intervals

  /** A backward interval that nothing starting before it reaches. */
  predicate Stranded(ivs: seq<Interval>, iv: Interval) {
    Backward(iv) && forall o :: o in ivs && o.lo < iv.lo ==> o.hi < iv.lo
  }

  /** A stranded interval shares its start with one that does not run backwards: which comes first decides. */
  ghost predicate Tied(ivs: seq<Interval>, b: Interval, t: Interval) {
    b in ivs && t in ivs && Stranded(ivs, b) && !Backward(t) && t.lo == b.lo
  }

  function Sum(f: Interval -> nat, s: seq<Interval>): nat {
    if s == [] then 0 else Sum(f, s[..|s| - 1]) + f(s[|s| - 1])
  }

  function LossOf(ivs: seq<Interval>, iv: Interval): nat {
    if Stranded(ivs, iv) then Deficit(iv) else 0
  }

  function Loss(ivs: seq<Interval>): Interval -> nat {
    (iv: Interval) => LossOf(ivs, iv)
  }

  function LossWithout(ivs: seq<Interval>, b: Interval): Interval -> nat {
    (iv: Interval) => if iv == b then 0 else LossOf(ivs, iv)
  }

  lemma {:induction false} SumSplits(f: Interval -> nat, a: seq<Interval>, b: seq<Interval>)
    ensures Sum(f, a + b) == Sum(f, a) + Sum(f, b)
  {
    if b == [] {
      assert a + b == a;
    } else {
      var front := b[..|b| - 1];
      SumSplits(f, a, front);
      assert (a + b)[..|a + b| - 1] == a + front;
    }
  }

  lemma {:induction false} SumPermutes(f: Interval -> nat, a: seq<Interval>, b: seq<Interval>)
    requires multiset(a) == multiset(b)
    ensures Sum(f, a) == Sum(f, b)
    decreases |a|
  {
    if a == [] {
      assert |b| == |multiset(b)| == 0;
    } else {
      var x := a[|a| - 1];
      assert x in multiset(b);
      var k :| 0 <= k < |b| && b[k] == x;
      DropLast(a);
      SumDrops(f, b, k);
      SumPermutes(f, a[..|a| - 1], b[..k] + b[k + 1..]);
    }
  }

  lemma SumDrops(f: Interval -> nat, b: seq<Interval>, k: nat)
    requires k < |b|
    ensures var rest := b[..k] + b[k + 1..];
      multiset(b) == multiset(rest) + multiset{b[k]} && Sum(f, b) == Sum(f, rest) + f(b[k])
  {
    var front, back := b[..k], b[k + 1..];
    DropMiddle(front, b[k], back);
    assert b == front + [b[k]] + back;
    SumSplits(f, front, back);
    SumSplits(f, front + [b[k]], back);
    SumSplits(f, front, [b[k]]);
    SumOne(f, b[k]);
  }

  lemma SumOne(f: Interval -> nat, x: Interval)
    ensures Sum(f, [x]) == f(x)
  {
    assert [x][..0] == [];
  }

  lemma {:induction false} SumWithout(ivs: seq<Interval>, b: Interval, s: seq<Interval>)
    requires Stranded(ivs, b)
    ensures Sum(LossWithout(ivs, b), s) <= Sum(Loss(ivs), s)
    ensures b in s ==> Sum(LossWithout(ivs, b), s) < Sum(Loss(ivs), s)
  {
    hide Stranded;
    if s != [] {
      SumWithout(ivs, b, s[..|s| - 1]);
      StrandedLoses(ivs, b);
    }
  }

  lemma StrandedLoses(ivs: seq<Interval>, b: Interval)
    requires Stranded(ivs, b)
    ensures Loss(ivs)(b) > 0
  {
  }

  /** What a sorted interval takes off the total. */
  function Weight(sorted: seq<Interval>, j: nat): nat
    requires j < |sorted|
  {
    if OpensGroup(sorted, j) then Deficit(sorted[j]) else 0
  }

  lemma {:induction false} ShortfallIs(f: Interval -> nat, sorted: seq<Interval>, n: nat)
    requires n <= |sorted| && forall j :: 0 <= j < n ==> Weight(sorted, j) == f(sorted[j])
    ensures Shortfall(sorted, n) == Sum(f, sorted[..n])
  {
    if n > 0 {
      hide OpensGroup;
      ShortfallIs(f, sorted, n - 1);
      assert Weight(sorted, n - 1) == f(sorted[n - 1]);
      assert sorted[..n][..n - 1] == sorted[..n - 1];
    }
  }

  lemma {:induction false} ShortfallAtMost(f: Interval -> nat, sorted: seq<Interval>, n: nat)
    requires n <= |sorted| && forall j :: 0 <= j < n ==> Weight(sorted, j) <= f(sorted[j])
    ensures Shortfall(sorted, n) <= Sum(f, sorted[..n])
  {
    if n > 0 {
      hide OpensGroup;
      ShortfallAtMost(f, sorted, n - 1);
      assert Weight(sorted, n - 1) <= f(sorted[n - 1]);
      assert sorted[..n][..n - 1] == sorted[..n - 1];
    }
  }

  // ----- openers

  lemma Before(sorted: seq<Interval>, i: nat, j: nat)
    requires SortedBy(ByStart(), sorted) && i < |sorted| && j < |sorted|
    ensures sorted[i].lo < sorted[j].lo ==> i < j
    ensures i < j ==> sorted[i].lo <= sorted[j].lo
  {
    if j < i {
      assert ByStart()(sorted[j], sorted[i]);
    }
    if i < j {
      assert ByStart()(sorted[i], sorted[j]);
    }
  }

  /** A backward opener is stranded. */
  lemma OpenerStranded(ivs: seq<Interval>, sorted: seq<Interval>, j: nat)
    requires SortedBy(ByStart(), sorted) && (forall iv :: iv in sorted <==> iv in ivs)
    requires j < |sorted| && OpensGroup(sorted, j) && Backward(sorted[j])
    ensures Stranded(ivs, sorted[j])
  {
    forall o | o in ivs && o.lo < sorted[j].lo
      ensures o.hi < sorted[j].lo
    {
      var i :| 0 <= i < |sorted| && sorted[i] == o;
      Before(sorted, i, j);
    }
  }

  /** And a stranded interval opens a group if all that share its start before it run backwards. */
  lemma StrandedOpens(ivs: seq<Interval>, sorted: seq<Interval>, j: nat)
    requires SortedBy(ByStart(), sorted) && (forall iv :: iv in sorted <==> iv in ivs)
    requires j < |sorted| && Stranded(ivs, sorted[j])
    requires forall i :: 0 <= i < j && sorted[i].lo == sorted[j].lo ==> Backward(sorted[i])
    ensures OpensGroup(sorted, j)
  {
    forall i | 0 <= i < j
      ensures sorted[i].hi < sorted[j].lo
    {
      Before(sorted, i, j);
      assert sorted[i] in ivs;
    }
  }

  /** In every such order the shortfall is the loss of the stranded intervals. */
  lemma ShortfallIsLoss(ivs: seq<Interval>, sorted: seq<Interval>)
    requires SortedBy(ByStart(), sorted) && multiset(sorted) == multiset(ivs) && (forall iv :: iv in sorted <==> iv in ivs)
    requires forall i, j :: 0 <= i < j < |sorted| && sorted[i].lo == sorted[j].lo && Stranded(ivs, sorted[j]) ==> Backward(sorted[i])
    ensures Shortfall(sorted, |sorted|) == Sum(Loss(ivs), ivs)
  {
    forall j | 0 <= j < |sorted|
      ensures Weight(sorted, j) == Loss(ivs)(sorted[j])
    {
      if Stranded(ivs, sorted[j]) {
        StrandedOpens(ivs, sorted, j);
      } else if OpensGroup(sorted, j) && Backward(sorted[j]) {
        OpenerStranded(ivs, sorted, j);
      }
    }
    ShortfallIs(Loss(ivs), sorted, |sorted|);
    assert sorted[..|sorted|] == sorted;
    SumPermutes(Loss(ivs), sorted, ivs);
  }

  /** With an interval of its start before it, a stranded one takes nothing off. */
  lemma ShortfallLess(ivs: seq<Interval>, sorted: seq<Interval>, b: Interval)
    requires SortedBy(ByStart(), sorted) && multiset(sorted) == multiset(ivs) && (forall iv :: iv in sorted <==> iv in ivs)
    requires b in ivs && Stranded(ivs, b)
    requires forall j :: 0 <= j < |sorted| && sorted[j] == b ==> !OpensGroup(sorted, j)
    ensures Shortfall(sorted, |sorted|) < Sum(Loss(ivs), ivs)
  {
    forall j | 0 <= j < |sorted|
      ensures Weight(sorted, j) <= LossWithout(ivs, b)(sorted[j])
    {
      if OpensGroup(sorted, j) && Backward(sorted[j]) {
        OpenerStranded(ivs, sorted, j);
      }
    }
    ShortfallAtMost(LossWithout(ivs, b), sorted, |sorted|);
    assert sorted[..|sorted|] == sorted;
    SumWithout(ivs, b, sorted);
    SumPermutes(Loss(ivs), sorted, ivs);
  }

  // ----- ties in a stable sort

  function AtStart(lo: int): Interval -> bool {
    (iv: Interval) => iv.lo == lo
  }

  /** The place of an element among those a filter keeps. */
  lemma {:induction false} FilterPlace<T>(keep: T -> bool, s: seq<T>, i: nat)
    requires i < |s| && keep(s[i])
    ensures var f := Filter(keep, s); var k := |Filter(keep, s[..i])|; k < |f| && f[k] == s[i]
    decreases |s|
  {
    var front := s[..|s| - 1];
    if i < |front| {
      FilterPlace(keep, front, i);
      assert front[..i] == s[..i];
    } else {
      assert front == s[..i];
    }
  }

  lemma {:induction false} FilterShorter<T>(keep: T -> bool, s: seq<T>, i: nat, j: nat)
    requires i < j <= |s| && keep(s[i])
    ensures |Filter(keep, s[..i])| < |Filter(keep, s[..j])|
    decreases j
  {
    assert s[..j][..j - 1] == s[..j - 1];
    if i < j - 1 {
      FilterShorter(keep, s, i, j - 1);
    }
  }

  /** Places in a list whose kept elements are those of `x`, then those of `y`. */
  lemma PlacesSplit<T>(keep: T -> bool, s: seq<T>, x: seq<T>, y: seq<T>, p: T -> bool, i: nat, j: nat)
    requires Filter(keep, s) == x + y && (forall e :: e in x ==> p(e)) && (forall e :: e in y ==> !p(e))
    requires i < j < |s| && keep(s[i]) && keep(s[j]) && p(s[j])
    ensures p(s[i])
  {
    FilterPlace(keep, s, i);
    FilterPlace(keep, s, j);
    FilterShorter(keep, s, i, j);
    var a, b := |Filter(keep, s[..i])|, |Filter(keep, s[..j])|;
    hide Filter;
    assert forall k :: |x| <= k < |x + y| ==> (x + y)[k] in y;
    assert forall k :: 0 <= k < |x| ==> (x + y)[k] in x;
    assert a < b < |x|;
  }

  /** Of two intervals with one start, the sort keeps apart those of `first` and those of `second`. */
  lemma TieOrder(first: seq<Interval>, second: seq<Interval>, p: Interval -> bool, i: nat, j: nat)
    requires (forall iv :: iv in first ==> p(iv)) && (forall iv :: iv in second ==> !p(iv))
    requires i < j < |Sort(ByStart(), first + second)|
    requires var sorted := Sort(ByStart(), first + second); sorted[i].lo == sorted[j].lo && p(sorted[j])
    ensures p(Sort(ByStart(), first + second)[i])
  {
    hide Filter, Sort;
    var sorted := Sort(ByStart(), first + second);
    var keep := AtStart(sorted[i].lo);
    SortIsStable(ByStart(), first + second, keep);
    FilterSplits(keep, first, second);
    FilterMembers(keep, first);
    FilterMembers(keep, second);
    PlacesSplit(keep, sorted, Filter(keep, first), Filter(keep, second), p, i, j);
  }

  // ----- the two orders

  function Backwards(ivs: seq<Interval>): seq<Interval> {
    Filter((iv: Interval) => Backward(iv), ivs)
  }

  function Forwards(ivs: seq<Interval>): seq<Interval> {
    Filter((iv: Interval) => !Backward(iv), ivs)
  }

  lemma BothParts(ivs: seq<Interval>)
    ensures multiset(Backwards(ivs) + Forwards(ivs)) == multiset(ivs)
    ensures multiset(Forwards(ivs) + Backwards(ivs)) == multiset(ivs)
    ensures forall iv :: iv in Backwards(ivs) <==> iv in ivs && Backward(iv)
    ensures forall iv :: iv in Forwards(ivs) <==> iv in ivs && !Backward(iv)
  {
    hide Filter, Backward;
    var p, q := (iv: Interval) => Backward(iv), (iv: Interval) => !Backward(iv);
    FilterPartition(p, q, ivs);
    FilterMembers(p, ivs);
    FilterMembers(q, ivs);
  }

  lemma SameElements(ivs: seq<Interval>, other: seq<Interval>)
    requires multiset(other) == multiset(ivs)
    ensures Union(other) == Union(ivs) && forall iv :: iv in other <==> iv in ivs
  {
    forall iv
      ensures iv in other <==> iv in ivs
    {
      assert iv in other <==> iv in multiset(other);
      assert iv in ivs <==> iv in multiset(ivs);
    }
  }

  /** With the backward intervals first, every stranded one counts. */
  lemma BackwardsFirst(ivs: seq<Interval>)
    ensures Merged(Backwards(ivs) + Forwards(ivs)) == |Union(ivs)| - Sum(Loss(ivs), ivs)
  {
    hide Merged, Union, Stranded, SortedBy, Shortfall;
    var p, order := (iv: Interval) => Backward(iv), Backwards(ivs) + Forwards(ivs);
    var sorted := Sort(ByStart(), order);
    BothParts(ivs);
    SameElements(ivs, order);
    UnionSorted(order);
    MergedMeasures(order);
    forall i, j | 0 <= i < j < |sorted| && sorted[i].lo == sorted[j].lo && Stranded(ivs, sorted[j])
      ensures Backward(sorted[i])
    {
      StrandedIsBackward(ivs, sorted[j]);
      TieOrder(Backwards(ivs), Forwards(ivs), p, i, j);
    }
    ShortfallIsLoss(ivs, sorted);
  }

  lemma StrandedIsBackward(ivs: seq<Interval>, iv: Interval)
    requires Stranded(ivs, iv)
    ensures Backward(iv)
  {
  }

  lemma NeverOpens(ivs: seq<Interval>, b: Interval, t: Interval)
    requires Tied(ivs, b, t)
    ensures var sorted := Sort(ByStart(), Forwards(ivs) + Backwards(ivs));
      forall j :: 0 <= j < |sorted| && sorted[j] == b ==> !OpensGroup(sorted, j)
  {
    hide Stranded, SortedBy, Sort, Union, Filter;
    var p, order := (iv: Interval) => !Backward(iv), Forwards(ivs) + Backwards(ivs);
    var sorted := Sort(ByStart(), order);
    BothParts(ivs);
    SameElements(ivs, order);
    UnionSorted(order);
    StrandedIsBackward(ivs, b);
    forall j | 0 <= j < |sorted| && sorted[j] == b
      ensures !OpensGroup(sorted, j)
    {
      assert t in sorted;
      var i :| 0 <= i < |sorted| && sorted[i] == t;
      if j < i {
        TieOrder(Forwards(ivs), Backwards(ivs), p, j, i);
      }
    }
  }

  /** With the others first, a tied one does not. */
  lemma ForwardsFirst(ivs: seq<Interval>, b: Interval, t: Interval)
    requires Tied(ivs, b, t)
    ensures Merged(Forwards(ivs) + Backwards(ivs)) > |Union(ivs)| - Sum(Loss(ivs), ivs)
  {
    hide Merged, Union, Stranded, SortedBy, Shortfall;
    var order := Forwards(ivs) + Backwards(ivs);
    var sorted := Sort(ByStart(), order);
    BothParts(ivs);
    SameElements(ivs, order);
    UnionSorted(order);
    MergedMeasures(order);
    NeverOpens(ivs, b, t);
    ShortfallLess(ivs, sorted, b);
  }

  /** Without ties every order loses the same. */
  lemma Untied(ivs: seq<Interval>, other: seq<Interval>)
    requires multiset(other) == multiset(ivs) && forall b, t :: !Tied(ivs, b, t)
    ensures Merged(other) == |Union(ivs)| - Sum(Loss(ivs), ivs)
  {
    hide Merged, Union, Stranded, SortedBy, Shortfall;
    var sorted := Sort(ByStart(), other);
    SameElements(ivs, other);
    UnionSorted(other);
    MergedMeasures(other);
    forall i, j | 0 <= i < j < |sorted| && sorted[i].lo == sorted[j].lo && Stranded(ivs, sorted[j])
      ensures Backward(sorted[i])
    {
      assert sorted[i] in other && sorted[j] in other;
      assert !Tied(ivs, sorted[j], sorted[i]);
    }
    ShortfallIsLoss(ivs, sorted);
  }

  /** The merged length is the same for every order if and only if no backward interval that nothing earlier reaches
      shares its start with one that does not run backwards. */
  lemma OrderFreeIff(ivs: seq<Interval>)
    ensures (forall other :: multiset(other) == multiset(ivs) ==> Merged(other) == Merged(ivs))
      <==> (forall b, t :: !Tied(ivs, b, t))
  {
    hide Merged, Union, Tied, Backwards, Forwards, Loss;
    if b, t :| Tied(ivs, b, t) {
      BothParts(ivs);
      BackwardsFirst(ivs);
      ForwardsFirst(ivs, b, t);
      assert Merged(Backwards(ivs) + Forwards(ivs)) != Merged(Forwards(ivs) + Backwards(ivs));
    } else {
      Untied(ivs, ivs);
      forall other | multiset(other) == multiset(ivs)
        ensures Merged(other) == Merged(ivs)
      {
        Untied(ivs, other);
      }
    }
  }

  /** Two reads from line five, three lines forwards and three backwards, in both orders. */
  lemma OrderShows()
    ensures Merged([Interval(5, 8), Interval(5, 2)]) == 3 && Merged([Interval(5, 2), Interval(5, 8)]) == 0
  {
    SortedStays(ByStart(), [Interval(5, 8), Interval(5, 2)]);
    SortedStays(ByStart(), [Interval(5, 2), Interval(5, 8)]);
  }
}
