/** The stable comparison sort every component relies on (`Array.prototype.sort`).
    `Sort` is characterised completely: it permutes, it sorts, and it keeps
    the input order of elements the comparator cannot tell apart. */
module Sorting {

  /** `x` reaches `z` through `y`; asserting it is how a proof uses transitivity. */
  ghost predicate Via<T>(leq: (T, T) -> bool, x: T, y: T, z: T) {
    leq(x, y) && leq(y, z)
  }

  ghost predicate TotalPreorder<T(!new)>(leq: (T, T) -> bool) {
    && (forall x, y :: leq(x, y) || leq(y, x))
    && (forall x, y, z :: Via(leq, x, y, z) ==> leq(x, z))
  }

  ghost predicate SortedBy<T>(leq: (T, T) -> bool, s: seq<T>) {
    forall i, j :: 0 <= i < j < |s| ==> leq(s[i], s[j])
  }

  /** The comparator tells any two elements of `s` apart. */
  ghost predicate Strict<T>(leq: (T, T) -> bool, s: seq<T>) {
    forall x, y :: x in s && y in s && leq(x, y) && leq(y, x) ==> x == y
  }

  ghost predicate Distinct<T>(s: seq<T>) {
    forall i, j :: 0 <= i < j < |s| ==> s[i] != s[j]
  }

  function Insert<T>(leq: (T, T) -> bool, s: seq<T>, x: T): seq<T> {
    if s == [] then [x]
    else if leq(s[|s| - 1], x) then s + [x]
    else Insert(leq, s[..|s| - 1], x) + [s[|s| - 1]]
  }

  function Sort<T>(leq: (T, T) -> bool, s: seq<T>): seq<T> {
    if s == [] then [] else Insert(leq, Sort(leq, s[..|s| - 1]), s[|s| - 1])
  }

  function Filter<T>(keep: T -> bool, s: seq<T>): seq<T> {
    if s == [] then []
    else Filter(keep, s[..|s| - 1]) + if keep(s[|s| - 1]) then [s[|s| - 1]] else []
  }

  lemma {:induction false} InsertPermutes<T>(leq: (T, T) -> bool, s: seq<T>, x: T)
    ensures multiset(Insert(leq, s, x)) == multiset(s) + multiset{x}
  {
    if s != [] {
      assert s == s[..|s| - 1] + [s[|s| - 1]];
      if !leq(s[|s| - 1], x) {
        InsertPermutes(leq, s[..|s| - 1], x);
      }
    }
  }

  lemma {:induction false} SortPermutes<T>(leq: (T, T) -> bool, s: seq<T>)
    ensures multiset(Sort(leq, s)) == multiset(s)
    ensures |Sort(leq, s)| == |s|
    ensures forall x :: x in Sort(leq, s) <==> x in s
  {
    if s != [] {
      assert s == s[..|s| - 1] + [s[|s| - 1]];
      SortPermutes(leq, s[..|s| - 1]);
      InsertPermutes(leq, Sort(leq, s[..|s| - 1]), s[|s| - 1]);
    }
    assert |multiset(Sort(leq, s))| == |Sort(leq, s)|;
    forall x
      ensures x in Sort(leq, s) <==> x in s
    {
      assert x in Sort(leq, s) <==> x in multiset(Sort(leq, s));
      assert x in s <==> x in multiset(s);
    }
  }

  lemma AppendSorts<T(!new)>(leq: (T, T) -> bool, s: seq<T>, x: T)
    requires TotalPreorder(leq) && SortedBy(leq, s)
    requires s != [] ==> leq(s[|s| - 1], x)
    ensures SortedBy(leq, s + [x])
  {
    var r := s + [x];
    forall i, j | 0 <= i < j < |r|
      ensures leq(r[i], r[j])
    {
      if j == |s| && i < |s| - 1 {
        assert Via(leq, s[i], s[|s| - 1], x);
      }
    }
  }

  lemma {:induction false} InsertSorts<T(!new)>(leq: (T, T) -> bool, s: seq<T>, x: T)
    requires TotalPreorder(leq) && SortedBy(leq, s)
    ensures SortedBy(leq, Insert(leq, s, x))
  {
    if s == [] || leq(s[|s| - 1], x) {
      AppendSorts(leq, s, x);
    } else {
      var front, last := s[..|s| - 1], s[|s| - 1];
      InsertSorts(leq, front, x);
      InsertPermutes(leq, front, x);
      var r := Insert(leq, front, x);
      assert forall y :: y in multiset(r) ==> y in multiset(front) || y == x;
      if r != [] {
        assert r[|r| - 1] in multiset(r);
      }
      AppendSorts(leq, r, last);
    }
  }

  lemma {:induction false} SortSorts<T(!new)>(leq: (T, T) -> bool, s: seq<T>)
    requires TotalPreorder(leq)
    ensures SortedBy(leq, Sort(leq, s))
  {
    if s != [] {
      SortSorts(leq, s[..|s| - 1]);
      InsertSorts(leq, Sort(leq, s[..|s| - 1]), s[|s| - 1]);
    }
  }

  lemma {:induction false} FilterAppend<T>(keep: T -> bool, s: seq<T>, x: T)
    ensures Filter(keep, s + [x]) == Filter(keep, s) + if keep(x) then [x] else []
  {
    assert (s + [x])[..|s|] == s;
  }

  lemma {:induction false} FilterMembers<T>(keep: T -> bool, s: seq<T>)
    ensures forall x :: x in Filter(keep, s) <==> x in s && keep(x)
  {
    if s != [] {
      assert s == s[..|s| - 1] + [s[|s| - 1]];
      FilterMembers(keep, s[..|s| - 1]);
    }
  }

  lemma {:induction false} FilterAll<T>(keep: T -> bool, s: seq<T>)
    requires forall i :: 0 <= i < |s| ==> keep(s[i])
    ensures Filter(keep, s) == s
  {
    if s != [] {
      FilterAll(keep, s[..|s| - 1]);
      assert s == s[..|s| - 1] + [s[|s| - 1]];
    }
  }

  lemma {:induction false} FilterNone<T>(keep: T -> bool, s: seq<T>)
    requires forall i :: 0 <= i < |s| ==> !keep(s[i])
    ensures Filter(keep, s) == []
  {
    if s != [] {
      FilterNone(keep, s[..|s| - 1]);
    }
  }

  lemma {:induction false} FilterSplits<T>(keep: T -> bool, a: seq<T>, b: seq<T>)
    ensures Filter(keep, a + b) == Filter(keep, a) + Filter(keep, b)
  {
    if b == [] {
      assert a + b == a;
    } else {
      FilterSplits(keep, a, b[..|b| - 1]);
      assert (a + b)[..|a + b| - 1] == a + b[..|b| - 1];
    }
  }

  lemma FilterDrops<T>(keep: T -> bool, s: seq<T>, k: nat)
    requires k < |s|
    ensures var rest := s[..k] + s[k + 1..];
      && multiset(s) == multiset(rest) + multiset{s[k]}
      && multiset(Filter(keep, s)) == multiset(Filter(keep, rest)) + if keep(s[k]) then multiset{s[k]} else multiset{}
  {
    var front, back := s[..k], s[k + 1..];
    DropMiddle(front, s[k], back);
    assert s == front + [s[k]] + back;
    FilterSplits(keep, front, back);
    FilterSplits(keep, front + [s[k]], back);
    FilterAppend(keep, front, s[k]);
  }

  lemma {:induction false} FilterPermutes<T>(keep: T -> bool, s: seq<T>, t: seq<T>)
    requires multiset(s) == multiset(t)
    ensures multiset(Filter(keep, s)) == multiset(Filter(keep, t))
    decreases |s|
  {
    hide Filter;
    if s == [] {
      assert |t| == |multiset(t)| == 0;
    } else {
      var n := |s| - 1;
      assert s[n] in multiset(t);
      var k :| 0 <= k < |t| && t[k] == s[n];
      FilterDrops(keep, s, n);
      FilterDrops(keep, t, k);
      DropBoth(s, t, n, k);
      FilterPermutes(keep, s[..n] + s[n + 1..], t[..k] + t[k + 1..]);
    }
  }

  /** Two opposite filters part a list. */
  lemma {:induction false} FilterPartition<T>(p: T -> bool, q: T -> bool, s: seq<T>)
    requires forall x :: x in s ==> (q(x) <==> !p(x))
    ensures multiset(Filter(p, s)) + multiset(Filter(q, s)) == multiset(s)
  {
    if s != [] {
      assert s == s[..|s| - 1] + [s[|s| - 1]];
      FilterPartition(p, q, s[..|s| - 1]);
    }
  }

  lemma {:induction false} FilterDistinct<T>(keep: T -> bool, s: seq<T>)
    requires Distinct(s)
    ensures Distinct(Filter(keep, s))
  {
    if s != [] {
      var front := s[..|s| - 1];
      FilterDistinct(keep, front);
      FilterMembers(keep, front);
      assert s[|s| - 1] !in front;
    }
  }

  lemma {:induction false} InsertStable<T(!new)>(leq: (T, T) -> bool, s: seq<T>, x: T, keep: T -> bool)
    requires TotalPreorder(leq)
    requires forall y, z :: keep(y) && keep(z) ==> leq(y, z)
    ensures Filter(keep, Insert(leq, s, x)) == Filter(keep, s + [x])
  {
    FilterAppend(keep, s, x);
    if s != [] && !leq(s[|s| - 1], x) {
      var front, last := s[..|s| - 1], s[|s| - 1];
      assert s == front + [last];
      InsertStable(leq, front, x, keep);
      FilterAppend(keep, front, x);
      FilterAppend(keep, front, last);
      FilterAppend(keep, Insert(leq, front, x), last);
      assert !(keep(last) && keep(x));
    }
  }

  /** Elements the comparator ties keep their input order. */
  lemma {:induction false} SortIsStable<T(!new)>(leq: (T, T) -> bool, s: seq<T>, keep: T -> bool)
    requires TotalPreorder(leq)
    requires forall y, z :: keep(y) && keep(z) ==> leq(y, z)
    ensures Filter(keep, Sort(leq, s)) == Filter(keep, s)
  {
    if s != [] {
      var front, last := s[..|s| - 1], s[|s| - 1];
      assert s == front + [last];
      SortIsStable(leq, front, keep);
      InsertStable(leq, Sort(leq, front), last, keep);
      FilterAppend(keep, Sort(leq, front), last);
      FilterAppend(keep, front, last);
    }
  }

  lemma LastIsGreatest<T(!new)>(leq: (T, T) -> bool, a: seq<T>, y: T)
    requires TotalPreorder(leq) && SortedBy(leq, a) && y in a
    ensures leq(y, a[|a| - 1])
  {
    assert leq(y, y);
  }

  lemma LastsAgree<T(!new)>(leq: (T, T) -> bool, a: seq<T>, b: seq<T>)
    requires TotalPreorder(leq) && Strict(leq, a) && a != [] && b != []
    requires SortedBy(leq, a) && SortedBy(leq, b) && multiset(a) == multiset(b)
    ensures a[|a| - 1] == b[|b| - 1]
  {
    var x, y := a[|a| - 1], b[|b| - 1];
    assert x in multiset(b) && y in multiset(a);
    LastIsGreatest(leq, a, y);
    LastIsGreatest(leq, b, x);
  }

  lemma DropLast<T>(a: seq<T>)
    requires a != []
    ensures a == a[..|a| - 1] + [a[|a| - 1]]
    ensures multiset(a[..|a| - 1]) == multiset(a) - multiset{a[|a| - 1]}
  {
    assert a == a[..|a| - 1] + [a[|a| - 1]];
  }

  lemma DropOne<T>(s: seq<T>, n: nat)
    requires n < |s|
    ensures multiset(s[..n] + s[n + 1..]) == multiset(s) - multiset{s[n]}
  {
    DropMiddle(s[..n], s[n], s[n + 1..]);
    assert s == s[..n] + [s[n]] + s[n + 1..];
  }

  /** Permutations stay permutations when the same element is taken out of both. */
  lemma DropBoth<T>(s: seq<T>, t: seq<T>, n: nat, k: nat)
    requires multiset(s) == multiset(t) && n < |s| && k < |t| && s[n] == t[k]
    ensures multiset(s[..n] + s[n + 1..]) == multiset(t[..k] + t[k + 1..])
  {
    DropOne(s, n);
    DropOne(t, k);
  }

  /** Where an element of `s` is in a permutation of it. */
  lemma PlaceIn<T>(s: seq<T>, t: seq<T>, n: nat) returns (k: nat)
    requires multiset(s) == multiset(t) && n < |s|
    ensures k < |t| && t[k] == s[n]
  {
    assert s[n] in multiset(t);
    k :| 0 <= k < |t| && t[k] == s[n];
  }

  lemma DropMiddle<T>(front: seq<T>, x: T, back: seq<T>)
    ensures multiset(front + [x] + back) == multiset(front + back) + multiset{x}
  {
  }

  /** A strict order leaves one way to list a multiset in order. */
  lemma {:induction false} SortedUnique<T(!new)>(leq: (T, T) -> bool, a: seq<T>, b: seq<T>)
    requires TotalPreorder(leq) && Strict(leq, a)
    requires SortedBy(leq, a) && SortedBy(leq, b) && multiset(a) == multiset(b)
    ensures a == b
  {
    assert |a| == |multiset(a)| == |multiset(b)| == |b|;
    if a != [] {
      LastsAgree(leq, a, b);
      DropLast(a);
      DropLast(b);
      SortedPrefix(leq, a, |a| - 1);
      SortedPrefix(leq, b, |b| - 1);
      StrictPrefix(leq, a, a[..|a| - 1]);
      SortedUnique(leq, a[..|a| - 1], b[..|b| - 1]);
    }
  }

  lemma SortedPrefix<T>(leq: (T, T) -> bool, a: seq<T>, n: nat)
    requires SortedBy(leq, a) && n <= |a|
    ensures SortedBy(leq, a[..n])
  {
  }

  lemma StrictPrefix<T>(leq: (T, T) -> bool, a: seq<T>, b: seq<T>)
    requires Strict(leq, a) && forall x :: x in b ==> x in a
    ensures Strict(leq, b)
  {
  }

  /** Sorting by a strict order forgets the input order. */
  lemma SortCanonical<T(!new)>(leq: (T, T) -> bool, a: seq<T>, b: seq<T>)
    requires TotalPreorder(leq) && Strict(leq, a) && multiset(a) == multiset(b)
    ensures Sort(leq, a) == Sort(leq, b)
  {
    SortSorts(leq, a);
    SortSorts(leq, b);
    SortPermutes(leq, a);
    SortPermutes(leq, b);
    SortedUnique(leq, Sort(leq, a), Sort(leq, b));
  }

  lemma DistinctByMultiset<T>(a: seq<T>, b: seq<T>)
    requires Distinct(a) && multiset(a) == multiset(b)
    ensures Distinct(b)
  {
    DistinctCounts(a);
    forall i, j | 0 <= i < j < |b|
      ensures b[i] != b[j]
    {
      RepeatCounts(b, i, j);
      assert b[j] in multiset(b);
    }
  }

  lemma RepeatCounts<T>(b: seq<T>, i: nat, j: nat)
    requires i < j < |b|
    ensures b[i] == b[j] ==> multiset(b)[b[j]] >= 2
  {
    assert b == b[..j] + [b[j]] + b[j + 1..];
    assert b[..j][i] in multiset(b[..j]);
  }

  lemma {:induction false} DistinctCounts<T>(a: seq<T>)
    requires Distinct(a)
    ensures forall x :: x in a ==> multiset(a)[x] == 1
  {
    if a != [] {
      var front := a[..|a| - 1];
      assert a == front + [a[|a| - 1]];
      DistinctCounts(front);
      forall x | x in a
        ensures multiset(a)[x] == 1
      {
        if x == a[|a| - 1] {
          assert x !in front;
          assert multiset(front)[x] == 0;
        }
      }
    }
  }

  /** Two duplicate-free listings of the same elements are permutations of each other. */
  lemma SameElementsPermute<T>(a: seq<T>, b: seq<T>)
    requires Distinct(a) && Distinct(b)
    requires forall x :: x in a <==> x in b
    ensures multiset(a) == multiset(b)
  {
    DistinctCounts(a);
    DistinctCounts(b);
    forall x: T
      ensures multiset(a)[x] == multiset(b)[x]
    {
      assert x in a <==> multiset(a)[x] > 0;
      assert x in b <==> multiset(b)[x] > 0;
    }
  }

  /** Sorting what is already in order changes nothing. */
  lemma {:induction false} SortedStays<T>(leq: (T, T) -> bool, s: seq<T>)
    requires SortedBy(leq, s)
    ensures Sort(leq, s) == s
  {
    if s != [] {
      var front := s[..|s| - 1];
      SortedStays(leq, front);
      assert s == front + [s[|s| - 1]];
    }
  }

  // ----- small facts about collections

  lemma NoMembers<T>(s: seq<T>)
    ensures s == [] || exists x :: x in s
  {
    if s != [] {
      assert s[0] in s;
    }
  }

  lemma SubsetSize<T>(a: set<T>, b: set<T>)
    requires a <= b
    ensures |a| <= |b|
  {
    assert b == a + (b - a);
  }
}
