/** First-fit packing of one layer into sub-waves, and what the packing guarantees. */
module FirstFit {
  import opened Chunks
  import opened Arithmetic

  predicate ResourceConflict(a: Chunk, b: Chunk) {
    exists r :: r in a.Resources() && r in b.Resources()
  }

  predicate FileConflict(loc: Locale, a: Chunk, b: Chunk) {
    exists f, g :: f in a.declaredFiles && g in b.declaredFiles && loc.fold(f) == loc.fold(g)
  }

  predicate Conflict(loc: Locale, a: Chunk, b: Chunk) {
    ResourceConflict(a, b) || FileConflict(loc, a, b)
  }

  lemma ConflictSymmetric(loc: Locale, a: Chunk, b: Chunk)
    ensures Conflict(loc, a, b) == Conflict(loc, b, a)
  {
  }

  predicate Fits(loc: Locale, cap: nat, wave: seq<Chunk>, c: Chunk) {
    |wave| < cap && forall m :: m in wave ==> !Conflict(loc, c, m)
  }

  /** Index of the first sub-wave from `i` on that takes `c`, or the number of sub-waves. */
  function Slot(loc: Locale, cap: nat, subs: seq<seq<Chunk>>, c: Chunk, i: nat): (k: nat)
    requires i <= |subs|
    ensures i <= k <= |subs|
    ensures forall j :: i <= j < k ==> !Fits(loc, cap, subs[j], c)
    ensures k < |subs| ==> Fits(loc, cap, subs[k], c)
    decreases |subs| - i
  {
    if i == |subs| || Fits(loc, cap, subs[i], c) then i else Slot(loc, cap, subs, c, i + 1)
  }

  function PutAt(subs: seq<seq<Chunk>>, k: nat, c: Chunk): seq<seq<Chunk>>
    requires k <= |subs|
  {
    if k < |subs| then subs[k := subs[k] + [c]] else subs + [[c]]
  }

  function Place(loc: Locale, cap: nat, subs: seq<seq<Chunk>>, c: Chunk): seq<seq<Chunk>> {
    PutAt(subs, Slot(loc, cap, subs, c, 0), c)
  }

  function Pack(loc: Locale, cap: nat, layer: seq<Chunk>): seq<seq<Chunk>> {
    if layer == [] then []
    else Place(loc, cap, Pack(loc, cap, layer[..|layer| - 1]), layer[|layer| - 1])
  }

  function Flatten<T>(ss: seq<seq<T>>): seq<T> {
    if ss == [] then [] else Flatten(ss[..|ss| - 1]) + ss[|ss| - 1]
  }

  lemma FlattenLast<T>(a: seq<seq<T>>, b: seq<seq<T>>, x: seq<T>)
    ensures Flatten(a + (b + [x])) == Flatten(a + b) + x
    ensures Flatten(b + [x]) == Flatten(b) + x
  {
    assert (a + (b + [x]))[..|a| + |b|] == a + b && (b + [x])[..|b|] == b;
  }

  lemma {:induction false} FlattenConcat<T>(a: seq<seq<T>>, b: seq<seq<T>>)
    ensures Flatten(a + b) == Flatten(a) + Flatten(b)
  {
    if b == [] {
      assert a + b == a;
    } else {
      FlattenConcat(a, b[..|b| - 1]);
      FlattenLast(a, b[..|b| - 1], b[|b| - 1]);
      assert b == b[..|b| - 1] + [b[|b| - 1]];
    }
  }

  lemma FlattenOne<T>(s: seq<T>)
    ensures Flatten([s]) == s
  {
    assert [s][..0] == [];
  }

  lemma {:induction false} FlattenMembers<T>(ss: seq<seq<T>>, x: T)
    ensures x in Flatten(ss) <==> exists k :: 0 <= k < |ss| && x in ss[k]
  {
    if ss != [] {
      FlattenMembers(ss[..|ss| - 1], x);
      if k :| 0 <= k < |ss| - 1 && x in ss[k] {
        assert x in ss[..|ss| - 1][k];
      }
    }
  }

  /** Placing a chunk inserts it somewhere in the flattened sub-waves and moves nothing else. */
  lemma PlaceInserts(subs: seq<seq<Chunk>>, k: nat, c: Chunk) returns (before: seq<Chunk>, after: seq<Chunk>)
    requires k <= |subs|
    ensures Flatten(subs) == before + after
    ensures Flatten(PutAt(subs, k, c)) == before + [c] + after
  {
    if k == |subs| {
      before, after := Flatten(subs), [];
      FlattenConcat(subs, [[c]]);
      FlattenOne([c]);
    } else {
      var l, r := subs[..k], subs[k + 1..];
      before, after := Flatten(l) + subs[k], Flatten(r);
      assert subs == l + [subs[k]] + r;
      assert PutAt(subs, k, c) == l + [subs[k] + [c]] + r;
      FlattenConcat(l + [subs[k]], r);
      FlattenConcat(l, [subs[k]]);
      FlattenOne(subs[k]);
      FlattenConcat(l + [subs[k] + [c]], r);
      FlattenConcat(l, [subs[k] + [c]]);
      FlattenOne(subs[k] + [c]);
    }
  }

  /** Packing neither loses nor repeats a chunk. */
  lemma {:induction false} PackPartitions(loc: Locale, cap: nat, layer: seq<Chunk>)
    ensures multiset(Flatten(Pack(loc, cap, layer))) == multiset(layer)
  {
    if layer != [] {
      var front, c := layer[..|layer| - 1], layer[|layer| - 1];
      var subs := Pack(loc, cap, front);
      PackPartitions(loc, cap, front);
      var b, a := PlaceInserts(subs, Slot(loc, cap, subs, c, 0), c);
      assert layer == front + [c];
    }
  }

  ghost predicate ConflictFree(loc: Locale, wave: seq<Chunk>) {
    forall i, j :: 0 <= i < |wave| && 0 <= j < |wave| && i != j ==> !Conflict(loc, wave[i], wave[j])
  }

  ghost predicate SoundSubWave(loc: Locale, cap: nat, wave: seq<Chunk>) {
    1 <= |wave| <= cap && ConflictFree(loc, wave)
  }

  lemma AppendConflictFree(loc: Locale, cap: nat, wave: seq<Chunk>, c: Chunk)
    requires ConflictFree(loc, wave) && Fits(loc, cap, wave, c)
    ensures SoundSubWave(loc, cap, wave + [c])
  {
    hide Conflict;
    var now := wave + [c];
    forall i, j | 0 <= i < |now| && 0 <= j < |now| && i != j
      ensures !Conflict(loc, now[i], now[j])
    {
      ConflictSymmetric(loc, now[i], now[j]);
      if i < |wave| && j < |wave| {
        assert now[i] == wave[i] && now[j] == wave[j];
      } else {
        assert i < |wave| ==> wave[i] in wave;
        assert j < |wave| ==> wave[j] in wave;
      }
    }
  }

  /** Every sub-wave respects the cap and is free of conflicts. */
  lemma {:induction false} PackSound(loc: Locale, cap: nat, layer: seq<Chunk>)
    requires cap >= 1
    ensures forall k :: 0 <= k < |Pack(loc, cap, layer)| ==> SoundSubWave(loc, cap, Pack(loc, cap, layer)[k])
  {
    hide Conflict, ConflictFree;
    if layer != [] {
      var c := layer[|layer| - 1];
      var subs := Pack(loc, cap, layer[..|layer| - 1]);
      PackSound(loc, cap, layer[..|layer| - 1]);
      var k := Slot(loc, cap, subs, c, 0);
      if k < |subs| {
        AppendConflictFree(loc, cap, subs[k], c);
      } else {
        SingletonSound(loc, cap, c);
      }
    }
  }

  lemma SingletonSound(loc: Locale, cap: nat, c: Chunk)
    requires cap >= 1
    ensures SoundSubWave(loc, cap, [c])
  {
  }

  // ----- how many sub-waves first fit needs

  /** How many members of `s` conflict with `c`. */
  function Conflicts(loc: Locale, c: Chunk, s: seq<Chunk>): nat {
    if s == [] then 0
    else Conflicts(loc, c, s[..|s| - 1]) + if Conflict(loc, c, s[|s| - 1]) then 1 else 0
  }

  /** No chunk of the layer conflicts with more than `degree` of the others. */
  ghost predicate DegreeAtMost(loc: Locale, layer: seq<Chunk>, degree: nat) {
    forall i :: 0 <= i < |layer| ==> Conflicts(loc, layer[i], layer[..i] + layer[i + 1..]) <= degree
  }

  lemma {:induction false} ConflictsConcat(loc: Locale, c: Chunk, a: seq<Chunk>, b: seq<Chunk>)
    ensures Conflicts(loc, c, a + b) == Conflicts(loc, c, a) + Conflicts(loc, c, b)
  {
    if b == [] {
      assert a + b == a;
    } else {
      assert (a + b)[..|a + b| - 1] == a + b[..|b| - 1];
      ConflictsConcat(loc, c, a, b[..|b| - 1]);
    }
  }

  lemma ConflictsOne(loc: Locale, c: Chunk, x: Chunk)
    ensures Conflicts(loc, c, [x]) == if Conflict(loc, c, x) then 1 else 0
  {
    assert [x][..0] == [];
  }

  /** Packing keeps the number of conflicts and the number of chunks. */
  lemma {:induction false} PackKeepsCounts(loc: Locale, cap: nat, layer: seq<Chunk>, c: Chunk)
    ensures Conflicts(loc, c, Flatten(Pack(loc, cap, layer))) == Conflicts(loc, c, layer)
    ensures |Flatten(Pack(loc, cap, layer))| == |layer|
  {
    hide Conflict;
    if layer != [] {
      var front, x := layer[..|layer| - 1], layer[|layer| - 1];
      var subs := Pack(loc, cap, front);
      PackKeepsCounts(loc, cap, front, c);
      var b, a := PlaceInserts(subs, Slot(loc, cap, subs, x, 0), x);
      ConflictsConcat(loc, c, b, a);
      ConflictsConcat(loc, c, b, [x]);
      ConflictsConcat(loc, c, b + [x], a);
      ConflictsOne(loc, c, x);
    }
  }

  lemma {:induction false} ConflictCounted(loc: Locale, c: Chunk, s: seq<Chunk>, m: Chunk)
    requires m in s && Conflict(loc, c, m)
    ensures Conflicts(loc, c, s) >= 1
  {
    hide Conflict;
    if m != s[|s| - 1] {
      ConflictCounted(loc, c, s[..|s| - 1], m);
    }
  }

  lemma BlockedStep(cap: nat, k: nat, n: nat, f: nat, size: nat, last: nat)
    requires cap >= 1 && cap * (k - n) <= size && (f >= 1 || last >= cap)
    ensures cap * (k + 1 - (n + f)) <= size + last
  {
    if f >= 1 {
      MulMonotone(cap, k + 1 - (n + f), k - n);
    } else {
      MulAddOne(cap, k - n);
      assert k + 1 - (n + f) == k - n + 1;
    }
  }

  /** Sub-waves with room left. */
  function NotFull(cap: nat, subs: seq<seq<Chunk>>): nat {
    if subs == [] then 0
    else NotFull(cap, subs[..|subs| - 1]) + if |subs[|subs| - 1]| < cap then 1 else 0
  }

  /** If no sub-wave takes `c`, each is full or holds a conflict: counting both bounds how many there are. */
  lemma {:induction false} BlockedCount(loc: Locale, cap: nat, subs: seq<seq<Chunk>>, c: Chunk)
    requires cap >= 1 && forall k :: 0 <= k < |subs| ==> !Fits(loc, cap, subs[k], c)
    ensures NotFull(cap, subs) <= Conflicts(loc, c, Flatten(subs))
    ensures cap * (|subs| - Conflicts(loc, c, Flatten(subs))) <= |Flatten(subs)|
  {
    hide Conflict;
    if subs != [] {
      var front, last := subs[..|subs| - 1], subs[|subs| - 1];
      BlockedCount(loc, cap, front, c);
      ConflictsConcat(loc, c, Flatten(front), last);
      if |last| < cap {
        var m :| m in last && Conflict(loc, c, m);
        ConflictCounted(loc, c, last, m);
      }
      BlockedStep(cap, |front|, Conflicts(loc, c, Flatten(front)), Conflicts(loc, c, last), |Flatten(front)|, |last|);
    }
  }

  /** First-fit bound: at most one sub-wave more than the conflict degree plus the full ones. */
  lemma {:induction false} FirstFitBound(loc: Locale, cap: nat, layer: seq<Chunk>, degree: nat)
    requires cap >= 1 && layer != [] && DegreeAtMost(loc, layer, degree)
    ensures |Pack(loc, cap, layer)| <= 1 + degree + (|layer| - 1) / cap
  {
    hide DegreeAtMost;
    forall i | 0 <= i < |layer|
      ensures Conflicts(loc, layer[i], layer[..i]) <= degree
    {
      BackDegree(loc, layer, degree, i);
    }
    BackDegreeBound(loc, cap, layer, degree);
  }

  lemma BackDegree(loc: Locale, layer: seq<Chunk>, degree: nat, i: nat)
    requires DegreeAtMost(loc, layer, degree) && i < |layer|
    ensures Conflicts(loc, layer[i], layer[..i]) <= degree
  {
    hide Conflict;
    ConflictsConcat(loc, layer[i], layer[..i], layer[i + 1..]);
  }

  /** What packing `front` gives when no sub-wave of it takes `c`. */
  lemma OneMore(loc: Locale, cap: nat, front: seq<Chunk>, c: Chunk)
    requires cap >= 1 && Slot(loc, cap, Pack(loc, cap, front), c, 0) == |Pack(loc, cap, front)|
    ensures |Pack(loc, cap, front)| <= Conflicts(loc, c, front) + |front| / cap
  {
    hide Conflict, Fits, Pack, Conflicts;
    var subs := Pack(loc, cap, front);
    BlockedCount(loc, cap, subs, c);
    PackKeepsCounts(loc, cap, front, c);
    DivLower(cap, |subs| - Conflicts(loc, c, front), |front|);
  }

  lemma {:induction false} BackDegreeBound(loc: Locale, cap: nat, layer: seq<Chunk>, degree: nat)
    requires cap >= 1 && layer != []
    requires forall i :: 0 <= i < |layer| ==> Conflicts(loc, layer[i], layer[..i]) <= degree
    ensures |Pack(loc, cap, layer)| <= 1 + degree + (|layer| - 1) / cap
  {
    hide Conflict, Fits, Slot, Conflicts;
    var front, c := layer[..|layer| - 1], layer[|layer| - 1];
    var subs := Pack(loc, cap, front);
    var k := Slot(loc, cap, subs, c, 0);
    if k == |subs| {
      OneMore(loc, cap, front, c);
    } else {
      assert front != [];
      forall i | 0 <= i < |front|
        ensures Conflicts(loc, front[i], front[..i]) <= degree
      {
        assert front[..i] == layer[..i];
      }
      BackDegreeBound(loc, cap, front, degree);
      DivMonotone(cap, |front| - 1, |layer| - 1);
    }
  }

  /** All sub-waves but the last are full. */
  ghost predicate Tight(cap: nat, subs: seq<seq<Chunk>>) {
    && (forall k :: 0 <= k < |subs| - 1 ==> |subs[k]| == cap)
    && (subs != [] ==> 1 <= |subs[|subs| - 1]| <= cap)
  }

  lemma {:induction false} PackTight(loc: Locale, cap: nat, layer: seq<Chunk>)
    requires cap >= 1 && DegreeAtMost(loc, layer, 0)
    ensures Tight(cap, Pack(loc, cap, layer))
  {
    if layer != [] {
      var front, c := layer[..|layer| - 1], layer[|layer| - 1];
      DegreeZeroPrefix(loc, layer);
      PackTight(loc, cap, front);
      hide DegreeAtMost, Conflict, Tight;
      var subs := Pack(loc, cap, front);
      forall j | 0 <= j < |subs| && |subs[j]| < cap
        ensures Fits(loc, cap, subs[j], c)
      {
        forall m | m in subs[j]
          ensures !Conflict(loc, c, m)
        {
          NoConflictInside(loc, cap, layer, m, j);
        }
      }
      hide Fits;
      TightStep(loc, cap, subs, c);
    }
  }

  lemma TightStep(loc: Locale, cap: nat, subs: seq<seq<Chunk>>, c: Chunk)
    requires cap >= 1 && Tight(cap, subs)
    requires forall j :: 0 <= j < |subs| && |subs[j]| < cap ==> Fits(loc, cap, subs[j], c)
    ensures Tight(cap, Place(loc, cap, subs, c))
  {
    hide Conflict;
    var k := Slot(loc, cap, subs, c, 0);
  }

  lemma DegreeZeroPrefix(loc: Locale, layer: seq<Chunk>)
    requires DegreeAtMost(loc, layer, 0) && layer != []
    ensures DegreeAtMost(loc, layer[..|layer| - 1], 0)
  {
    hide Conflict;
    var front := layer[..|layer| - 1];
    forall i | 0 <= i < |front|
      ensures Conflicts(loc, front[i], front[..i] + front[i + 1..]) <= 0
    {
      assert layer[..i] + layer[i + 1..] == front[..i] + front[i + 1..] + [layer[|layer| - 1]];
      ConflictsConcat(loc, front[i], front[..i] + front[i + 1..], [layer[|layer| - 1]]);
    }
  }

  lemma NoConflictInside(loc: Locale, cap: nat, layer: seq<Chunk>, m: Chunk, j: nat)
    requires layer != [] && DegreeAtMost(loc, layer, 0)
    requires j < |Pack(loc, cap, layer[..|layer| - 1])| && m in Pack(loc, cap, layer[..|layer| - 1])[j]
    ensures !Conflict(loc, layer[|layer| - 1], m)
  {
    hide Conflict;
    var front, c := layer[..|layer| - 1], layer[|layer| - 1];
    BackDegree(loc, layer, 0, |layer| - 1);
    PackKeepsCounts(loc, cap, front, c);
    FlattenMembers(Pack(loc, cap, front), m);
    if Conflict(loc, c, m) {
      ConflictCounted(loc, c, Flatten(Pack(loc, cap, front)), m);
    }
  }

  lemma {:induction false} TightSize(cap: nat, subs: seq<seq<Chunk>>)
    requires forall k :: 0 <= k < |subs| ==> |subs[k]| == cap
    ensures |Flatten(subs)| == cap * |subs|
  {
    if subs != [] {
      TightSize(cap, subs[..|subs| - 1]);
      MulAddOne(cap, |subs| - 1);
    }
  }

  lemma TightTotal(cap: nat, subs: seq<seq<Chunk>>)
    requires cap >= 1 && Tight(cap, subs)
    ensures (|Flatten(subs)| + cap - 1) / cap == |subs|
  {
    if subs == [] {
      DivExact(cap, 0, cap - 1);
    } else {
      var front, last := subs[..|subs| - 1], subs[|subs| - 1];
      TightSize(cap, front);
      MulAddOne(cap, |front|);
      DivExact(cap, |subs|, |last| - 1);
    }
  }

  /** Without conflicts first fit is optimal: the number of sub-waves is n / cap rounded up. */
  lemma NoConflictExact(loc: Locale, cap: nat, layer: seq<Chunk>)
    requires cap >= 1 && DegreeAtMost(loc, layer, 0)
    ensures |Pack(loc, cap, layer)| == (|layer| + cap - 1) / cap
  {
    PackTight(loc, cap, layer);
    TightTotal(cap, Pack(loc, cap, layer));
    hide DegreeAtMost, Tight;
    if layer != [] {
      PackKeepsCounts(loc, cap, layer, layer[0]);
    }
  }
}
