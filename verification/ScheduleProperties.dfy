/** What every schedule guarantees, whatever the plan. */
module ScheduleProperties {
  import opened Prelude
  import opened Sorting
  import opened DependencyGraph
  import opened Chunks
  import opened Layers
  import opened FirstFit
  import opened Waves

  // ----- where a wave comes from

  /** The layer a wave was cut from. */
  function LayerOfWave(loc: Locale, cap: nat, layers: seq<seq<Chunk>>, i: nat): (k: nat)
    requires i < |AllWaves(loc, cap, layers)|
    ensures k < |layers|
  {
    var front := layers[..|layers| - 1];
    if i < |AllWaves(loc, cap, front)| then LayerOfWave(loc, cap, front, i) else |layers| - 1
  }

  lemma {:induction false} LaterWaveLaterLayer(loc: Locale, cap: nat, layers: seq<seq<Chunk>>, i: nat, j: nat)
    requires i <= j < |AllWaves(loc, cap, layers)|
    ensures LayerOfWave(loc, cap, layers, i) <= LayerOfWave(loc, cap, layers, j)
  {
    var front := layers[..|layers| - 1];
    if j < |AllWaves(loc, cap, front)| {
      LaterWaveLaterLayer(loc, cap, front, i, j);
    }
  }

  /** A wave is one sub-wave of its layer, in id order. */
  lemma {:induction false} WaveIsSubWave(loc: Locale, cap: nat, layers: seq<seq<Chunk>>, i: nat) returns (t: nat)
    requires i < |AllWaves(loc, cap, layers)|
    ensures var k := LayerOfWave(loc, cap, layers, i);
      && t < |Pack(loc, cap, layers[k])| && i == |AllWaves(loc, cap, layers[..k])| + t
      && AllWaves(loc, cap, layers)[i] == Sort(loc.leq, Ids(Pack(loc, cap, layers[k])[t]))
  {
    var front := layers[..|layers| - 1];
    if i < |AllWaves(loc, cap, front)| {
      t := WaveIsSubWave(loc, cap, front, i);
      assert front[..LayerOfWave(loc, cap, front, i)] == layers[..LayerOfWave(loc, cap, layers, i)];
    } else {
      t := i - |AllWaves(loc, cap, front)|;
    }
  }

  lemma SubWaveMember(loc: Locale, cap: nat, layer: seq<Chunk>, t: nat, c: Chunk)
    requires t < |Pack(loc, cap, layer)| && c in Pack(loc, cap, layer)[t]
    ensures c in layer
  {
    PackPartitions(loc, cap, layer);
    FlattenMembers(Pack(loc, cap, layer), c);
    assert c in multiset(Flatten(Pack(loc, cap, layer)));
  }

  lemma WaveMember(loc: Locale, wave: seq<Chunk>, id: string)
    requires id in Sort(loc.leq, Ids(wave))
    ensures exists c :: c in wave && c.id == id
  {
    SortPermutes(loc.leq, Ids(wave));
    IdsMembers(wave);
  }

  /** A scheduled chunk belongs to the layer its wave was cut from. */
  lemma ChunkOfWave(chunks: seq<Chunk>, loc: Locale, cap: nat, layers: seq<seq<Chunk>>, c: Chunk, i: nat) returns (t: nat)
    requires DistinctIds(chunks) && ExactLayers(chunks, loc, layers) && c in chunks
    requires i < |AllWaves(loc, cap, layers)| && c.id in AllWaves(loc, cap, layers)[i]
    ensures var k := LayerOfWave(loc, cap, layers, i);
      && c in layers[k] && t < |Pack(loc, cap, layers[k])| && c in Pack(loc, cap, layers[k])[t]
      && i == |AllWaves(loc, cap, layers[..k])| + t
      && AllWaves(loc, cap, layers)[i] == Sort(loc.leq, Ids(Pack(loc, cap, layers[k])[t]))
  {
    hide SortedBy, Longest;
    t := WaveIsSubWave(loc, cap, layers, i);
    var layer := layers[LayerOfWave(loc, cap, layers, i)];
    WaveMember(loc, Pack(loc, cap, layer)[t], c.id);
    var d :| d in Pack(loc, cap, layer)[t] && d.id == c.id;
    SubWaveMember(loc, cap, layer, t, d);
    assert d in chunks;
    SameIdSameChunk(chunks, c, d);
  }

  // ----- soundness

  /** The waves partition the plan's chunks. */
  ghost predicate Partitions(chunks: seq<Chunk>, waves: seq<seq<string>>) {
    multiset(Flatten(waves)) == multiset(Ids(chunks))
  }

  /** Waves are listed in id order and respect the cap. */
  ghost predicate WellSized(loc: Locale, cap: nat, waves: seq<seq<string>>) {
    forall i :: 0 <= i < |waves| ==> 1 <= |waves[i]| <= cap && SortedBy(loc.leq, waves[i])
  }

  /** They share a resource, or declare a file of the same name up to case. */
  ghost predicate Clash(loc: Locale, a: Chunk, b: Chunk) {
    || (exists r :: r in a.Resources() && r in b.Resources())
    || (exists f, g :: f in a.declaredFiles && g in b.declaredFiles && loc.fold(f) == loc.fold(g))
  }

  lemma ClashIsConflict(loc: Locale, a: Chunk, b: Chunk)
    ensures Clash(loc, a, b) <==> Conflict(loc, a, b)
    ensures Clash(loc, a, b) <==> Conflict(loc, b, a)
  {
  }

  /** Chunks of one wave share no file and no exclusive resource. */
  ghost predicate Disjoint(chunks: seq<Chunk>, loc: Locale, waves: seq<seq<string>>) {
    forall i, c, d :: 0 <= i < |waves| && c in chunks && d in chunks && c != d && c.id in waves[i] && d.id in waves[i]
      ==> !Clash(loc, c, d)
  }

  /** Every dependency runs in a strictly earlier wave. */
  ghost predicate DependenciesFirst(chunks: seq<Chunk>, waves: seq<seq<string>>) {
    forall c, d, i, j | c in chunks && d in c.dependsOn && 0 <= i < |waves| && 0 <= j < |waves| ::
      c.id in waves[i] && d in waves[j] ==> j < i
  }

  lemma {:induction false} IdsMultiset(s: seq<Chunk>, t: seq<Chunk>)
    requires multiset(s) == multiset(t)
    ensures multiset(Ids(s)) == multiset(Ids(t))
    decreases |s|
  {
    if s == [] {
      assert |t| == |multiset(t)| == 0;
    } else {
      hide Ids;
      var n := |s| - 1;
      var i := PlaceIn(s, t, n);
      DropId(s, n);
      DropId(t, i);
      DropBoth(s, t, n, i);
      IdsMultiset(s[..n] + s[n + 1..], t[..i] + t[i + 1..]);
    }
  }

  /** Taking one chunk out takes its id out. */
  lemma DropId(t: seq<Chunk>, i: nat)
    requires i < |t|
    ensures var rest := t[..i] + t[i + 1..];
      multiset(t) == multiset(rest) + multiset{t[i]} && multiset(Ids(t)) == multiset(Ids(rest)) + multiset{t[i].id}
  {
    var front, back := t[..i], t[i + 1..];
    DropMiddle(front, t[i], back);
    assert t == front + [t[i]] + back;
    IdsConcat(front, back);
    IdsConcat(front + [t[i]], back);
    IdsConcat(front, [t[i]]);
    OneId(t[i]);
    DropMiddle(Ids(front), t[i].id, Ids(back));
  }

  lemma OneId(c: Chunk)
    ensures Ids([c]) == [c.id]
  {
  }

  lemma IdsConcat(a: seq<Chunk>, b: seq<Chunk>)
    ensures Ids(a + b) == Ids(a) + Ids(b)
  {
  }

  lemma {:induction false} WaveIdsFlatten(loc: Locale, subs: seq<seq<Chunk>>)
    ensures multiset(Flatten(WaveIds(loc, subs))) == multiset(Ids(Flatten(subs)))
  {
    if subs != [] {
      var front, last := subs[..|subs| - 1], subs[|subs| - 1];
      WaveIdsFlatten(loc, front);
      SortPermutes(loc.leq, Ids(last));
      IdsConcat(Flatten(front), last);
      assert WaveIds(loc, subs)[..|subs| - 1] == WaveIds(loc, front);
    }
  }

  lemma {:induction false} WavesFlatten(loc: Locale, cap: nat, layers: seq<seq<Chunk>>)
    ensures multiset(Flatten(AllWaves(loc, cap, layers))) == multiset(Ids(Flatten(layers)))
  {
    if layers != [] {
      var front, last := layers[..|layers| - 1], layers[|layers| - 1];
      WavesFlatten(loc, cap, front);
      WaveIdsFlatten(loc, Pack(loc, cap, last));
      PackPartitions(loc, cap, last);
      IdsMultiset(Flatten(Pack(loc, cap, last)), last);
      IdsConcat(Flatten(front), last);
      FlattenConcat(AllWaves(loc, cap, front), WaveIds(loc, Pack(loc, cap, last)));
    }
  }

  lemma LongestUnique(g: Graph, id: string, j: nat, k: nat)
    requires Longest(g, id, j) && Longest(g, id, k)
    ensures j == k
  {
    hide HasChain;
    if j < k {
      ChainPrefix(g, id, k, j + 1);
    } else if k < j {
      ChainPrefix(g, id, j, k + 1);
    }
  }

  lemma DistinctConcat(a: seq<Chunk>, b: seq<Chunk>)
    requires Distinct(a) && Distinct(b) && forall c :: c in b ==> c !in a
    ensures Distinct(a + b)
  {
    forall i, j | 0 <= i < j < |a + b|
      ensures (a + b)[i] != (a + b)[j]
    {
      if i < |a| <= j {
        assert b[j - |a|] in b;
      }
    }
  }

  lemma {:induction false} FlattenDistinct(layers: seq<seq<Chunk>>)
    requires forall k :: 0 <= k < |layers| ==> Distinct(layers[k])
    requires forall j, k, c :: 0 <= j < |layers| && 0 <= k < |layers| && c in layers[j] && c in layers[k] ==> j == k
    ensures Distinct(Flatten(layers))
  {
    if layers != [] {
      var front, last := layers[..|layers| - 1], layers[|layers| - 1];
      assert forall k :: 0 <= k < |front| ==> front[k] == layers[k];
      FlattenDistinct(front);
      forall c | c in last
        ensures c !in Flatten(front)
      {
        FlattenMembers(front, c);
      }
      DistinctConcat(Flatten(front), last);
    }
  }

  /** The layers hold every chunk exactly once. */
  lemma LayersPartition(chunks: seq<Chunk>, loc: Locale, layers: seq<seq<Chunk>>)
    requires DistinctIds(chunks) && ExactLayers(chunks, loc, layers)
    ensures multiset(Flatten(layers)) == multiset(chunks)
  {
    hide Longest, SortedBy;
    forall k | 0 <= k < |layers|
      ensures Distinct(layers[k])
    {
      DistinctIdsAreDistinct(layers[k]);
    }
    forall j, k, c | 0 <= j < |layers| && 0 <= k < |layers| && c in layers[j] && c in layers[k]
      ensures j == k
    {
      LongestUnique(GraphOf(chunks), c.id, j, k);
    }
    FlattenDistinct(layers);
    DistinctIdsAreDistinct(chunks);
    forall c: Chunk
      ensures c in Flatten(layers) <==> c in chunks
    {
      FlattenMembers(layers, c);
    }
    SameElementsPermute(Flatten(layers), chunks);
  }

  lemma SchedulePartitions(chunks: seq<Chunk>, loc: Locale, cap: nat, layers: seq<seq<Chunk>>)
    requires DistinctIds(chunks) && ExactLayers(chunks, loc, layers)
    ensures Partitions(chunks, AllWaves(loc, cap, layers))
  {
    hide ExactLayers;
    WavesFlatten(loc, cap, layers);
    LayersPartition(chunks, loc, layers);
    IdsMultiset(Flatten(layers), chunks);
  }

  lemma ScheduleWellSized(loc: Locale, cap: nat, layers: seq<seq<Chunk>>)
    requires loc.Valid() && cap >= 1
    ensures WellSized(loc, cap, AllWaves(loc, cap, layers))
  {
    hide ConflictFree, SortedBy, TotalPreorder;
    forall i | 0 <= i < |AllWaves(loc, cap, layers)|
      ensures 1 <= |AllWaves(loc, cap, layers)[i]| <= cap && SortedBy(loc.leq, AllWaves(loc, cap, layers)[i])
    {
      var t := WaveIsSubWave(loc, cap, layers, i);
      var layer := layers[LayerOfWave(loc, cap, layers, i)];
      PackSound(loc, cap, layer);
      SortSorts(loc.leq, Ids(Pack(loc, cap, layer)[t]));
      SortPermutes(loc.leq, Ids(Pack(loc, cap, layer)[t]));
    }
  }

  lemma InSameWave(chunks: seq<Chunk>, loc: Locale, cap: nat, layers: seq<seq<Chunk>>, i: nat, c: Chunk, d: Chunk)
    requires DistinctIds(chunks) && ExactLayers(chunks, loc, layers) && cap >= 1
    requires i < |AllWaves(loc, cap, layers)| && c in chunks && d in chunks && c != d
    requires c.id in AllWaves(loc, cap, layers)[i] && d.id in AllWaves(loc, cap, layers)[i]
    ensures !Conflict(loc, c, d)
  {
    hide ExactLayers, Conflict;
    var t := ChunkOfWave(chunks, loc, cap, layers, c, i);
    var layer := layers[LayerOfWave(loc, cap, layers, i)];
    var wave := Pack(loc, cap, layer)[t];
    WaveMember(loc, wave, d.id);
    var e :| e in wave && e.id == d.id;
    LayerMembers(chunks, loc, layers, LayerOfWave(loc, cap, layers, i));
    SubWaveMember(loc, cap, layer, t, e);
    SameIdSameChunk(chunks, d, e);
    PackSound(loc, cap, layer);
    var x :| 0 <= x < |wave| && wave[x] == c;
    var y :| 0 <= y < |wave| && wave[y] == d;
  }

  lemma LayerMembers(chunks: seq<Chunk>, loc: Locale, layers: seq<seq<Chunk>>, k: nat)
    requires ExactLayers(chunks, loc, layers) && k < |layers|
    ensures forall c :: c in layers[k] ==> c in chunks && Longest(GraphOf(chunks), c.id, k)
  {
    hide Longest, SortedBy;
  }

  /** A dependency's longest chain is strictly shorter. */
  lemma DependencyShorter(g: Graph, id: string, d: string, k: nat, j: nat)
    requires Longest(g, id, k) && Longest(g, d, j) && id in g && d in g[id]
    ensures j < k
  {
    var p :| IsChainFrom(g, d, j, p);
    var q := [id] + p;
    assert forall i :: 0 < i < |q| ==> q[i] == p[i - 1];
    assert IsChainFrom(g, id, j + 1, q);
    if j >= k {
      ChainPrefix(g, id, j + 1, k + 1);
    }
  }

  lemma DependencyWave(chunks: seq<Chunk>, loc: Locale, cap: nat, layers: seq<seq<Chunk>>, c: Chunk, d: string, i: nat, j: nat)
    requires DistinctIds(chunks) && ExactLayers(chunks, loc, layers) && c in chunks && d in c.dependsOn
    requires i < |AllWaves(loc, cap, layers)| && j < |AllWaves(loc, cap, layers)|
    requires c.id in AllWaves(loc, cap, layers)[i] && d in AllWaves(loc, cap, layers)[j]
    ensures j < i
  {
    hide ExactLayers, Longest;
    var k, m := LayerOfWave(loc, cap, layers, i), LayerOfWave(loc, cap, layers, j);
    var t := ChunkOfWave(chunks, loc, cap, layers, c, i);
    var u := WaveIsSubWave(loc, cap, layers, j);
    WaveMember(loc, Pack(loc, cap, layers[m])[u], d);
    var e :| e in Pack(loc, cap, layers[m])[u] && e.id == d;
    SubWaveMember(loc, cap, layers[m], u, e);
    LayerMembers(chunks, loc, layers, k);
    LayerMembers(chunks, loc, layers, m);
    GraphAt(chunks, c);
    DependencyShorter(GraphOf(chunks), c.id, d, k, m);
    if i <= j {
      LaterWaveLaterLayer(loc, cap, layers, i, j);
    }
  }

  /** Soundness of every schedule `ComputeWaves` can return. */
  lemma ScheduleSound(chunks: seq<Chunk>, loc: Locale, cap: nat, s: Schedule)
    requires DistinctIds(chunks) && loc.Valid() && cap >= 1 && IsSchedule(chunks, loc, cap, s)
    ensures Partitions(chunks, s.waves) && WellSized(loc, cap, s.waves)
    ensures Disjoint(chunks, loc, s.waves) && DependenciesFirst(chunks, s.waves)
  {
    hide ExactLayers, Conflict, Clash, SortedBy, TotalPreorder, DistinctIds;
    var layers :| ExactLayers(chunks, loc, layers)
      && s == Schedule(AllWaves(loc, cap, layers), AllReasons(loc, cap, layers));
    SchedulePartitions(chunks, loc, cap, layers);
    ScheduleWellSized(loc, cap, layers);
    forall i, c, d | 0 <= i < |s.waves| && c in chunks && d in chunks && c != d && c.id in s.waves[i] && d.id in s.waves[i]
      ensures !Clash(loc, c, d)
    {
      InSameWave(chunks, loc, cap, layers, i, c, d);
      ClashIsConflict(loc, c, d);
    }
    forall c, d, i, j | c in chunks && d in c.dependsOn
      && 0 <= i < |s.waves| && 0 <= j < |s.waves| && c.id in s.waves[i] && d in s.waves[j]
      ensures j < i
    {
      DependencyWave(chunks, loc, cap, layers, c, d, i, j);
    }
  }

  /** The schedule does not depend on the order the chunks are listed in. */
  lemma ScheduleCanonical(chunks: seq<Chunk>, chunks': seq<Chunk>, loc: Locale, cap: nat, s: Schedule, s': Schedule)
    requires loc.Valid() && DistinctIds(chunks) && DistinctIds(chunks')
    requires multiset(chunks) == multiset(chunks') && Strict(loc.leq, Ids(chunks))
    requires IsSchedule(chunks, loc, cap, s) && IsSchedule(chunks', loc, cap, s')
    ensures s == s'
  {
    hide ExactLayers, TotalPreorder, DistinctIds, Strict;
    var a :| ExactLayers(chunks, loc, a) && s == Schedule(AllWaves(loc, cap, a), AllReasons(loc, cap, a));
    var b :| ExactLayers(chunks', loc, b) && s' == Schedule(AllWaves(loc, cap, b), AllReasons(loc, cap, b));
    LayersCanonical(chunks, chunks', loc, a, b);
  }

  // ----- reasons

  lemma {:induction false} ResourceClashMeans(c: Chunk, s: seq<Chunk>)
    ensures FirstResourceClash(c, s).Some? <==> exists m :: m in s && ResourceConflict(c, m)
    ensures FirstResourceClash(c, s).Some? ==> exists m :: m in s && ResourceConflict(c, m) && m.id == FirstResourceClash(c, s).value
  {
    hide ResourceConflict;
    if s != [] {
      var front := s[..|s| - 1];
      ResourceClashMeans(c, front);
      assert s == front + [s[|s| - 1]];
      assert s[|s| - 1] in s;
    }
  }

  lemma {:induction false} FileClashMeans(loc: Locale, c: Chunk, s: seq<Chunk>)
    ensures FirstFileClash(loc, c, s).Some? <==> exists m :: m in s && FileConflict(loc, c, m)
    ensures FirstFileClash(loc, c, s).Some? ==> exists m :: m in s && FileConflict(loc, c, m) && m.id == FirstFileClash(loc, c, s).value
  {
    hide FileConflict;
    if s != [] {
      var front := s[..|s| - 1];
      FileClashMeans(loc, c, front);
      assert s == front + [s[|s| - 1]];
      assert s[|s| - 1] in s;
    }
  }

  /** The `n`-th chunk of the layer opens a sub-wave. */
  ghost predicate Opens(loc: Locale, cap: nat, layer: seq<Chunk>, n: nat)
    requires n < |layer|
  {
    forall k :: 0 <= k < |Pack(loc, cap, layer[..n])| ==> !Fits(loc, cap, Pack(loc, cap, layer[..n])[k], layer[n])
  }

  ghost function ReasonAt(loc: Locale, cap: nat, layer: seq<Chunk>, later: bool, n: nat): seq<Serialised>
    requires n < |layer|
  {
    ReasonFor(loc, cap, Pack(loc, cap, layer[..n]), layer[n], later, |layer| == 1)
  }

  /** What is recorded for a chunk that is not the first of its layer, in terms of the chunks before it:
      an entry exactly when it opens a sub-wave, resource clashes before file clashes, and `cap-spill`
      exactly when it clashes with no earlier chunk, all sub-waves being full. */
  lemma ReasonMeaning(loc: Locale, cap: nat, layer: seq<Chunk>, later: bool, n: nat)
    requires 0 < n < |layer|
    ensures ReasonAt(loc, cap, layer, later, n) == [] <==> !Opens(loc, cap, layer, n)
    ensures var r := ReasonAt(loc, cap, layer, later, n); Opens(loc, cap, layer, n) ==>
      && |r| == 1 && r[0].chunkId == layer[n].id
      && (r[0].reason == ExclusiveResource <==> exists m :: m in layer[..n] && ResourceConflict(layer[n], m))
      && (r[0].reason == ExclusiveResource ==>
            exists m :: m in layer[..n] && ResourceConflict(layer[n], m) && r[0].conflictsWith == Some(m.id))
      && (r[0].reason == FileOverlap ==>
            exists m :: m in layer[..n] && FileConflict(loc, layer[n], m) && r[0].conflictsWith == Some(m.id))
      && (r[0].reason == CapSpill <==> forall m :: m in layer[..n] ==> !Conflict(loc, layer[n], m))
      && (r[0].reason == CapSpill ==> r[0].conflictsWith == None && forall k ::
            0 <= k < |Pack(loc, cap, layer[..n])| ==> |Pack(loc, cap, layer[..n])[k]| >= cap)
      && r[0].reason != Dependency
  {
    hide ResourceConflict, FileConflict;
    var subs, c := Pack(loc, cap, layer[..n]), layer[n];
    PackNonEmpty(loc, cap, layer[..n]);
    PackMembers(loc, cap, layer[..n]);
    ResourceClashMeans(c, Flatten(subs));
    FileClashMeans(loc, c, Flatten(subs));
    if Opens(loc, cap, layer, n) && ReasonAt(loc, cap, layer, later, n)[0].reason == CapSpill {
      forall k | 0 <= k < |subs|
        ensures |subs[k]| >= cap
      {
        forall m | m in subs[k]
          ensures !Conflict(loc, c, m)
        {
          FlattenMembers(subs, m);
        }
      }
    }
  }

  lemma PackNonEmpty(loc: Locale, cap: nat, layer: seq<Chunk>)
    requires layer != []
    ensures Pack(loc, cap, layer) != []
  {
  }

  lemma PackMembers(loc: Locale, cap: nat, layer: seq<Chunk>)
    ensures forall m :: m in Flatten(Pack(loc, cap, layer)) <==> m in layer
  {
    PackPartitions(loc, cap, layer);
    SameMembers(Flatten(Pack(loc, cap, layer)), layer);
  }

  /** The layer's entries are those of its chunks, in order. */
  lemma {:induction false} LayerReasonsAre(loc: Locale, cap: nat, layer: seq<Chunk>, later: bool, n: nat)
    requires n <= |layer|
    ensures LayerReasons(loc, cap, layer[..n], later, |layer| == 1) == Flatten(PerChunk(loc, cap, layer, later, n))
  {
    if n == 0 {
      assert layer[..0] == [];
    } else {
      LayerReasonsAre(loc, cap, layer, later, n - 1);
      PackStep(loc, cap, layer, n - 1, later);
      hide LayerReasons, ReasonFor, Pack, PerChunk;
      PerChunkStep(loc, cap, layer, later, n);
    }
  }

  lemma PerChunkStep(loc: Locale, cap: nat, layer: seq<Chunk>, later: bool, n: nat)
    requires 0 < n <= |layer|
    ensures Flatten(PerChunk(loc, cap, layer, later, n)) ==
      Flatten(PerChunk(loc, cap, layer, later, n - 1)) + ReasonAt(loc, cap, layer, later, n - 1)
  {
    hide ReasonAt;
    assert PerChunk(loc, cap, layer, later, n)[..n - 1] == PerChunk(loc, cap, layer, later, n - 1);
  }

  /** The entries of the layer's first `n` chunks, chunk by chunk. */
  ghost function PerChunk(loc: Locale, cap: nat, layer: seq<Chunk>, later: bool, n: nat): (r: seq<seq<Serialised>>)
    requires n <= |layer|
    ensures |r| == n && forall i :: 0 <= i < n ==> r[i] == ReasonAt(loc, cap, layer, later, i)
  {
    seq(n, i requires 0 <= i < n => ReasonAt(loc, cap, layer, later, i))
  }

  lemma {:induction false} LayerReasonCount(loc: Locale, cap: nat, layer: seq<Chunk>, later: bool, alone: bool)
    requires layer != []
    ensures |LayerReasons(loc, cap, layer, later, alone)| == |Pack(loc, cap, layer)| - 1 + if later && alone then 1 else 0
  {
    var front := layer[..|layer| - 1];
    if front != [] {
      PackNonEmpty(loc, cap, front);
      LayerReasonCount(loc, cap, front, later, alone);
    }
  }

  /** Layers after the first that hold a single chunk. */
  function LoneLayers(layers: seq<seq<Chunk>>): nat {
    if layers == [] then 0
    else LoneLayers(layers[..|layers| - 1]) + if |layers| > 1 && |layers[|layers| - 1]| == 1 then 1 else 0
  }

  lemma {:induction false} ReasonCount(loc: Locale, cap: nat, layers: seq<seq<Chunk>>)
    requires forall k :: 0 <= k < |layers| ==> layers[k] != []
    ensures |AllReasons(loc, cap, layers)| == |AllWaves(loc, cap, layers)| - |layers| + LoneLayers(layers)
  {
    if layers != [] {
      var front, last := layers[..|layers| - 1], layers[|layers| - 1];
      ReasonCount(loc, cap, front);
      LayerReasonCount(loc, cap, last, |layers| > 1, |last| == 1);
    }
  }

  /** Accounting: one entry per wave beyond the layers, and one per lone layer. */
  lemma ScheduleReasonCount(chunks: seq<Chunk>, loc: Locale, cap: nat, s: Schedule) returns (layers: seq<seq<Chunk>>)
    requires IsSchedule(chunks, loc, cap, s)
    ensures ExactLayers(chunks, loc, layers) && s.waves == AllWaves(loc, cap, layers) && s.reasons == AllReasons(loc, cap, layers)
    ensures |s.reasons| == |s.waves| - |layers| + LoneLayers(layers)
  {
    hide Longest, SortedBy, DistinctIds;
    layers :| ExactLayers(chunks, loc, layers) && s == Schedule(AllWaves(loc, cap, layers), AllReasons(loc, cap, layers));
    ReasonCount(loc, cap, layers);
  }

  // ----- the entries of one chunk

  /** The schedule's entries are those of its layers, in order. */
  lemma {:induction false} AllReasonsAre(loc: Locale, cap: nat, layers: seq<seq<Chunk>>)
    ensures AllReasons(loc, cap, layers) == Flatten(PerLayer(loc, cap, layers))
  {
    hide LayerReasons;
    if layers != [] {
      var front := layers[..|layers| - 1];
      AllReasonsAre(loc, cap, front);
      assert PerLayer(loc, cap, layers)[..|layers| - 1] == PerLayer(loc, cap, front);
    }
  }

  function PerLayer(loc: Locale, cap: nat, layers: seq<seq<Chunk>>): (r: seq<seq<Serialised>>)
    ensures |r| == |layers|
    ensures forall k :: 0 <= k < |r| ==> r[k] == LayerReasons(loc, cap, layers[k], k > 0, |layers[k]| == 1)
  {
    seq(|layers|, k requires 0 <= k < |layers| => LayerReasons(loc, cap, layers[k], k > 0, |layers[k]| == 1))
  }

  /** Filtering parts of which only one can hold a match. */
  lemma {:induction false} FilterFlatten<T>(keep: T -> bool, ss: seq<seq<T>>, m: nat)
    requires m < |ss| && forall k, x :: 0 <= k < |ss| && k != m && x in ss[k] ==> !keep(x)
    ensures Filter(keep, Flatten(ss)) == Filter(keep, ss[m])
  {
    var front, last := ss[..|ss| - 1], ss[|ss| - 1];
    FilterSplits(keep, Flatten(front), last);
    if m == |ss| - 1 {
      forall x | x in Flatten(front)
        ensures !keep(x)
      {
        FlattenMembers(front, x);
      }
      FilterNone(keep, Flatten(front));
    } else {
      FilterFlatten(keep, front, m);
      FilterNone(keep, last);
    }
  }

  function About(id: string): Serialised -> bool {
    (r: Serialised) => r.chunkId == id
  }

  /** The layer's entries for its `n`-th chunk. */
  lemma LayerEntriesOf(loc: Locale, cap: nat, layer: seq<Chunk>, later: bool, n: nat)
    requires DistinctIds(layer) && n < |layer|
    ensures Filter(About(layer[n].id), LayerReasons(loc, cap, layer, later, |layer| == 1)) ==
      ReasonAt(loc, cap, layer, later, n)
  {
    hide LayerReasons, ReasonAt, Filter, Flatten;
    LayerReasonsAre(loc, cap, layer, later, |layer|);
    assert layer[..|layer|] == layer;
    var parts := PerChunk(loc, cap, layer, later, |layer|);
    forall i, r: Serialised | 0 <= i < |layer| && r in parts[i]
      ensures r.chunkId == layer[i].id
    {
      ReasonNames(loc, cap, layer, later, i, r);
    }
    FilterFlatten(About(layer[n].id), parts, n);
    FilterAll(About(layer[n].id), parts[n]);
  }

  lemma ReasonNames(loc: Locale, cap: nat, layer: seq<Chunk>, later: bool, n: nat, r: Serialised)
    requires n < |layer| && r in ReasonAt(loc, cap, layer, later, n)
    ensures r.chunkId == layer[n].id
  {
  }

  lemma LayerNames(loc: Locale, cap: nat, layer: seq<Chunk>, later: bool, r: Serialised) returns (c: Chunk)
    requires r in LayerReasons(loc, cap, layer, later, |layer| == 1)
    ensures c in layer && r.chunkId == c.id
  {
    hide LayerReasons, ReasonAt, Flatten;
    LayerReasonsAre(loc, cap, layer, later, |layer|);
    assert layer[..|layer|] == layer;
    var parts := PerChunk(loc, cap, layer, later, |layer|);
    FlattenMembers(parts, r);
    var i :| 0 <= i < |parts| && r in parts[i];
    ReasonNames(loc, cap, layer, later, i, r);
    c := layer[i];
  }

  /** The schedule's entries for a chunk are those of its place in its layer, which `ReasonMeaning` explains; the
      first chunk of a layer has one exactly when it is alone there and the layer is not the first. */
  lemma EntriesOfChunk(chunks: seq<Chunk>, loc: Locale, cap: nat, s: Schedule, c: Chunk)
      returns (layers: seq<seq<Chunk>>, k: nat, n: nat)
    requires DistinctIds(chunks) && IsSchedule(chunks, loc, cap, s) && c in chunks
    ensures ExactLayers(chunks, loc, layers) && s == Schedule(AllWaves(loc, cap, layers), AllReasons(loc, cap, layers))
    ensures k < |layers| && n < |layers[k]| && layers[k][n] == c
    ensures Filter(About(c.id), s.reasons) == ReasonAt(loc, cap, layers[k], k > 0, n)
    ensures n == 0 ==>
      Filter(About(c.id), s.reasons) == (if k > 0 && |layers[k]| == 1 then [Serialised(c.id, Dependency, None)] else [])
  {
    hide Longest, SortedBy, LayerReasons, DistinctIds, AllReasons, AllWaves;
    layers :| ExactLayers(chunks, loc, layers) && s == Schedule(AllWaves(loc, cap, layers), AllReasons(loc, cap, layers));
    k :| 0 <= k < |layers| && c in layers[k];
    n :| 0 <= n < |layers[k]| && layers[k][n] == c;
    AllReasonsAre(loc, cap, layers);
    OtherLayersSilent(chunks, loc, cap, layers, c, k);
    FilterFlatten(About(c.id), PerLayer(loc, cap, layers), k);
    LayerEntriesOf(loc, cap, layers[k], k > 0, n);
    if n == 0 {
      FirstOfLayer(loc, cap, layers[k], k > 0);
    }
  }

  lemma FirstOfLayer(loc: Locale, cap: nat, layer: seq<Chunk>, later: bool)
    requires layer != []
    ensures ReasonAt(loc, cap, layer, later, 0) ==
      (if later && |layer| == 1 then [Serialised(layer[0].id, Dependency, None)] else [])
  {
  }

  lemma OtherLayersSilent(chunks: seq<Chunk>, loc: Locale, cap: nat, layers: seq<seq<Chunk>>, c: Chunk, k: nat)
    requires DistinctIds(chunks) && ExactLayers(chunks, loc, layers) && k < |layers| && c in layers[k]
    ensures forall j, r :: 0 <= j < |layers| && j != k && r in PerLayer(loc, cap, layers)[j] ==> !About(c.id)(r)
  {
    hide ExactLayers, Longest, LayerReasons, DistinctIds;
    forall j, r | 0 <= j < |layers| && j != k && r in PerLayer(loc, cap, layers)[j]
      ensures r.chunkId != c.id
    {
      var d := LayerNames(loc, cap, layers[j], j > 0, r);
      LayerMembers(chunks, loc, layers, j);
      LayerMembers(chunks, loc, layers, k);
      if d.id == c.id {
        SameIdSameChunk(chunks, c, d);
        LongestUnique(GraphOf(chunks), c.id, j, k);
      }
    }
  }

  /** Nothing is recorded but for chunks of the plan. */
  lemma EntriesNameChunks(chunks: seq<Chunk>, loc: Locale, cap: nat, s: Schedule, r: Serialised)
    requires IsSchedule(chunks, loc, cap, s) && r in s.reasons
    ensures r.chunkId in IdSet(chunks)
  {
    hide Longest, SortedBy, LayerReasons, DistinctIds, AllReasons, AllWaves;
    var layers :| ExactLayers(chunks, loc, layers) && s == Schedule(AllWaves(loc, cap, layers), AllReasons(loc, cap, layers));
    AllReasonsAre(loc, cap, layers);
    FlattenMembers(PerLayer(loc, cap, layers), r);
    var k :| 0 <= k < |layers| && r in PerLayer(loc, cap, layers)[k];
    var c := LayerNames(loc, cap, layers[k], k > 0, r);
    assert c in chunks;
  }
}
