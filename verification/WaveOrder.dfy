/** In which order a schedule lists its waves: layer by layer, and within a layer first fit. */
module WaveOrder {
  import opened Prelude
  import opened Sorting
  import opened DependencyGraph
  import opened Chunks
  import opened Layers
  import opened FirstFit
  import opened Waves
  import opened ScheduleProperties

  // ----- how a layer is packed

  /** Sub-waves only grow at the end, each of them and all of them. */
  ghost predicate Extends(subs: seq<seq<Chunk>>, later: seq<seq<Chunk>>) {
    |subs| <= |later| && forall t :: 0 <= t < |subs| ==> subs[t] <= later[t]
  }

  lemma {:induction false} PackExtends(loc: Locale, cap: nat, layer: seq<Chunk>, n: nat)
    requires n <= |layer|
    ensures Extends(Pack(loc, cap, layer[..n]), Pack(loc, cap, layer))
    decreases |layer| - n
  {
    hide Slot, Extends;
    if n < |layer| {
      PackExtends(loc, cap, layer, n + 1);
      assert layer[..n + 1][..n] == layer[..n] && layer[..n + 1][n] == layer[n];
      var subs := Pack(loc, cap, layer[..n]);
      PutExtends(subs, Slot(loc, cap, subs, layer[n], 0), layer[n]);
      ExtendsOn(subs, Pack(loc, cap, layer[..n + 1]), Pack(loc, cap, layer));
    } else {
      assert layer[..n] == layer;
      ExtendsSelf(Pack(loc, cap, layer));
    }
  }

  lemma PutExtends(subs: seq<seq<Chunk>>, k: nat, c: Chunk)
    requires k <= |subs|
    ensures Extends(subs, PutAt(subs, k, c)) && k < |PutAt(subs, k, c)| && c in PutAt(subs, k, c)[k]
  {
    if k < |subs| {
      assert (subs[k] + [c])[|subs[k]|] == c;
    }
  }

  lemma ExtendsSelf(a: seq<seq<Chunk>>)
    ensures Extends(a, a)
  {
  }

  lemma ExtendsOn(a: seq<seq<Chunk>>, b: seq<seq<Chunk>>, c: seq<seq<Chunk>>)
    requires Extends(a, b) && Extends(b, c)
    ensures Extends(a, c)
  {
  }

  /** The `n`-th chunk of a layer stays in the first sub-wave that takes it when it comes. */
  lemma StaysInSlot(loc: Locale, cap: nat, layer: seq<Chunk>, n: nat) returns (t: nat)
    requires n < |layer|
    ensures t == Slot(loc, cap, Pack(loc, cap, layer[..n]), layer[n], 0)
    ensures t < |Pack(loc, cap, layer)| && layer[n] in Pack(loc, cap, layer)[t]
  {
    hide Slot, Extends;
    var subs := Pack(loc, cap, layer[..n]);
    t := Slot(loc, cap, subs, layer[n], 0);
    assert layer[..n + 1][..n] == layer[..n] && layer[..n + 1][n] == layer[n];
    PutExtends(subs, t, layer[n]);
    PackExtends(loc, cap, layer, n + 1);
    ExtendsAt(Pack(loc, cap, layer[..n + 1]), Pack(loc, cap, layer), t, layer[n]);
  }

  lemma ExtendsAt(a: seq<seq<Chunk>>, b: seq<seq<Chunk>>, t: nat, c: Chunk)
    requires Extends(a, b) && t < |a| && c in a[t]
    ensures t < |b| && c in b[t]
  {
  }

  /** A chunk of a layer is in one sub-wave only. */
  lemma OneSubWave(loc: Locale, cap: nat, layer: seq<Chunk>, c: Chunk, t: nat, u: nat)
    requires DistinctIds(layer) && t < |Pack(loc, cap, layer)| && u < |Pack(loc, cap, layer)|
    requires c in Pack(loc, cap, layer)[t] && c in Pack(loc, cap, layer)[u]
    ensures t == u
  {
    hide Pack;
    PackPartitions(loc, cap, layer);
    DistinctIdsAreDistinct(layer);
    CountDistinct(layer, c);
    if t < u {
      CountTwice(Pack(loc, cap, layer), c, t, u);
    } else if u < t {
      CountTwice(Pack(loc, cap, layer), c, u, t);
    }
  }

  lemma {:induction false} CountDistinct(s: seq<Chunk>, c: Chunk)
    requires Distinct(s)
    ensures multiset(s)[c] <= 1
  {
    if s != [] {
      var front := s[..|s| - 1];
      CountDistinct(front, c);
      assert s == front + [s[|s| - 1]];
      if s[|s| - 1] == c {
        assert c !in front;
        assert multiset(front)[c] == 0;
      }
    }
  }

  lemma {:induction false} CountTwice(ss: seq<seq<Chunk>>, c: Chunk, t: nat, u: nat)
    requires t < u < |ss| && c in ss[t] && c in ss[u]
    ensures multiset(Flatten(ss))[c] >= 2
  {
    var front, last := ss[..|ss| - 1], ss[|ss| - 1];
    if u == |ss| - 1 {
      FlattenMembers(front, c);
      assert c in front[t];
      assert c in Flatten(front) && c in last;
      assert multiset(Flatten(front))[c] >= 1 && multiset(last)[c] >= 1;
    } else {
      CountTwice(front, c, t, u);
    }
  }

  // ----- where a chunk is in a schedule

  /** Wave `i` is the `t`-th cut from layer `k`, and `c`, the `n`-th chunk of that layer, is in it. */
  ghost predicate Sits(loc: Locale, cap: nat, layers: seq<seq<Chunk>>, c: Chunk, i: nat, k: nat, n: nat, t: nat) {
    && k < |layers| && n < |layers[k]| && layers[k][n] == c
    && t == Slot(loc, cap, Pack(loc, cap, layers[k][..n]), c, 0)
    && i == |AllWaves(loc, cap, layers[..k])| + t
  }

  lemma SeatOf(chunks: seq<Chunk>, loc: Locale, cap: nat, layers: seq<seq<Chunk>>, c: Chunk, i: nat) returns (k: nat, n: nat, t: nat)
    requires DistinctIds(chunks) && ExactLayers(chunks, loc, layers) && c in chunks
    requires i < |AllWaves(loc, cap, layers)| && c.id in AllWaves(loc, cap, layers)[i]
    ensures Sits(loc, cap, layers, c, i, k, n, t) && Longest(GraphOf(chunks), c.id, k)
  {
    hide Slot, Pack, Longest, SortedBy, DistinctIds, AllWaves;
    t := ChunkOfWave(chunks, loc, cap, layers, c, i);
    k := LayerOfWave(loc, cap, layers, i);
    LayerMembers(chunks, loc, layers, k);
    n :| 0 <= n < |layers[k]| && layers[k][n] == c;
    var u := StaysInSlot(loc, cap, layers[k], n);
    OneSubWave(loc, cap, layers[k], c, t, u);
  }

  /** A chunk that was in a sub-wave of the layer when the `n`-th came is in the wave cut from it. */
  lemma InWave(loc: Locale, cap: nat, layers: seq<seq<Chunk>>, k: nat, n: nat, u: nat, m: Chunk)
    requires k < |layers| && n <= |layers[k]| && u < |Pack(loc, cap, layers[k][..n])| && m in Pack(loc, cap, layers[k][..n])[u]
    ensures var j := |AllWaves(loc, cap, layers[..k])| + u;
      j < |AllWaves(loc, cap, layers)| && m.id in AllWaves(loc, cap, layers)[j]
  {
    hide Pack;
    PackExtends(loc, cap, layers[k], n);
    ExtendsAt(Pack(loc, cap, layers[k][..n]), Pack(loc, cap, layers[k]), u, m);
    WaveAt(loc, cap, layers, k, u);
    var sub := Pack(loc, cap, layers[k])[u];
    SortPermutes(loc.leq, Ids(sub));
    IdsMembers(sub);
    assert m.id in Ids(sub);
    assert m.id in multiset(Sort(loc.leq, Ids(sub)));
  }

  /** Waves are listed layer by layer, and within a layer in the order in which they were opened. */
  lemma {:induction false} WaveAt(loc: Locale, cap: nat, layers: seq<seq<Chunk>>, k: nat, t: nat)
    requires k < |layers| && t < |Pack(loc, cap, layers[k])|
    ensures var i := |AllWaves(loc, cap, layers[..k])| + t;
      i < |AllWaves(loc, cap, layers)| && AllWaves(loc, cap, layers)[i] == Sort(loc.leq, Ids(Pack(loc, cap, layers[k])[t]))
  {
    hide Pack;
    var front := layers[..|layers| - 1];
    if k < |layers| - 1 {
      WaveAt(loc, cap, front, k, t);
      assert front[..k] == layers[..k];
    }
  }

  /** Chunks of a shorter longest chain run in earlier waves. */
  lemma LayersInOrder(chunks: seq<Chunk>, loc: Locale, cap: nat, s: Schedule, c: Chunk, d: Chunk, i: nat, j: nat, k: nat, m: nat)
    requires DistinctIds(chunks) && IsSchedule(chunks, loc, cap, s) && c in chunks && d in chunks
    requires i < |s.waves| && j < |s.waves| && c.id in s.waves[i] && d.id in s.waves[j]
    requires Longest(GraphOf(chunks), c.id, k) && Longest(GraphOf(chunks), d.id, m) && k < m
    ensures i < j
  {
    hide ExactLayers, Longest, Sits, AllWaves, AllReasons, DistinctIds;
    var layers :| ExactLayers(chunks, loc, layers)
      && s == Schedule(AllWaves(loc, cap, layers), AllReasons(loc, cap, layers));
    var t := ChunkOfWave(chunks, loc, cap, layers, c, i);
    var u := ChunkOfWave(chunks, loc, cap, layers, d, j);
    var k', m' := LayerOfWave(loc, cap, layers, i), LayerOfWave(loc, cap, layers, j);
    LayerMembers(chunks, loc, layers, k');
    LayerMembers(chunks, loc, layers, m');
    LongestUnique(GraphOf(chunks), c.id, k, k');
    LongestUnique(GraphOf(chunks), d.id, m, m');
    if j <= i {
      LaterWaveLaterLayer(loc, cap, layers, j, i);
    }
  }

  // ----- first fit

  /** The members of a wave that come no later than `c` in the order of ids. */
  ghost function UpTo(chunks: seq<Chunk>, loc: Locale, wave: seq<string>, c: Chunk): set<Chunk> {
    set m | m in chunks && m.id in wave && loc.leq(m.id, c.id)
  }

  /** First fit, as the waves show it: every earlier wave of a chunk's layer is full with chunks up to it, or one of
      those clashes with it. */
  lemma EarlierWavesRefuse(chunks: seq<Chunk>, loc: Locale, cap: nat, s: Schedule, c: Chunk, d: Chunk, i: nat, j: nat, k: nat)
    requires DistinctIds(chunks) && loc.Valid() && cap >= 1 && IsSchedule(chunks, loc, cap, s)
    requires c in chunks && d in chunks && j < i < |s.waves| && c.id in s.waves[i] && d.id in s.waves[j]
    requires Longest(GraphOf(chunks), c.id, k) && Longest(GraphOf(chunks), d.id, k)
    ensures |UpTo(chunks, loc, s.waves[j], c)| >= cap || exists m :: m in UpTo(chunks, loc, s.waves[j], c) && Clash(loc, m, c)
  {
    hide ExactLayers, Longest, AllWaves, AllReasons, DistinctIds, Pack, Slot, Conflict, UpTo, Clash, SortedBy;
    var layers :| ExactLayers(chunks, loc, layers)
      && s == Schedule(AllWaves(loc, cap, layers), AllReasons(loc, cap, layers));
    var k1, n, t := SeatOf(chunks, loc, cap, layers, c, i);
    var k2, n2, u := SeatOf(chunks, loc, cap, layers, d, j);
    LongestUnique(GraphOf(chunks), c.id, k, k1);
    LongestUnique(GraphOf(chunks), d.id, k, k2);
    var sub := Pack(loc, cap, layers[k][..n])[u];
    assert !Fits(loc, cap, sub, c);
    forall m | m in sub
      ensures m in UpTo(chunks, loc, s.waves[j], c)
    {
      InWave(loc, cap, layers, k, n, u, m);
      CameBefore(chunks, loc, cap, layers, k, n, u, m);
      InUpTo(chunks, loc, s.waves[j], c, m);
    }
    if |sub| >= cap {
      SubDistinct(chunks, loc, cap, layers, k, n, u);
      AtLeast(sub, UpTo(chunks, loc, s.waves[j], c));
    } else {
      var m :| m in sub && Conflict(loc, c, m);
      ClashIsConflict(loc, m, c);
    }
  }

  lemma InUpTo(chunks: seq<Chunk>, loc: Locale, wave: seq<string>, c: Chunk, m: Chunk)
    requires m in chunks && m.id in wave && loc.leq(m.id, c.id)
    ensures m in UpTo(chunks, loc, wave, c)
  {
  }

  /** Members of the layer's sub-waves at the time of the `n`-th chunk stand before it. */
  lemma CameBefore(chunks: seq<Chunk>, loc: Locale, cap: nat, layers: seq<seq<Chunk>>, k: nat, n: nat, u: nat, m: Chunk)
    requires ExactLayers(chunks, loc, layers) && k < |layers| && n < |layers[k]|
    requires u < |Pack(loc, cap, layers[k][..n])| && m in Pack(loc, cap, layers[k][..n])[u]
    ensures m in chunks && loc.leq(m.id, layers[k][n].id)
  {
    hide Longest, Pack, DistinctIds;
    SubWaveMember(loc, cap, layers[k][..n], u, m);
    var a :| 0 <= a < |layers[k][..n]| && layers[k][..n][a] == m;
    assert loc.ByChunkId()(layers[k][a], layers[k][n]);
    assert m in layers[k];
  }

  lemma SubDistinct(chunks: seq<Chunk>, loc: Locale, cap: nat, layers: seq<seq<Chunk>>, k: nat, n: nat, u: nat)
    requires ExactLayers(chunks, loc, layers) && k < |layers| && n < |layers[k]| && u < |Pack(loc, cap, layers[k][..n])|
    ensures Distinct(Pack(loc, cap, layers[k][..n])[u])
  {
    hide Longest, Pack, SortedBy;
    var layer := layers[k][..n];
    assert DistinctIds(layer);
    DistinctIdsAreDistinct(layer);
    PackPartitions(loc, cap, layer);
    forall a, b | 0 <= a < b < |Pack(loc, cap, layer)[u]|
      ensures Pack(loc, cap, layer)[u][a] != Pack(loc, cap, layer)[u][b]
    {
      var x := Pack(loc, cap, layer)[u][a];
      CountDistinct(layer, x);
      if x == Pack(loc, cap, layer)[u][b] {
        RepeatCounts(Pack(loc, cap, layer)[u], a, b);
        PartCounts(Pack(loc, cap, layer), u, x);
      }
    }
  }

  lemma RepeatCounts(s: seq<Chunk>, a: nat, b: nat)
    requires a < b < |s| && s[a] == s[b]
    ensures multiset(s)[s[a]] >= 2
  {
    var front, back := s[..b], s[b + 1..];
    assert s == front + [s[b]] + back;
    assert s[a] in front;
    assert multiset(front)[s[a]] >= 1;
  }

  lemma {:induction false} PartCounts(ss: seq<seq<Chunk>>, u: nat, x: Chunk)
    requires u < |ss|
    ensures multiset(Flatten(ss))[x] >= multiset(ss[u])[x]
  {
    if u < |ss| - 1 {
      PartCounts(ss[..|ss| - 1], u, x);
    }
  }

  lemma {:induction false} AtLeast(s: seq<Chunk>, all: set<Chunk>)
    requires Distinct(s) && forall m :: m in s ==> m in all
    ensures |s| <= |all|
  {
    if s != [] {
      var front, last := s[..|s| - 1], s[|s| - 1];
      forall m | m in front
        ensures m in all - {last}
      {
        var a :| 0 <= a < |front| && front[a] == m;
        assert s[a] != last;
      }
      AtLeast(front, all - {last});
      assert last in s;
    }
  }

  // ----- entries

  /** An entry that names a conflict: the chunk it names runs in a strictly earlier wave. */
  lemma NamedRunsEarlier(chunks: seq<Chunk>, loc: Locale, cap: nat, s: Schedule, r: Serialised, m: string) returns (i: nat, j: nat)
    requires DistinctIds(chunks) && loc.Valid() && cap >= 1 && IsSchedule(chunks, loc, cap, s)
    requires r in s.reasons && r.conflictsWith == Some(m)
    ensures j < i < |s.waves| && r.chunkId in s.waves[i] && m in s.waves[j]
  {
    hide Longest, SortedBy, LayerReasons, DistinctIds, AllReasons, AllWaves, Pack, Slot, Flatten, FirstResourceClash, FirstFileClash;
    var layers :| ExactLayers(chunks, loc, layers)
      && s == Schedule(AllWaves(loc, cap, layers), AllReasons(loc, cap, layers));
    AllReasonsAre(loc, cap, layers);
    FlattenMembers(PerLayer(loc, cap, layers), r);
    var k :| 0 <= k < |layers| && r in PerLayer(loc, cap, layers)[k];
    var n := EntryPlace(loc, cap, layers[k], k > 0, r);
    var c := layers[k][n];
    var subs := Pack(loc, cap, layers[k][..n]);
    var x, u := NamedMember(loc, cap, subs, c, k > 0, |layers[k]| == 1, r, m);
    var t := StaysInSlot(loc, cap, layers[k], n);
    InWave(loc, cap, layers, k, n, u, x);
    assert layers[k][..|layers[k]|] == layers[k];
    InWave(loc, cap, layers, k, |layers[k]|, t, c);
    i, j := |AllWaves(loc, cap, layers[..k])| + t, |AllWaves(loc, cap, layers[..k])| + u;
  }

  /** Which chunk of the layer an entry belongs to. */
  lemma EntryPlace(loc: Locale, cap: nat, layer: seq<Chunk>, later: bool, r: Serialised) returns (n: nat)
    requires r in LayerReasons(loc, cap, layer, later, |layer| == 1)
    ensures n < |layer| && r.chunkId == layer[n].id && r in ReasonAt(loc, cap, layer, later, n)
  {
    hide LayerReasons, ReasonAt, Flatten;
    LayerReasonsAre(loc, cap, layer, later, |layer|);
    assert layer[..|layer|] == layer;
    var parts := PerChunk(loc, cap, layer, later, |layer|);
    FlattenMembers(parts, r);
    n :| 0 <= n < |parts| && r in parts[n];
    ReasonNames(loc, cap, layer, later, n, r);
  }

  /** The chunk an entry names is in a sub-wave, and none of them took the entry's own chunk. */
  lemma NamedMember(loc: Locale, cap: nat, subs: seq<seq<Chunk>>, c: Chunk, later: bool, alone: bool, r: Serialised, m: string)
    returns (x: Chunk, u: nat)
    requires r in ReasonFor(loc, cap, subs, c, later, alone) && r.conflictsWith == Some(m)
    ensures u < |subs| == Slot(loc, cap, subs, c, 0) && x in subs[u] && x.id == m
  {
    hide Flatten, ResourceConflict, FileConflict, Slot;
    ResourceClashMeans(c, Flatten(subs));
    FileClashMeans(loc, c, Flatten(subs));
    x :| x in Flatten(subs) && x.id == m;
    FlattenMembers(subs, x);
    u :| 0 <= u < |subs| && x in subs[u];
  }

  // ----- which chunk an entry names

  ghost function FlatIndex<T>(ss: seq<seq<T>>, u: nat, a: nat): nat
    requires u < |ss| && a < |ss[u]|
  {
    |Flatten(ss[..u])| + a
  }

  lemma {:induction false} FlatAt<T>(ss: seq<seq<T>>, u: nat, a: nat)
    requires u < |ss| && a < |ss[u]|
    ensures FlatIndex(ss, u, a) < |Flatten(ss)| && Flatten(ss)[FlatIndex(ss, u, a)] == ss[u][a]
  {
    if u < |ss| - 1 {
      FlatAt(ss[..|ss| - 1], u, a);
      assert ss[..|ss| - 1][..u] == ss[..u];
    }
  }

  lemma {:induction false} FlatWhere<T>(ss: seq<seq<T>>, p: nat) returns (u: nat, a: nat)
    requires p < |Flatten(ss)|
    ensures u < |ss| && a < |ss[u]| && FlatIndex(ss, u, a) == p
  {
    var front := ss[..|ss| - 1];
    if p < |Flatten(front)| {
      u, a := FlatWhere(front, p);
      assert front[..u] == ss[..u];
    } else {
      u, a := |ss| - 1, p - |Flatten(front)|;
    }
  }

  lemma {:induction false} FlatOrder<T>(ss: seq<seq<T>>, u: nat, a: nat, v: nat, b: nat)
    requires u < v < |ss| && a < |ss[u]| && b < |ss[v]|
    ensures FlatIndex(ss, u, a) < FlatIndex(ss, v, b)
  {
    FlatAt(ss[..v], u, a);
    assert ss[..v][..u] == ss[..u];
  }

  lemma {:induction false} FirstResourceAt(c: Chunk, s: seq<Chunk>) returns (p: nat)
    requires FirstResourceClash(c, s).Some?
    ensures p < |s| && ResourceConflict(c, s[p]) && s[p].id == FirstResourceClash(c, s).value
    ensures forall q :: 0 <= q < p ==> !ResourceConflict(c, s[q])
  {
    hide ResourceConflict;
    var front := s[..|s| - 1];
    if FirstResourceClash(c, front).Some? {
      p := FirstResourceAt(c, front);
    } else {
      p := |s| - 1;
      ResourceClashMeans(c, front);
      assert forall q :: 0 <= q < p ==> front[q] in front;
    }
  }

  lemma {:induction false} FirstFileAt(loc: Locale, c: Chunk, s: seq<Chunk>) returns (p: nat)
    requires FirstFileClash(loc, c, s).Some?
    ensures p < |s| && FileConflict(loc, c, s[p]) && s[p].id == FirstFileClash(loc, c, s).value
    ensures forall q :: 0 <= q < p ==> !FileConflict(loc, c, s[q])
  {
    hide FileConflict;
    var front := s[..|s| - 1];
    if FirstFileClash(loc, c, front).Some? {
      p := FirstFileAt(loc, c, front);
    } else {
      p := |s| - 1;
      FileClashMeans(loc, c, front);
      assert forall q :: 0 <= q < p ==> front[q] in front;
    }
  }

  /** The kind of clash an entry tells of. */
  ghost predicate ClashOf(loc: Locale, kind: Reason, a: Chunk, b: Chunk) {
    match kind
    case ExclusiveResource => exists r :: r in a.Resources() && r in b.Resources()
    case FileOverlap => exists f, g :: f in a.declaredFiles && g in b.declaredFiles && loc.fold(f) == loc.fold(g)
    case _ => false
  }

  /** The chunk an entry names clashes in the way it says, and is the first to do so among the sub-waves. */
  lemma NamesFirst(loc: Locale, cap: nat, subs: seq<seq<Chunk>>, c: Chunk, later: bool, alone: bool, r: Serialised, m: string)
    returns (u: nat, a: nat)
    requires r in ReasonFor(loc, cap, subs, c, later, alone) && r.conflictsWith == Some(m)
    ensures |subs| == Slot(loc, cap, subs, c, 0)
    ensures u < |subs| && a < |subs[u]| && subs[u][a].id == m && ClashOf(loc, r.reason, c, subs[u][a])
    ensures forall v, b :: 0 <= v < |subs| && 0 <= b < |subs[v]| && ClashOf(loc, r.reason, c, subs[v][b]) ==>
      u < v || (u == v && a <= b)
  {
    hide Flatten, ResourceConflict, FileConflict, Slot, ClashOf, FirstResourceClash, FirstFileClash;
    var p: nat;
    if FirstResourceClash(c, Flatten(subs)).Some? {
      p := FirstResourceAt(c, Flatten(subs));
    } else {
      p := FirstFileAt(loc, c, Flatten(subs));
    }
    u, a := FlatWhere(subs, p);
    FlatAt(subs, u, a);
    ClashOfMeans(loc, c, subs[u][a]);
    forall v: nat, b: nat | v < |subs| && b < |subs[v]| && ClashOf(loc, r.reason, c, subs[v][b])
      ensures u < v || (u == v && a <= b)
    {
      FlatAt(subs, v, b);
      ClashOfMeans(loc, c, subs[v][b]);
      if v < u {
        FlatOrder(subs, v, b, u, a);
      }
    }
  }

  lemma ClashOfMeans(loc: Locale, c: Chunk, d: Chunk)
    ensures ClashOf(loc, ExclusiveResource, c, d) == ResourceConflict(c, d)
    ensures ClashOf(loc, FileOverlap, c, d) == FileConflict(loc, c, d)
  {
  }

  /** Sub-waves list their chunks in the order of the layer. */
  lemma {:induction false} SubSorted(loc: Locale, cap: nat, layer: seq<Chunk>, u: nat)
    requires SortedBy(loc.ByChunkId(), layer) && u < |Pack(loc, cap, layer)|
    ensures SortedBy(loc.ByChunkId(), Pack(loc, cap, layer)[u])
  {
    hide Slot;
    var front, c := layer[..|layer| - 1], layer[|layer| - 1];
    var subs := Pack(loc, cap, front);
    SortedPrefix(loc, layer);
    if u < |subs| {
      SubSorted(loc, cap, front, u);
      forall a | 0 <= a < |subs[u]|
        ensures loc.ByChunkId()(subs[u][a], c)
      {
        SubWaveMember(loc, cap, front, u, subs[u][a]);
        var b :| 0 <= b < |front| && front[b] == subs[u][a];
        assert loc.ByChunkId()(layer[b], layer[|layer| - 1]);
      }
    }
  }

  lemma SortedPrefix(loc: Locale, layer: seq<Chunk>)
    requires SortedBy(loc.ByChunkId(), layer) && layer != []
    ensures SortedBy(loc.ByChunkId(), layer[..|layer| - 1])
  {
  }

  /** Both chunks have longest dependency chains of the same length, that is, are of one layer. */
  ghost predicate SameLevel(chunks: seq<Chunk>, c: Chunk, d: Chunk) {
    forall k: nat :: Longest(GraphOf(chunks), c.id, k) ==> Longest(GraphOf(chunks), d.id, k)
  }

  /** An entry that names a conflict names the first: no chunk before its own chunk that clashes with it in the same
      way runs in a wave of the layer before the named one's, or stands before the named one in its wave. */
  lemma NamedIsFirst(chunks: seq<Chunk>, loc: Locale, cap: nat, s: Schedule, r: Serialised, m: string, d: Chunk, i: nat)
      returns (c: Chunk, x: Chunk, j: nat)
    requires DistinctIds(chunks) && loc.Valid() && cap >= 1 && IsSchedule(chunks, loc, cap, s)
    requires r in s.reasons && r.conflictsWith == Some(m) && d in chunks && i < |s.waves| && d.id in s.waves[i]
    ensures c in chunks && c.id == r.chunkId && x in chunks && x.id == m
    ensures j < |s.waves| && m in s.waves[j] && ClashOf(loc, r.reason, c, x)
    ensures SameLevel(chunks, c, d) && !loc.leq(c.id, d.id) && ClashOf(loc, r.reason, c, d) ==>
      j < i || (j == i && loc.leq(m, d.id))
  {
    hide Longest, SortedBy, LayerReasons, DistinctIds, AllReasons, AllWaves, Pack, Slot, Flatten, ClashOf, ReasonFor;
    var layers :| ExactLayers(chunks, loc, layers)
      && s == Schedule(AllWaves(loc, cap, layers), AllReasons(loc, cap, layers));
    AllReasonsAre(loc, cap, layers);
    FlattenMembers(PerLayer(loc, cap, layers), r);
    var k :| 0 <= k < |layers| && r in PerLayer(loc, cap, layers)[k];
    var n := EntryPlace(loc, cap, layers[k], k > 0, r);
    c := layers[k][n];
    var subs := Pack(loc, cap, layers[k][..n]);
    var u, a := NamesFirst(loc, cap, subs, c, k > 0, |layers[k]| == 1, r, m);
    x := subs[u][a];
    CameBefore(chunks, loc, cap, layers, k, n, u, x);
    InWave(loc, cap, layers, k, n, u, x);
    j := |AllWaves(loc, cap, layers[..k])| + u;
    LayerMembers(chunks, loc, layers, k);
    assert c in layers[k];
    if SameLevel(chunks, c, d) && !loc.leq(c.id, d.id) && ClashOf(loc, r.reason, c, d) {
      assert Longest(GraphOf(chunks), c.id, k);
      var v, b := HeldBefore(chunks, loc, cap, layers, d, i, k, n);
      InOrderInside(chunks, loc, cap, layers, k, n, u, a, b, v);
    }
  }

  /** A chunk of the layer that stands before the `n`-th is in a sub-wave when that comes. */
  lemma HeldBefore(chunks: seq<Chunk>, loc: Locale, cap: nat, layers: seq<seq<Chunk>>, d: Chunk, i: nat, k: nat, n: nat)
      returns (v: nat, b: nat)
    requires DistinctIds(chunks) && loc.Valid() && ExactLayers(chunks, loc, layers) && d in chunks
    requires i < |AllWaves(loc, cap, layers)| && d.id in AllWaves(loc, cap, layers)[i]
    requires k < |layers| && n < |layers[k]| && Longest(GraphOf(chunks), d.id, k) && !loc.leq(layers[k][n].id, d.id)
    ensures var subs := Pack(loc, cap, layers[k][..n]);
      v < |subs| && b < |subs[v]| && subs[v][b] == d && i == |AllWaves(loc, cap, layers[..k])| + v
  {
    hide Longest, Pack, Slot, DistinctIds, SortedBy, AllWaves;
    var k', n', t := SeatOf(chunks, loc, cap, layers, d, i);
    LongestUnique(GraphOf(chunks), d.id, k, k');
    var layer := layers[k];
    if n <= n' {
      LayerSorted(chunks, loc, layers, k);
      InOrder(loc, layer, n, n');
    }
    var front := layer[..n];
    assert front[..n'] == layer[..n'] && front[n'] == d;
    v := StaysInSlot(loc, cap, front, n');
    var sub := Pack(loc, cap, front)[v];
    b :| 0 <= b < |sub| && sub[b] == d;
  }

  lemma InOrder(loc: Locale, layer: seq<Chunk>, n: nat, p: nat)
    requires loc.Valid() && SortedBy(loc.ByChunkId(), layer) && n <= p < |layer|
    ensures loc.leq(layer[n].id, layer[p].id)
  {
    if n < p {
      assert loc.ByChunkId()(layer[n], layer[p]);
    } else {
      assert Via(loc.leq, layer[n].id, layer[n].id, layer[n].id);
    }
  }

  lemma LayerSorted(chunks: seq<Chunk>, loc: Locale, layers: seq<seq<Chunk>>, k: nat)
    requires ExactLayers(chunks, loc, layers) && k < |layers|
    ensures SortedBy(loc.ByChunkId(), layers[k])
  {
  }

  lemma InOrderInside(chunks: seq<Chunk>, loc: Locale, cap: nat, layers: seq<seq<Chunk>>, k: nat, n: nat, u: nat, a: nat, b: nat, v: nat)
    requires loc.Valid() && ExactLayers(chunks, loc, layers) && k < |layers| && n < |layers[k]|
    requires var subs := Pack(loc, cap, layers[k][..n]); u < |subs| && v < |subs| && a < |subs[u]| && b < |subs[v]|
    requires u < v || (u == v && a <= b)
    ensures var subs := Pack(loc, cap, layers[k][..n]);
      u < v || (u == v && loc.leq(subs[u][a].id, subs[v][b].id))
  {
    hide Longest, Pack, DistinctIds;
    if u == v {
      var front := layers[k][..n];
      FrontSorted(loc, layers[k], n);
      SubSorted(loc, cap, front, u);
      InOrder(loc, Pack(loc, cap, front)[u], a, b);
    }
  }

  lemma FrontSorted(loc: Locale, layer: seq<Chunk>, n: nat)
    requires SortedBy(loc.ByChunkId(), layer) && n <= |layer|
    ensures SortedBy(loc.ByChunkId(), layer[..n])
  {
  }

  // ----- the order of the entries

  lemma FlatSplit<T>(ss: seq<seq<T>>, p: nat, q: nat) returns (u: nat, a: nat, v: nat, b: nat)
    requires p < q < |Flatten(ss)|
    ensures u <= v < |ss| && a < |ss[u]| && b < |ss[v]| && (u == v ==> a < b)
    ensures ss[u][a] == Flatten(ss)[p] && ss[v][b] == Flatten(ss)[q]
  {
    hide Flatten;
    u, a := FlatWhere(ss, p);
    v, b := FlatWhere(ss, q);
    FlatAt(ss, u, a);
    FlatAt(ss, v, b);
    if v < u {
      FlatOrder(ss, v, b, u, a);
    }
  }

  /** Entries are listed layer by layer, and within a layer in the order of ids. */
  lemma EntriesInOrder(chunks: seq<Chunk>, loc: Locale, cap: nat, s: Schedule, p: nat, q: nat)
      returns (c: Chunk, d: Chunk, k: nat, m: nat)
    requires DistinctIds(chunks) && loc.Valid() && IsSchedule(chunks, loc, cap, s) && p < q < |s.reasons|
    ensures c in chunks && c.id == s.reasons[p].chunkId && d in chunks && d.id == s.reasons[q].chunkId
    ensures Longest(GraphOf(chunks), c.id, k) && Longest(GraphOf(chunks), d.id, m)
    ensures k < m || (k == m && loc.leq(c.id, d.id))
  {
    hide Longest, SortedBy, LayerReasons, ReasonAt, DistinctIds, AllReasons, AllWaves, Flatten;
    var layers :| ExactLayers(chunks, loc, layers)
      && s == Schedule(AllWaves(loc, cap, layers), AllReasons(loc, cap, layers));
    AllReasonsAre(loc, cap, layers);
    var a, b;
    k, a, m, b := FlatSplit(PerLayer(loc, cap, layers), p, q);
    var n, o;
    if k == m {
      var layer := layers[k];
      LayerReasonsAre(loc, cap, layer, k > 0, |layer|);
      assert layer[..|layer|] == layer;
      var a', b';
      n, a', o, b' := FlatSplit(PerChunk(loc, cap, layer, k > 0, |layer|), a, b);
      ReasonNames(loc, cap, layer, k > 0, n, s.reasons[p]);
      ReasonNames(loc, cap, layer, k > 0, o, s.reasons[q]);
      LayerSorted(chunks, loc, layers, k);
      InOrder(loc, layer, n, o);
    } else {
      n := EntryPlace(loc, cap, layers[k], k > 0, s.reasons[p]);
      o := EntryPlace(loc, cap, layers[m], m > 0, s.reasons[q]);
    }
    c, d := layers[k][n], layers[m][o];
    LayerMembers(chunks, loc, layers, k);
    LayerMembers(chunks, loc, layers, m);
    assert c in layers[k] && d in layers[m];
  }
}
