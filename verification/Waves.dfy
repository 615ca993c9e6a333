/** The wave scheduler (`computeWaves`): layers packed one after the other, with a
    reason recorded for every chunk that had to wait. */
module Waves {
  import opened Prelude
  import opened Sorting
  import opened DependencyGraph
  import opened Chunks
  import opened Layers
  import opened Rounds
  import opened FirstFit

  datatype Reason = FileOverlap | ExclusiveResource | Dependency | CapSpill

  datatype Serialised = Serialised(chunkId: string, reason: Reason, conflictsWith: Option<string>)

  datatype Schedule = Schedule(waves: seq<seq<string>>, reasons: seq<Serialised>)

  datatype ScheduleError = CapTooSmall | Layering(error: LayerError)

  // ----- specification

  function FirstResourceClash(c: Chunk, s: seq<Chunk>): Option<string> {
    if s == [] then None
    else
      var earlier := FirstResourceClash(c, s[..|s| - 1]);
      if earlier.Some? then earlier
      else if ResourceConflict(c, s[|s| - 1]) then Some(s[|s| - 1].id) else None
  }

  function FirstFileClash(loc: Locale, c: Chunk, s: seq<Chunk>): Option<string> {
    if s == [] then None
    else
      var earlier := FirstFileClash(loc, c, s[..|s| - 1]);
      if earlier.Some? then earlier
      else if FileConflict(loc, c, s[|s| - 1]) then Some(s[|s| - 1].id) else None
  }

  /** Why `c` found no place among the sub-waves holding `s`. */
  function SplitReason(loc: Locale, c: Chunk, s: seq<Chunk>): Serialised {
    if FirstResourceClash(c, s).Some? then Serialised(c.id, ExclusiveResource, FirstResourceClash(c, s))
    else if FirstFileClash(loc, c, s).Some? then Serialised(c.id, FileOverlap, FirstFileClash(loc, c, s))
    else Serialised(c.id, CapSpill, None)
  }

  /** What is recorded when `c` arrives at `subs`: nothing if a sub-wave takes it. */
  function ReasonFor(loc: Locale, cap: nat, subs: seq<seq<Chunk>>, c: Chunk, later: bool, alone: bool): seq<Serialised> {
    if Slot(loc, cap, subs, c, 0) < |subs| then []
    else if subs == [] then (if later && alone then [Serialised(c.id, Dependency, None)] else [])
    else [SplitReason(loc, c, Flatten(subs))]
  }

  function LayerReasons(loc: Locale, cap: nat, layer: seq<Chunk>, later: bool, alone: bool): seq<Serialised> {
    if layer == [] then []
    else
      var front := layer[..|layer| - 1];
      LayerReasons(loc, cap, front, later, alone) +
      ReasonFor(loc, cap, Pack(loc, cap, front), layer[|layer| - 1], later, alone)
  }

  function WaveIds(loc: Locale, subs: seq<seq<Chunk>>): (r: seq<seq<string>>)
    ensures |r| == |subs| && forall k :: 0 <= k < |subs| ==> r[k] == Sort(loc.leq, Ids(subs[k]))
  {
    if subs == [] then [] else WaveIds(loc, subs[..|subs| - 1]) + [Sort(loc.leq, Ids(subs[|subs| - 1]))]
  }

  function AllWaves(loc: Locale, cap: nat, layers: seq<seq<Chunk>>): seq<seq<string>> {
    if layers == [] then []
    else AllWaves(loc, cap, layers[..|layers| - 1]) + WaveIds(loc, Pack(loc, cap, layers[|layers| - 1]))
  }

  function AllReasons(loc: Locale, cap: nat, layers: seq<seq<Chunk>>): seq<Serialised> {
    if layers == [] then []
    else
      var last := layers[|layers| - 1];
      AllReasons(loc, cap, layers[..|layers| - 1]) + LayerReasons(loc, cap, last, |layers| > 1, |last| == 1)
  }

  /** The plan's exact layers, packed and accounted for. */
  ghost predicate IsSchedule(chunks: seq<Chunk>, loc: Locale, cap: nat, s: Schedule) {
    exists layers :: ExactLayers(chunks, loc, layers) && s == Schedule(AllWaves(loc, cap, layers), AllReasons(loc, cap, layers))
  }

  // ----- implementation

  method HasResourceConflict(a: Chunk, b: Chunk) returns (r: bool)
    ensures r <==> exists x :: x in a.Resources() && x in b.Resources()
  {
    var aRes := set x | x in a.Resources();
    var list := b.Resources();
    for i := 0 to |list|
      invariant forall k :: 0 <= k < i ==> list[k] !in aRes
    {
      if list[i] in aRes {
        return true;
      }
    }
    return false;
  }

  method HasFileConflict(loc: Locale, a: Chunk, b: Chunk) returns (r: bool)
    ensures r <==> exists f, g :: f in a.declaredFiles && g in b.declaredFiles && loc.fold(f) == loc.fold(g)
  {
    var aFiles := set f | f in a.declaredFiles :: loc.fold(f);
    for i := 0 to |b.declaredFiles|
      invariant forall k :: 0 <= k < i ==> loc.fold(b.declaredFiles[k]) !in aFiles
    {
      if loc.fold(b.declaredFiles[i]) in aFiles {
        assert b.declaredFiles[i] in b.declaredFiles;
        return true;
      }
    }
    return false;
  }

  method FitsWave(loc: Locale, cap: nat, wave: seq<Chunk>, c: Chunk) returns (r: bool)
    ensures r == Fits(loc, cap, wave, c)
  {
    if |wave| >= cap {
      return false;
    }
    for i := 0 to |wave|
      invariant forall k :: 0 <= k < i ==> !Conflict(loc, c, wave[k])
    {
      var clash := HasResourceConflict(c, wave[i]);
      if !clash {
        clash := HasFileConflict(loc, c, wave[i]);
      }
      if clash {
        assert wave[i] in wave && Conflict(loc, c, wave[i]);
        return false;
      }
    }
    return true;
  }

  lemma FlattenSnoc<T>(ss: seq<seq<T>>, k: nat)
    requires k < |ss|
    ensures Flatten(ss[..k + 1]) == Flatten(ss[..k]) + ss[k]
  {
    assert ss[..k + 1][..k] == ss[..k];
  }

  lemma FirstClashSnoc(loc: Locale, c: Chunk, s: seq<Chunk>, x: Chunk)
    ensures FirstResourceClash(c, s + [x]) ==
      if FirstResourceClash(c, s).Some? then FirstResourceClash(c, s) else if ResourceConflict(c, x) then Some(x.id) else None
    ensures FirstFileClash(loc, c, s + [x]) ==
      if FirstFileClash(loc, c, s).Some? then FirstFileClash(loc, c, s) else if FileConflict(loc, c, x) then Some(x.id) else None
  {
    assert (s + [x])[..|s|] == s;
  }

  lemma {:induction false} FirstClashStable(loc: Locale, c: Chunk, s: seq<Chunk>, t: seq<Chunk>)
    ensures FirstResourceClash(c, s).Some? ==> FirstResourceClash(c, s + t) == FirstResourceClash(c, s)
    ensures FirstFileClash(loc, c, s).Some? ==> FirstFileClash(loc, c, s + t) == FirstFileClash(loc, c, s)
  {
    hide ResourceConflict, FileConflict, FirstResourceClash, FirstFileClash;
    if t == [] {
      assert s + t == s;
    } else {
      FirstClashStable(loc, c, s, t[..|t| - 1]);
      FirstClashSnoc(loc, c, s + t[..|t| - 1], t[|t| - 1]);
      assert s + t == (s + t[..|t| - 1]) + [t[|t| - 1]];
    }
  }

  method FindResourceClash(loc: Locale, subs: seq<seq<Chunk>>, c: Chunk) returns (clash: Option<string>)
    ensures clash == FirstResourceClash(c, Flatten(subs))
  {
    hide ResourceConflict;
    for i := 0 to |subs|
      invariant FirstResourceClash(c, Flatten(subs[..i])).None?
    {
      var wave := subs[i];
      FlattenSnoc(subs, i);
      assert wave[..0] == [] && Flatten(subs[..i]) + [] == Flatten(subs[..i]);
      for j := 0 to |wave|
        invariant FirstResourceClash(c, Flatten(subs[..i]) + wave[..j]).None?
      {
        var seen := Flatten(subs[..i]) + wave[..j];
        FirstClashSnoc(loc, c, seen, wave[j]);
        assert seen + [wave[j]] == Flatten(subs[..i]) + wave[..j + 1];
        var hit := ClashTest(c, wave[j]);
        if hit {
          Remainder(subs, i, j);
          FirstClashStable(loc, c, seen + [wave[j]], wave[j + 1..] + Flatten(subs[i + 1..]));
          return Some(wave[j].id);
        }
      }
      assert wave[..|wave|] == wave;
    }
    assert subs[..|subs|] == subs;
    return None;
  }

  method ClashTest(a: Chunk, b: Chunk) returns (r: bool)
    ensures r == ResourceConflict(a, b)
  {
    r := HasResourceConflict(a, b);
  }

  method FileClashTest(loc: Locale, a: Chunk, b: Chunk) returns (r: bool)
    ensures r == FileConflict(loc, a, b)
  {
    r := HasFileConflict(loc, a, b);
  }

  lemma Remainder(subs: seq<seq<Chunk>>, i: nat, j: nat)
    requires i < |subs| && j < |subs[i]|
    ensures Flatten(subs) == (Flatten(subs[..i]) + subs[i][..j] + [subs[i][j]]) + (subs[i][j + 1..] + Flatten(subs[i + 1..]))
  {
    FlattenSnoc(subs, i);
    FlattenConcat(subs[..i + 1], subs[i + 1..]);
    assert subs == subs[..i + 1] + subs[i + 1..];
    assert subs[i] == subs[i][..j] + [subs[i][j]] + subs[i][j + 1..];
  }

  lemma NoClashYet(loc: Locale, c: Chunk, subs: seq<seq<Chunk>>)
    ensures FirstFileClash(loc, c, Flatten(subs[..0])).None?
  {
  }

  method FindFileClash(loc: Locale, subs: seq<seq<Chunk>>, c: Chunk) returns (clash: Option<string>)
    ensures clash == FirstFileClash(loc, c, Flatten(subs))
  {
    hide FileConflict, FirstFileClash, FirstResourceClash, Flatten;
    NoClashYet(loc, c, subs);
    for i := 0 to |subs|
      invariant FirstFileClash(loc, c, Flatten(subs[..i])).None?
    {
      var wave := subs[i];
      FlattenSnoc(subs, i);
      assert wave[..0] == [] && Flatten(subs[..i]) + [] == Flatten(subs[..i]);
      for j := 0 to |wave|
        invariant FirstFileClash(loc, c, Flatten(subs[..i]) + wave[..j]).None?
      {
        var seen := Flatten(subs[..i]) + wave[..j];
        FirstClashSnoc(loc, c, seen, wave[j]);
        assert seen + [wave[j]] == Flatten(subs[..i]) + wave[..j + 1];
        var hit := FileClashTest(loc, c, wave[j]);
        if hit {
          Remainder(subs, i, j);
          FirstClashStable(loc, c, seen + [wave[j]], wave[j + 1..] + Flatten(subs[i + 1..]));
          return Some(wave[j].id);
        }
      }
      assert wave[..|wave|] == wave;
    }
    assert subs[..|subs|] == subs;
    return None;
  }

  /** The scan over the sub-waves opened so far. */
  method FindSlot(loc: Locale, cap: nat, subs: seq<seq<Chunk>>, c: Chunk) returns (wi: nat, taken: bool)
    ensures wi == Slot(loc, cap, subs, c, 0) && (taken <==> wi < |subs|)
  {
    hide Fits;
    taken, wi := false, 0;
    while wi < |subs| && !taken
      invariant wi <= |subs|
      invariant !taken ==> Slot(loc, cap, subs, c, 0) == Slot(loc, cap, subs, c, wi)
      invariant taken ==> wi < |subs| && Slot(loc, cap, subs, c, 0) == wi
      decreases |subs| - wi, !taken
    {
      var fits := FitsWave(loc, cap, subs[wi], c);
      if fits {
        taken := true;
      } else {
        wi := wi + 1;
      }
    }
  }

  /** The reason for a chunk that no sub-wave takes. */
  method ExplainSplit(loc: Locale, subs: seq<seq<Chunk>>, c: Chunk) returns (r: Serialised)
    ensures r == SplitReason(loc, c, Flatten(subs))
  {
    hide FirstResourceClash, FirstFileClash, Flatten;
    var reason := CapSpill;
    var conflict := FindResourceClash(loc, subs, c);
    if conflict.Some? {
      reason := ExclusiveResource;
    }
    if reason == CapSpill {
      conflict := FindFileClash(loc, subs, c);
      if conflict.Some? {
        reason := FileOverlap;
      }
    }
    r := Serialised(c.id, reason, conflict);
  }

  /** What is recorded for a chunk that opens a sub-wave. */
  method Explain(loc: Locale, cap: nat, subs: seq<seq<Chunk>>, c: Chunk, later: bool, alone: bool)
    returns (added: seq<Serialised>)
    requires Slot(loc, cap, subs, c, 0) == |subs|
    ensures added == ReasonFor(loc, cap, subs, c, later, alone)
  {
    hide Slot, SplitReason, Flatten;
    added := [];
    if |subs| == 0 {
      if later && alone {
        added := [Serialised(c.id, Dependency, None)];
      }
    } else {
      var r := ExplainSplit(loc, subs, c);
      added := [r];
    }
  }

  /** One more chunk: the specification's step. */
  lemma PackStep(loc: Locale, cap: nat, layer: seq<Chunk>, n: nat, later: bool)
    requires n < |layer|
    ensures var subs, c := Pack(loc, cap, layer[..n]), layer[n];
      && Pack(loc, cap, layer[..n + 1]) == PutAt(subs, Slot(loc, cap, subs, c, 0), c)
      && LayerReasons(loc, cap, layer[..n + 1], later, |layer| == 1) ==
           LayerReasons(loc, cap, layer[..n], later, |layer| == 1) + ReasonFor(loc, cap, subs, c, later, |layer| == 1)
  {
    hide Slot, PutAt, ReasonFor;
    assert layer[..n + 1][..n] == layer[..n] && layer[..n + 1][n] == layer[n];
  }

  lemma Joins(loc: Locale, cap: nat, subs: seq<seq<Chunk>>, c: Chunk, later: bool, alone: bool)
    requires Slot(loc, cap, subs, c, 0) < |subs|
    ensures ReasonFor(loc, cap, subs, c, later, alone) == []
  {
  }

  method PackLayer(loc: Locale, cap: nat, layer: seq<Chunk>, later: bool) returns (subs: seq<seq<Chunk>>, reasons: seq<Serialised>)
    requires cap >= 1
    ensures subs == Pack(loc, cap, layer)
    ensures reasons == LayerReasons(loc, cap, layer, later, |layer| == 1)
  {
    NothingPacked(loc, cap, later, |layer| == 1);
    hide Pack, LayerReasons, Slot, ReasonFor;
    subs, reasons := [], [];
    assert layer[..0] == [];
    for n := 0 to |layer|
      invariant subs == Pack(loc, cap, layer[..n])
      invariant reasons == LayerReasons(loc, cap, layer[..n], later, |layer| == 1)
    {
      var chunk := layer[n];
      PackStep(loc, cap, layer, n, later);
      var wi, taken := FindSlot(loc, cap, subs, chunk);
      if taken {
        Joins(loc, cap, subs, chunk, later, |layer| == 1);
        subs := subs[wi := subs[wi] + [chunk]];
      } else {
        var added := Explain(loc, cap, subs, chunk, later, |layer| == 1);
        reasons := reasons + added;
        subs := subs + [[chunk]];
      }
    }
    assert layer[..|layer|] == layer;
  }

  lemma NothingPacked(loc: Locale, cap: nat, later: bool, alone: bool)
    ensures Pack(loc, cap, []) == [] && LayerReasons(loc, cap, [], later, alone) == []
  {
  }

  method AppendWaves(loc: Locale, waves: seq<seq<string>>, subs: seq<seq<Chunk>>) returns (r: seq<seq<string>>)
    ensures r == waves + WaveIds(loc, subs)
  {
    r := waves;
    for i := 0 to |subs|
      invariant r == waves + WaveIds(loc, subs)[..i]
    {
      r := r + [Sort(loc.leq, Ids(subs[i]))];
    }
  }

  method EmitWaves(loc: Locale, cap: nat, layers: seq<seq<Chunk>>) returns (waves: seq<seq<string>>, reasons: seq<Serialised>)
    requires cap >= 1
    ensures waves == AllWaves(loc, cap, layers) && reasons == AllReasons(loc, cap, layers)
  {
    hide Pack, LayerReasons;
    waves, reasons := [], [];
    assert layers[..0] == [];
    for k := 0 to |layers|
      invariant waves == AllWaves(loc, cap, layers[..k])
      invariant reasons == AllReasons(loc, cap, layers[..k])
    {
      ghost var now := layers[..k + 1];
      assert now[..|now| - 1] == layers[..k] && now[|now| - 1] == layers[k];
      var subs, added := PackLayer(loc, cap, layers[k], k > 0);
      reasons := reasons + added;
      waves := AppendWaves(loc, waves, subs);
    }
    assert layers[..|layers|] == layers;
  }

  /** The whole scheduler, wherever the frontier loop ends: `SettlesIff` says when, and distinct ids are enough. */
  method ComputeWaves(chunks: seq<Chunk>, loc: Locale, cap: int) returns (r: Result<Schedule, ScheduleError>)
    requires loc.Valid() && (cap >= 1 && AllKnown(chunks) ==> Settles(chunks))
    ensures r == Err(CapTooSmall) <==> cap < 1
    ensures cap >= 1 && !AllKnown(chunks) ==>
      && r.Err? && r.error.Layering? && r.error.error.UnknownDependency? && r.error.error.dep !in IdSet(chunks)
    ensures cap >= 1 && AllKnown(chunks) && !DistinctIds(chunks) ==>
      && r.Err? && r.error.Layering? && r.error.error.DependencyCycle?
      && (forall id :: id in r.error.error.ids <==> id in IdSet(chunks) && id !in Placeable(chunks))
    ensures cap >= 1 && AllKnown(chunks) && DistinctIds(chunks) ==> (r.Err? <==> Cyclic(GraphOf(chunks)))
    ensures r.Err? && r.error.Layering? && r.error.error.DependencyCycle? && DistinctIds(chunks) ==>
      NamesTheCyclic(chunks, loc, r.error.error.ids)
    ensures r.Ok? ==> DistinctIds(chunks) && IsSchedule(chunks, loc, cap, r.value)
  {
    hide NamesTheCyclic, Cyclic, ExactLayers, IdSet, Settles, Placeable, SortedBy;
    if cap < 1 {
      return Err(CapTooSmall);
    }
    if |chunks| == 0 {
      EmptyPlan(loc, cap);
      return Ok(Schedule([], []));
    }
    var layered := TopologicalLayers(chunks, loc);
    if layered.Err? {
      return Err(Layering(layered.error));
    }
    var waves, reasons := EmitWaves(loc, cap, layered.value);
    return Ok(Schedule(waves, reasons));
  }

  lemma EmptyPlan(loc: Locale, cap: nat)
    ensures ExactLayers([], loc, [])
    ensures AllWaves(loc, cap, []) == [] && AllReasons(loc, cap, []) == []
    ensures Closed(GraphOf([])) && !Cyclic(GraphOf([]))
  {
    assert IdSet([]) == {};
  }
}
