/** Kahn layering (`topologicalLayers`): the frontier loop, and what its layers are. */
module Layers {
  import opened Prelude
  import opened Sorting
  import opened DependencyGraph
  import opened Chunks
  import opened Rounds

  datatype LayerError =
    | UnknownDependency(dep: string)
    | DependencyCycle(ids: seq<string>)

  ghost function Levels(layers: seq<seq<Chunk>>): (r: seq<set<string>>)
    ensures |r| == |layers| && forall k :: 0 <= k < |layers| ==> r[k] == IdSet(layers[k])
  {
    seq(|layers|, k requires 0 <= k < |layers| => IdSet(layers[k]))
  }

  /** Layer `k` lists, in id order, exactly the chunks whose longest dependency
      chain has `k` edges, and no chunk is left over. */
  ghost predicate ExactLayers(chunks: seq<Chunk>, loc: Locale, layers: seq<seq<Chunk>>) {
    && (forall k :: 0 <= k < |layers| ==>
          layers[k] != [] && SortedBy(loc.ByChunkId(), layers[k]) && DistinctIds(layers[k]))
    && (forall k, c :: 0 <= k < |layers| ==>
          (c in layers[k] <==> c in chunks && Longest(GraphOf(chunks), c.id, k)))
    && (forall c :: c in chunks ==> exists k :: 0 <= k < |layers| && c in layers[k])
  }

  /** What a cycle error names: in order, every chunk with a dependency chain as
      long as the plan, that is, every chunk that leads into a cycle. */
  ghost predicate NamesTheCyclic(chunks: seq<Chunk>, loc: Locale, ids: seq<string>) {
    && SortedBy(loc.leq, ids) && Distinct(ids)
    && (forall id :: id in ids <==> id in GraphOf(chunks) && HasChain(GraphOf(chunks), id, |chunks|))
    && CyclicWithin(GraphOf(chunks), set id | id in ids)
  }

  // ----- the successor index

  ghost predicate SuccessorsOf(done: seq<Chunk>, succ: map<string, seq<string>>) {
    && (forall c :: c in done ==> c.id in succ)
    && (forall x, s :: x in succ ==> (s in succ[x] <==> exists c :: c in done && c.id == s && x in c.dependsOn))
    && (forall c, x :: c in done && x in c.dependsOn ==> x in succ)
  }

  /** How many dependencies the last block of each id names. */
  function Indegrees(chunks: seq<Chunk>): map<string, nat> {
    map id | id in ById(chunks) :: |ById(chunks)[id].dependsOn|
  }

  lemma IndegreeSnoc(done: seq<Chunk>, chunk: Chunk)
    ensures Indegrees(done + [chunk]) == Indegrees(done)[chunk.id := |chunk.dependsOn|]
  {
    assert (done + [chunk])[..|done|] == done;
  }

  /** The inner loop: the chunk's id goes on the list of each of its dependencies. */
  method AddEdges(start: map<string, seq<string>>, chunk: Chunk) returns (succ: map<string, seq<string>>)
    ensures forall x :: x in succ <==> x in start || x in chunk.dependsOn
    ensures forall x, s :: x in succ ==>
      (s in succ[x] <==> (x in start && s in start[x]) || (s == chunk.id && x in chunk.dependsOn))
  {
    succ := start;
    for j := 0 to |chunk.dependsOn|
      invariant forall x :: x in succ <==> x in start || x in chunk.dependsOn[..j]
      invariant forall x, s :: x in succ ==>
        (s in succ[x] <==> (x in start && s in start[x]) || (s == chunk.id && x in chunk.dependsOn[..j]))
    {
      var dep := chunk.dependsOn[j];
      var list := if dep in succ then succ[dep] else [];
      succ := succ[dep := list + [chunk.id]];
      assert chunk.dependsOn[..j + 1] == chunk.dependsOn[..j] + [dep];
    }
    assert chunk.dependsOn[..|chunk.dependsOn|] == chunk.dependsOn;
  }

  method BuildSuccessors(chunks: seq<Chunk>) returns (succ: map<string, seq<string>>, indegree: map<string, nat>)
    ensures SuccessorsOf(chunks, succ)
    ensures indegree == Indegrees(chunks)
  {
    succ, indegree := map[], map[];
    assert chunks[..0] == [];
    for i := 0 to |chunks|
      invariant SuccessorsOf(chunks[..i], succ)
      invariant indegree == Indegrees(chunks[..i])
    {
      hide Indegrees;
      var chunk := chunks[i];
      IndegreeSnoc(chunks[..i], chunk);
      indegree := indegree[chunk.id := |chunk.dependsOn|];
      ghost var before := succ;
      if chunk.id !in succ {
        succ := succ[chunk.id := []];
      }
      succ := AddEdges(succ, chunk);
      SuccessorsStep(chunks[..i], chunk, before, succ);
      assert chunks[..i + 1] == chunks[..i] + [chunk];
    }
    assert chunks[..|chunks|] == chunks;
  }

  lemma SuccessorsStep(done: seq<Chunk>, chunk: Chunk, before: map<string, seq<string>>, after: map<string, seq<string>>)
    requires SuccessorsOf(done, before)
    requires forall x :: x in after <==> x in before || x == chunk.id || x in chunk.dependsOn
    requires forall x, s :: x in after ==>
      (s in after[x] <==> (x in before && s in before[x]) || (s == chunk.id && x in chunk.dependsOn))
    ensures SuccessorsOf(done + [chunk], after)
  {
    var now := done + [chunk];
    forall x, s | x in after
      ensures s in after[x] <==> exists c :: c in now && c.id == s && x in c.dependsOn
    {
      if x in before && s in before[x] {
        var c :| c in done && c.id == s && x in c.dependsOn;
        assert c in now;
      } else if s == chunk.id && x in chunk.dependsOn {
        assert chunk in now;
      }
    }
  }

  // ----- one round of the frontier

  /** The chunks the next round places: some dependency in the last layer, all of them placed. */
  ghost predicate NextLayer(chunks: seq<Chunk>, frontier: seq<Chunk>, placed: set<string>, next: seq<Chunk>) {
    && DistinctIds(next)
    && forall c :: c in next <==>
         && c in chunks
         && (forall d :: d in c.dependsOn ==> d in placed)
         && (exists d :: d in c.dependsOn && d in IdSet(frontier))
  }

  method SuccessorIds(frontier: seq<Chunk>, succ: map<string, seq<string>>) returns (next: seq<string>)
    ensures Distinct(next)
    ensures forall s :: s in next <==> exists c :: c in frontier && c.id in succ && s in succ[c.id]
  {
    next := [];
    for i := 0 to |frontier|
      invariant Distinct(next)
      invariant forall s :: s in next <==> exists k :: 0 <= k < i && frontier[k].id in succ && s in succ[frontier[k].id]
    {
      var list := if frontier[i].id in succ then succ[frontier[i].id] else [];
      ghost var start := next;
      for j := 0 to |list|
        invariant Distinct(next)
        invariant forall s :: s in next <==> s in start || s in list[..j]
      {
        if list[j] !in next {
          next := next + [list[j]];
        }
        assert list[..j + 1] == list[..j] + [list[j]];
      }
      assert list[..|list|] == list;
    }
  }

  /** One round of the loop, for any plan: its ids are those of `Round`; with distinct ids it is the next layer. */
  method NextFrontier(chunks: seq<Chunk>, loc: Locale, frontier: seq<Chunk>, placed: set<string>,
                      succ: map<string, seq<string>>, byId: map<string, Chunk>)
    returns (next: seq<Chunk>)
    requires loc.Valid() && SuccessorsOf(chunks, succ) && byId == ById(chunks)
    requires forall c :: c in frontier ==> c in chunks
    ensures IdSet(next) == Round(chunks, IdSet(frontier), placed)
    ensures SortedBy(loc.ByChunkId(), next) && DistinctIds(next) && forall c :: c in next ==> c in chunks
    ensures DistinctIds(chunks) ==> NextLayer(chunks, frontier, placed, next)
  {
    var ids := SuccessorIds(frontier, succ);
    SuccessorsKnown(chunks, frontier, succ, ids);
    var ready := Ready(ids, placed, byId);
    RoundFromSuccessors(chunks, frontier, placed, ids, ready);
    if DistinctIds(chunks) {
      FromSuccessors(chunks, frontier, placed, succ, ids, ready);
    }
    hide SortedBy, DistinctIds, NextLayer, Round, SuccessorsOf, IdSet, Sort;
    SortedDistinct(loc, ready);
    next := Sort(loc.ByChunkId(), ready);
    SameRound(chunks, frontier, placed, ready, next);
  }

  lemma SameRound(chunks: seq<Chunk>, frontier: seq<Chunk>, placed: set<string>, a: seq<Chunk>, b: seq<Chunk>)
    requires DistinctIds(b) && forall c :: c in b <==> c in a
    ensures IdSet(b) == IdSet(a)
    ensures NextLayer(chunks, frontier, placed, a) ==> NextLayer(chunks, frontier, placed, b)
  {
    hide DistinctIds;
  }

  lemma SortedDistinct(loc: Locale, s: seq<Chunk>)
    requires loc.Valid() && DistinctIds(s)
    ensures SortedBy(loc.ByChunkId(), Sort(loc.ByChunkId(), s)) && DistinctIds(Sort(loc.ByChunkId(), s))
    ensures forall c :: c in Sort(loc.ByChunkId(), s) <==> c in s
  {
    hide SortedBy;
    var sorted := Sort(loc.ByChunkId(), s);
    SortPermutes(loc.ByChunkId(), s);
    ByChunkIdPreorder(loc);
    SortSorts(loc.ByChunkId(), s);
    DistinctIdsAreDistinct(s);
    DistinctByMultiset(s, sorted);
    SelectionDistinctIds(s, sorted);
  }

  lemma SuccessorsKnown(chunks: seq<Chunk>, frontier: seq<Chunk>, succ: map<string, seq<string>>, ids: seq<string>)
    requires SuccessorsOf(chunks, succ) && forall c :: c in frontier ==> c in chunks
    requires forall s :: s in ids <==> exists c :: c in frontier && c.id in succ && s in succ[c.id]
    ensures forall s :: s in ids ==> s in ById(chunks) && ById(chunks)[s].id == s && ById(chunks)[s] in chunks
    ensures forall s :: s in ids <==> exists t, d :: t in chunks && t.id == s && d in t.dependsOn && d in IdSet(frontier)
  {
    ByIdKeys(chunks);
    forall s | s in ids
      ensures exists t, d :: t in chunks && t.id == s && d in t.dependsOn && d in IdSet(frontier)
    {
      var c :| c in frontier && c.id in succ && s in succ[c.id];
      var t :| t in chunks && t.id == s && c.id in t.dependsOn;
      assert c.id in IdSet(frontier);
    }
    forall t, d | t in chunks && d in t.dependsOn && d in IdSet(frontier)
      ensures t.id in ids
    {
      var c :| c in frontier && c.id == d;
      assert d in succ && t.id in succ[d];
    }
  }

  lemma RoundFromSuccessors(chunks: seq<Chunk>, frontier: seq<Chunk>, placed: set<string>, ids: seq<string>, next: seq<Chunk>)
    requires forall s :: s in ids ==> s in ById(chunks) && ById(chunks)[s].id == s && ById(chunks)[s] in chunks
    requires forall s :: s in ids <==> exists t, d :: t in chunks && t.id == s && d in t.dependsOn && d in IdSet(frontier)
    requires forall c :: c in next <==> c.id in ids && c == ById(chunks)[c.id] && (forall d :: d in c.dependsOn ==> d in placed)
    ensures IdSet(next) == Round(chunks, IdSet(frontier), placed)
    ensures forall c :: c in next ==> c in chunks
  {
    var round := Round(chunks, IdSet(frontier), placed);
    forall id | id in IdSet(next)
      ensures id in round
    {
      var c :| c in next && c.id == id;
      var t, d :| t in chunks && t.id == id && d in t.dependsOn && d in IdSet(frontier);
    }
    forall id | id in round
      ensures id in IdSet(next)
    {
      var t :| t in chunks && t.id == id && exists d :: d in t.dependsOn && d in IdSet(frontier);
      assert id in ids;
      assert ById(chunks)[id] in next;
    }
  }

  /** The chunks among `ids` whose dependencies are all placed. */
  method Ready(ids: seq<string>, placed: set<string>, byId: map<string, Chunk>) returns (next: seq<Chunk>)
    requires Distinct(ids) && forall s :: s in ids ==> s in byId && byId[s].id == s
    ensures DistinctIds(next)
    ensures forall c :: c in next <==> c.id in ids && c == byId[c.id] && (forall d :: d in c.dependsOn ==> d in placed)
  {
    next := [];
    for i := 0 to |ids|
      invariant DistinctIds(next)
      invariant forall c :: c in next <==> c.id in ids[..i] && c == byId[c.id] && (forall d :: d in c.dependsOn ==> d in placed)
    {
      assert ids[..i + 1] == ids[..i] + [ids[i]];
      assert ids[i] !in ids[..i];
      var chunk := byId[ids[i]];
      assert chunk.id == ids[i];
      if forall d :: d in chunk.dependsOn ==> d in placed {
        assert forall k :: 0 <= k < |next| ==> next[k] in next && next[k].id in ids[..i];
        next := next + [chunk];
      }
    }
    assert ids[..|ids|] == ids;
  }

  lemma FromSuccessors(chunks: seq<Chunk>, frontier: seq<Chunk>, placed: set<string>, succ: map<string, seq<string>>,
                       ids: seq<string>, next: seq<Chunk>)
    requires DistinctIds(chunks) && SuccessorsOf(chunks, succ)
    requires forall c :: c in frontier ==> c in chunks
    requires forall s :: s in ids <==> exists c :: c in frontier && c.id in succ && s in succ[c.id]
    requires forall id :: id in ids ==> id in ById(chunks)
    requires forall c :: c in next <==> c.id in ids && c == ById(chunks)[c.id] && (forall d :: d in c.dependsOn ==> d in placed)
    requires DistinctIds(next)
    ensures NextLayer(chunks, frontier, placed, next)
  {
    ByIdFinds(chunks);
    forall c
      ensures c in next <==> c in chunks && (forall d :: d in c.dependsOn ==> d in placed)
                             && (exists d :: d in c.dependsOn && d in IdSet(frontier))
    {
      if c in next {
        var f :| f in frontier && f.id in succ && c.id in succ[f.id];
        var t :| t in chunks && t.id == c.id && f.id in t.dependsOn;
        assert t == c && f.id in IdSet(frontier);
      }
      if c in chunks && (forall d :: d in c.dependsOn ==> d in placed) && (exists d :: d in c.dependsOn && d in IdSet(frontier)) {
        var d :| d in c.dependsOn && d in IdSet(frontier);
        var f :| f in frontier && f.id == d;
        assert c.id in succ[f.id];
        assert c.id in ids;
      }
    }
  }

  // ----- the frontier loop

  ghost predicate PlacedIs(levels: seq<set<string>>, placed: set<string>) {
    forall id :: id in placed <==> Below(levels, |levels|, id)
  }

  /** Every chunk whose dependencies are all placed is placed or about to be. */
  ghost predicate FrontierComplete(chunks: seq<Chunk>, placed: set<string>, frontier: seq<Chunk>) {
    forall c :: c in chunks && (forall d :: d in c.dependsOn ==> d in placed) ==> c.id in placed || c in frontier
  }

  ghost predicate LayerShape(chunks: seq<Chunk>, loc: Locale, layer: seq<Chunk>) {
    && (forall c :: c in layer ==> c in chunks)
    && SortedBy(loc.ByChunkId(), layer) && DistinctIds(layer)
  }

  ghost predicate FrontierState(chunks: seq<Chunk>, loc: Locale, layers: seq<seq<Chunk>>, placed: set<string>, frontier: seq<Chunk>) {
    && (forall k :: 0 <= k < |layers| ==> layers[k] != [] && LayerShape(chunks, loc, layers[k]))
    && LayerShape(chunks, loc, frontier)
    && PlacedIs(Levels(layers), placed)
    && Levelled(GraphOf(chunks), Levels(layers) + [IdSet(frontier)])
    && FrontierComplete(chunks, placed, frontier)
  }

  /** A filtered and sorted selection of the plan. */
  lemma SortedSelection(chunks: seq<Chunk>, loc: Locale, picked: seq<Chunk>)
    requires DistinctIds(chunks) && loc.Valid() && Distinct(picked) && forall c :: c in picked ==> c in chunks
    ensures LayerShape(chunks, loc, Sort(loc.ByChunkId(), picked))
    ensures forall c :: c in Sort(loc.ByChunkId(), picked) <==> c in picked
  {
    SortPermutes(loc.ByChunkId(), picked);
    assert SortedBy(loc.ByChunkId(), Sort(loc.ByChunkId(), picked)) by {
      ByChunkIdPreorder(loc);
      SortSorts(loc.ByChunkId(), picked);
    }
    assert DistinctIds(Sort(loc.ByChunkId(), picked)) by {
      DistinctByMultiset(picked, Sort(loc.ByChunkId(), picked));
      SelectionDistinctIds(chunks, Sort(loc.ByChunkId(), picked));
    }
  }

  lemma RootsAreLevel(chunks: seq<Chunk>, frontier: seq<Chunk>)
    requires DistinctIds(chunks)
    requires forall c :: c in frontier <==> c in chunks && |c.dependsOn| == 0
    ensures Levelled(GraphOf(chunks), Levels([]) + [IdSet(frontier)])
    ensures FrontierComplete(chunks, {}, frontier)
  {
    forall id | id in IdSet(frontier)
      ensures id in GraphOf(chunks) && GraphOf(chunks)[id] == []
    {
      var c :| c in frontier && c.id == id;
      GraphAt(chunks, c);
    }
    assert Levels([]) + [IdSet(frontier)] == [IdSet(frontier)];
    forall c | c in chunks && (forall d :: d in c.dependsOn ==> d in {})
      ensures |c.dependsOn| == 0
    {
      NoMembers(c.dependsOn);
    }
  }

  lemma FirstFrontier(chunks: seq<Chunk>, loc: Locale, keep: Chunk -> bool, frontier: seq<Chunk>)
    requires DistinctIds(chunks) && loc.Valid()
    requires forall c :: c in chunks ==> (keep(c) <==> |c.dependsOn| == 0)
    requires frontier == Sort(loc.ByChunkId(), Filter(keep, chunks))
    ensures FrontierState(chunks, loc, [], {}, frontier)
  {
    hide Levelled, FrontierComplete, LayerShape, DistinctIds;
    FilterMembers(keep, chunks);
    DistinctIdsAreDistinct(chunks);
    FilterDistinct(keep, chunks);
    SortedSelection(chunks, loc, Filter(keep, chunks));
    RootsAreLevel(chunks, frontier);
  }

  /** The next frontier is the next level up. */
  lemma NextIsLevel(chunks: seq<Chunk>, levels: seq<set<string>>, frontier: seq<Chunk>, placed: set<string>, next: seq<Chunk>)
    requires DistinctIds(chunks)
    requires PlacedIs(levels + [IdSet(frontier)], placed)
    requires Levelled(GraphOf(chunks), levels + [IdSet(frontier)])
    requires NextLayer(chunks, frontier, placed, next)
    ensures Levelled(GraphOf(chunks), levels + [IdSet(frontier)] + [IdSet(next)])
  {
    var g, now := GraphOf(chunks), levels + [IdSet(frontier)];
    forall id | id in IdSet(next)
      ensures id in g && DependsOnSome(g, id, now[|now| - 1])
      ensures forall d :: d in g[id] ==> Below(now, |now|, d)
    {
      hide Levelled;
      var c :| c in next && c.id == id;
      GraphAt(chunks, c);
      var d :| d in c.dependsOn && d in IdSet(frontier);
      assert d in g[id] && d in now[|now| - 1];
    }
    LevelUp(g, now, IdSet(next));
  }

  lemma NotBelowItself(g: Graph, levels: seq<set<string>>, id: string)
    requires Levelled(g, levels) && |levels| > 0 && id in g && DependsOnSome(g, id, levels[|levels| - 1])
    ensures !Below(levels, |levels|, id)
  {
    hide Levelled;
    if Below(levels, |levels|, id) {
      var d :| d in g[id] && d in levels[|levels| - 1];
      var j :| 0 <= j < |levels| && id in levels[j];
      DependencyBelow(g, levels, j, id, d);
      var i :| 0 <= i < j && d in levels[i];
      LevelUnique(g, levels, i, |levels| - 1, d);
    }
  }

  lemma DependencyBelow(g: Graph, levels: seq<set<string>>, j: nat, id: string, d: string)
    requires Levelled(g, levels) && j < |levels| && id in levels[j] && id in g && d in g[id]
    ensures Below(levels, j, d)
  {
  }

  /** A set of nodes with all dependencies below and one in the top level is a level itself. */
  lemma LevelUp(g: Graph, levels: seq<set<string>>, top: set<string>)
    requires Levelled(g, levels) && |levels| > 0
    requires forall id :: id in top ==> id in g && DependsOnSome(g, id, levels[|levels| - 1])
    requires forall id, d :: id in top && d in g[id] ==> Below(levels, |levels|, d)
    ensures Levelled(g, levels + [top])
  {
    hide Below, DependsOnSome;
    var m, now := |levels|, levels + [top];
    forall id | id in top
      ensures !Below(levels, m, id)
    {
      NotBelowItself(g, levels, id);
    }
    BelowStable(levels, now);
    assert now[m] == top && now[m - 1] == levels[m - 1];
    assert forall k :: 0 <= k < m ==> now[k] == levels[k];
  }

  lemma BelowStable(a: seq<set<string>>, b: seq<set<string>>)
    requires |a| <= |b| && forall k :: 0 <= k < |a| ==> a[k] == b[k]
    ensures forall k, id :: 0 <= k <= |a| ==> (Below(a, k, id) <==> Below(b, k, id))
  {
  }

  lemma StepPlaced(levels: seq<set<string>>, top: set<string>, placed: set<string>)
    requires PlacedIs(levels, placed)
    ensures PlacedIs(levels + [top], placed + top)
  {
    var now := levels + [top];
    forall id
      ensures id in placed + top <==> Below(now, |now|, id)
    {
      if id in top {
        assert id in now[|levels|];
      }
      if Below(levels, |levels|, id) {
        var j :| 0 <= j < |levels| && id in levels[j];
        assert id in now[j];
      }
    }
  }

  lemma StepComplete(chunks: seq<Chunk>, placed: set<string>, frontier: seq<Chunk>, next: seq<Chunk>)
    requires FrontierComplete(chunks, placed, frontier)
    requires NextLayer(chunks, frontier, placed + IdSet(frontier), next)
    ensures FrontierComplete(chunks, placed + IdSet(frontier), next)
  {
    var placed' := placed + IdSet(frontier);
    forall c | c in chunks && (forall d :: d in c.dependsOn ==> d in placed') && c.id !in placed'
      ensures c in next
    {
      assert c !in frontier;
      var d :| d in c.dependsOn && d !in placed;
      assert d in IdSet(frontier);
    }
  }

  /** A frontier chunk has not been placed before: the loop makes progress. */
  lemma FrontierIsFresh(g: Graph, levels: seq<set<string>>, top: set<string>, placed: set<string>, id: string)
    requires PlacedIs(levels, placed) && Levelled(g, levels + [top]) && id in top
    ensures id in g && id !in placed
  {
    var now := levels + [top];
    assert id in now[|levels|];
    BelowStable(levels, now);
  }

  lemma NextShape(chunks: seq<Chunk>, loc: Locale, frontier: seq<Chunk>, placed: set<string>, next: seq<Chunk>)
    requires NextLayer(chunks, frontier, placed, next) && SortedBy(loc.ByChunkId(), next)
    ensures LayerShape(chunks, loc, next)
  {
  }

  lemma FrontierStep(chunks: seq<Chunk>, loc: Locale, layers: seq<seq<Chunk>>, placed: set<string>, frontier: seq<Chunk>,
                     next: seq<Chunk>)
    requires DistinctIds(chunks) && frontier != []
    requires FrontierState(chunks, loc, layers, placed, frontier)
    requires NextLayer(chunks, frontier, placed + IdSet(frontier), next) && SortedBy(loc.ByChunkId(), next)
    ensures FrontierState(chunks, loc, layers + [frontier], placed + IdSet(frontier), next)
    ensures frontier[0].id in IdSet(frontier) && frontier[0].id in GraphOf(chunks) && frontier[0].id !in placed
  {
    hide Levelled, PlacedIs, FrontierComplete, NextLayer;
    var levels := Levels(layers);
    assert Levels(layers + [frontier]) == levels + [IdSet(frontier)];
    NextShape(chunks, loc, frontier, placed + IdSet(frontier), next);
    StepPlaced(levels, IdSet(frontier), placed);
    StepComplete(chunks, placed, frontier, next);
    NextIsLevel(chunks, levels, frontier, placed + IdSet(frontier), next);
    FrontierIsFresh(GraphOf(chunks), levels, IdSet(frontier), placed, frontier[0].id);
  }

  lemma FinalLevels(chunks: seq<Chunk>, loc: Locale, layers: seq<seq<Chunk>>, placed: set<string>)
    requires FrontierState(chunks, loc, layers, placed, [])
    ensures Levelled(GraphOf(chunks), Levels(layers))
    ensures PlacedIs(Levels(layers), placed)
    ensures forall k :: 0 <= k < |layers| ==> layers[k] != [] && LayerShape(chunks, loc, layers[k])
    ensures FrontierComplete(chunks, placed, [])
  {
    hide PlacedIs, FrontierComplete, LayerShape;
    assert IdSet([]) == {};
    LevelsPrefix(GraphOf(chunks), Levels(layers), {});
  }

  lemma LevelsPrefix(g: Graph, levels: seq<set<string>>, top: set<string>)
    requires Levelled(g, levels + [top])
    ensures Levelled(g, levels)
  {
    var now := levels + [top];
    BelowStable(levels, now);
    assert forall k :: 0 <= k < |levels| ==> levels[k] == now[k];
  }

  /** A chunk sits in the layer its id's level names, and in no other. */
  lemma ChunkLayer(chunks: seq<Chunk>, loc: Locale, layers: seq<seq<Chunk>>, c: Chunk) returns (m: nat)
    requires DistinctIds(chunks) && c in chunks
    requires Levelled(GraphOf(chunks), Levels(layers)) && Below(Levels(layers), |layers|, c.id)
    requires forall k :: 0 <= k < |layers| ==> LayerShape(chunks, loc, layers[k])
    ensures m < |layers| && c in layers[m] && c.id in Levels(layers)[m]
    ensures forall k :: 0 <= k < |layers| ==> (c in layers[k] <==> Longest(GraphOf(chunks), c.id, k))
  {
    hide Levelled, Longest;
    m :| m < |layers| && c.id in Levels(layers)[m];
    var d :| d in layers[m] && d.id == c.id;
    SameIdSameChunk(chunks, c, d);
    LevelIsLongest(GraphOf(chunks), Levels(layers), m, c.id);
    forall k | 0 <= k < |layers| && c in layers[k]
      ensures k == m
    {
      LevelUnique(GraphOf(chunks), Levels(layers), k, m, c.id);
    }
  }

  lemma DoneIsExact(chunks: seq<Chunk>, loc: Locale, layers: seq<seq<Chunk>>, placed: set<string>)
    requires DistinctIds(chunks) && FrontierState(chunks, loc, layers, placed, [])
    requires placed == IdSet(chunks)
    ensures ExactLayers(chunks, loc, layers)
    ensures !Cyclic(GraphOf(chunks))
  {
    FinalLevels(chunks, loc, layers, placed);
    LevelledCovers(chunks, loc, layers, placed);
    AllLevelledAcyclic(GraphOf(chunks), Levels(layers));
  }

  lemma LevelledCovers(chunks: seq<Chunk>, loc: Locale, layers: seq<seq<Chunk>>, placed: set<string>)
    requires DistinctIds(chunks) && placed == IdSet(chunks)
    requires Levelled(GraphOf(chunks), Levels(layers)) && PlacedIs(Levels(layers), placed)
    requires forall k :: 0 <= k < |layers| ==> layers[k] != [] && LayerShape(chunks, loc, layers[k])
    ensures ExactLayers(chunks, loc, layers)
    ensures forall id :: id in GraphOf(chunks) ==> Below(Levels(layers), |layers|, id)
  {
    hide Levelled, Longest, SortedBy, Below;
    forall c | c in chunks
      ensures exists k :: 0 <= k < |layers| && c in layers[k]
      ensures forall k :: 0 <= k < |layers| ==> (c in layers[k] <==> Longest(GraphOf(chunks), c.id, k))
    {
      assert c.id in placed;
      var m := ChunkLayer(chunks, loc, layers, c);
    }
  }

  lemma AllLevelledAcyclic(g: Graph, levels: seq<set<string>>)
    requires Levelled(g, levels) && forall id :: id in g ==> Below(levels, |levels|, id)
    ensures !Cyclic(g)
  {
    hide Levelled;
    if Cyclic(g) {
      var p :| IsCycle(g, p);
      var k :| 0 <= k < |levels| && p[0] in levels[k];
      LevelledNotOnCycle(g, levels, k, p);
    }
  }

  /** What the loop leaves unplaced sustains itself, so it holds a cycle. */
  lemma LeftoverIsCyclic(chunks: seq<Chunk>, loc: Locale, layers: seq<seq<Chunk>>, placed: set<string>, left: set<string>)
    requires DistinctIds(chunks) && Closed(GraphOf(chunks)) && FrontierState(chunks, loc, layers, placed, [])
    requires left == GraphOf(chunks).Keys - placed && left != {}
    ensures CyclicWithin(GraphOf(chunks), left)
    ensures forall id :: id in left <==> id in GraphOf(chunks) && HasChain(GraphOf(chunks), id, |chunks|)
  {
    hide Levelled, FrontierState, FrontierComplete, SelfSustaining, CyclicWithin, HasChain, DistinctIds, Closed;
    var g := GraphOf(chunks);
    FinalLevels(chunks, loc, layers, placed);
    LeftoverSustains(chunks, placed, left);
    SustainedHasCycle(g, left);
    IdSetSize(chunks);
    assert g.Keys == IdSet(chunks) && |g.Keys| == |g|;
    forall id | id in left
      ensures HasChain(g, id, |chunks|)
    {
      var p := WalkWithin(g, left, id, |chunks|);
      ChainWitness(g, id, |chunks|, p);
    }
    forall id | id in g && id in placed
      ensures !HasChain(g, id, |chunks|)
    {
      assert Below(Levels(layers), |layers|, id);
      var m :| 0 <= m < |layers| && id in Levels(layers)[m];
      LevelledHasNoFullChain(g, Levels(layers), m, id);
    }
  }

  lemma ChainWitness(g: Graph, id: string, n: nat, p: seq<string>)
    requires IsChainFrom(g, id, n, p)
    ensures HasChain(g, id, n)
  {
  }

  lemma LeftoverSustains(chunks: seq<Chunk>, placed: set<string>, left: set<string>)
    requires DistinctIds(chunks) && Closed(GraphOf(chunks)) && FrontierComplete(chunks, placed, [])
    requires left == GraphOf(chunks).Keys - placed
    ensures SelfSustaining(GraphOf(chunks), left)
  {
    forall id | id in left
      ensures DependsOnSome(GraphOf(chunks), id, left)
    {
      var c :| c in chunks && c.id == id;
      GraphAt(chunks, c);
      var d :| d in c.dependsOn && d !in placed;
      assert d in GraphOf(chunks)[id];
    }
  }

  lemma IdsMembers(s: seq<Chunk>)
    ensures forall id :: id in Ids(s) <==> id in IdSet(s)
  {
    forall c | c in s
      ensures c.id in Ids(s)
    {
      var i :| 0 <= i < |s| && s[i] == c;
      assert Ids(s)[i] == c.id;
    }
    forall id | id in Ids(s)
      ensures id in IdSet(s)
    {
      var i :| 0 <= i < |s| && Ids(s)[i] == id;
      assert s[i] in s;
    }
  }

  lemma LeftoverIds(chunks: seq<Chunk>, loc: Locale, placed: set<string>, ids: seq<string>)
    requires DistinctIds(chunks) && loc.Valid()
    requires ids == Sort(loc.leq, Ids(Filter((c: Chunk) => c.id !in placed, chunks)))
    ensures SortedBy(loc.leq, ids) && Distinct(ids)
    ensures forall id :: id in ids <==> id in GraphOf(chunks) && id !in placed
  {
    hide DistinctIds, Distinct, SortedBy, TotalPreorder;
    var keep := (c: Chunk) => c.id !in placed;
    var left := Filter(keep, chunks);
    FilterMembers(keep, chunks);
    DistinctIdsAreDistinct(chunks);
    FilterDistinct(keep, chunks);
    SelectionDistinctIds(chunks, left);
    DistinctIdsIffDistinct(left);
    SortPermutes(loc.leq, Ids(left));
    SortSorts(loc.leq, Ids(left));
    DistinctByMultiset(Ids(left), ids);
    IdsMembers(left);
  }

  method FindUnknown(chunks: seq<Chunk>) returns (unknown: Option<string>)
    ensures unknown.None? <==> forall c, d :: c in chunks && d in c.dependsOn ==> d in IdSet(chunks)
    ensures unknown.Some? ==> unknown.value !in IdSet(chunks) && exists c :: c in chunks && unknown.value in c.dependsOn
  {
    var idSet := set c | c in chunks :: c.id;
    for i := 0 to |chunks|
      invariant forall k, d :: 0 <= k < i && d in chunks[k].dependsOn ==> d in idSet
    {
      for j := 0 to |chunks[i].dependsOn|
        invariant forall k :: 0 <= k < j ==> chunks[i].dependsOn[k] in idSet
      {
        var dep := chunks[i].dependsOn[j];
        if dep !in idSet {
          assert chunks[i] in chunks && dep in chunks[i].dependsOn;
          assert dep !in IdSet(chunks);
          return Some(dep);
        }
      }
    }
    return None;
  }

  /** A block starts the loop if the indegree kept for its id is zero. */
  predicate IsRoot(indegree: map<string, nat>, c: Chunk) {
    c.id !in indegree || indegree[c.id] == 0
  }

  /** The first frontier, for any plan; with distinct ids it is the chunks without dependencies. */
  lemma RootBlocks(chunks: seq<Chunk>, loc: Locale, frontier: seq<Chunk>)
    requires loc.Valid()
    requires frontier == Sort(loc.ByChunkId(), Filter((c: Chunk) => IsRoot(Indegrees(chunks), c), chunks))
    ensures IdSet(frontier) == Roots(chunks) && forall c :: c in frontier ==> c in chunks
    ensures DistinctIds(chunks) ==> FrontierState(chunks, loc, [], {}, frontier)
  {
    hide FrontierState, DistinctIds, Roots, IdSet;
    var keep := (c: Chunk) => IsRoot(Indegrees(chunks), c);
    FilterMembers(keep, chunks);
    SortPermutes(loc.ByChunkId(), Filter(keep, chunks));
    RootIds(chunks, frontier);
    if DistinctIds(chunks) {
      ByIdFinds(chunks);
      FirstFrontier(chunks, loc, keep, frontier);
    }
  }

  lemma RootIds(chunks: seq<Chunk>, frontier: seq<Chunk>)
    requires forall c :: c in frontier <==> c in chunks && IsRoot(Indegrees(chunks), c)
    ensures IdSet(frontier) == Roots(chunks)
  {
    ByIdKeys(chunks);
    forall id | id in Roots(chunks)
      ensures id in IdSet(frontier)
    {
      var c := ById(chunks)[id];
      assert c in frontier && c.id == id;
    }
    forall id | id in IdSet(frontier)
      ensures id in Roots(chunks)
    {
      var c :| c in frontier && c.id == id;
      assert c.id in IdSet(chunks);
    }
  }

  /** The frontier loop alone, on any plan on which it ends. */
  method PlaceAll(chunks: seq<Chunk>, loc: Locale) returns (layers: seq<seq<Chunk>>, placed: set<string>)
    requires loc.Valid() && Settles(chunks)
    ensures exists k: nat :: AtRound(chunks, k).frontier == {} && placed == AtRound(chunks, k).placed
    ensures DistinctIds(chunks) ==> FrontierState(chunks, loc, layers, placed, [])
  {
    hide FrontierState, DistinctIds, NextLayer, SuccessorsOf, Indegrees, Round, Roots, AtRound, ById, Sort, SortedBy;
    var byId := ById(chunks);
    var succ, indegree := BuildSuccessors(chunks);
    layers, placed := [], {};
    var frontier := Sort(loc.ByChunkId(), Filter((c: Chunk) => IsRoot(indegree, c), chunks));
    RootBlocks(chunks, loc, frontier);
    ghost var n: nat :| AtRound(chunks, n).frontier == {};
    ghost var k: nat := 0;
    AtNext(chunks, k);
    while |frontier| > 0
      invariant k <= n && IdSet(frontier) == AtRound(chunks, k).frontier && placed == AtRound(chunks, k).placed
      invariant forall c :: c in frontier ==> c in chunks
      invariant DistinctIds(chunks) ==> FrontierState(chunks, loc, layers, placed, frontier)
      decreases n - k
    {
      assert frontier[0].id in IdSet(frontier);
      AtNext(chunks, k);
      var placed' := placed + set c | c in frontier :: c.id;
      assert placed' == placed + IdSet(frontier);
      var next := NextFrontier(chunks, loc, frontier, placed', succ, byId);
      if DistinctIds(chunks) {
        FrontierStep(chunks, loc, layers, placed, frontier, next);
      }
      layers, placed, frontier, k := layers + [frontier], placed', next, k + 1;
    }
  }

  /** Kahn's algorithm, wherever its loop ends. A plan with repeated ids is never layered: it is reported as cyclic,
      naming the blocks that are not placeable. */
  method TopologicalLayers(chunks: seq<Chunk>, loc: Locale) returns (r: Result<seq<seq<Chunk>>, LayerError>)
    requires loc.Valid() && (AllKnown(chunks) ==> Settles(chunks))
    ensures r.Err? && r.error.UnknownDependency? <==> !AllKnown(chunks)
    ensures r.Err? && r.error.UnknownDependency? ==>
      r.error.dep !in IdSet(chunks) && exists c :: c in chunks && r.error.dep in c.dependsOn
    ensures r.Ok? ==> DistinctIds(chunks) && ExactLayers(chunks, loc, r.value)
    ensures DistinctIds(chunks) && AllKnown(chunks) ==> (r.Err? <==> Cyclic(GraphOf(chunks)))
    ensures r.Err? && r.error.DependencyCycle? ==>
      && SortedBy(loc.leq, r.error.ids)
      && (forall id :: id in r.error.ids <==> id in IdSet(chunks) && id !in Placeable(chunks))
    ensures r.Err? && r.error.DependencyCycle? && DistinctIds(chunks) ==> NamesTheCyclic(chunks, loc, r.error.ids)
  {
    hide FrontierState, ExactLayers, DistinctIds, NamesTheCyclic, Cyclic, IdSet, Placeable, Closed, AtRound;
    var unknown := FindUnknown(chunks);
    if unknown.Some? {
      return Err(UnknownDependency(unknown.value));
    }
    var layers, placed := PlaceAll(chunks, loc);
    ghost var k: nat :| AtRound(chunks, k).frontier == {} && placed == AtRound(chunks, k).placed;
    SettledPlaced(chunks, k);
    PlacedKnown(chunks, k);
    if |placed| != |chunks| {
      var ids := Sort(loc.leq, Ids(Filter((c: Chunk) => c.id !in placed, chunks)));
      UnplacedIds(chunks, loc, placed, ids);
      if DistinctIds(chunks) {
        ClosedByChunks(chunks);
        IdSetSize(chunks);
        CycleReport(chunks, loc, layers, placed, ids);
      }
      return Err(DependencyCycle(ids));
    }
    if !DistinctIds(chunks) {
      RepeatedNeverPlaced(chunks, k);
    }
    IdSetSize(chunks);
    SubsetSameSize(placed, IdSet(chunks));
    DoneIsExact(chunks, loc, layers, placed);
    return Ok(layers);
  }

  lemma UnplacedIds(chunks: seq<Chunk>, loc: Locale, placed: set<string>, ids: seq<string>)
    requires loc.Valid() && ids == Sort(loc.leq, Ids(Filter((c: Chunk) => c.id !in placed, chunks)))
    ensures SortedBy(loc.leq, ids) && forall id :: id in ids <==> id in IdSet(chunks) && id !in placed
  {
    hide SortedBy, TotalPreorder;
    var keep := (c: Chunk) => c.id !in placed;
    FilterMembers(keep, chunks);
    SortPermutes(loc.leq, Ids(Filter(keep, chunks)));
    SortSorts(loc.leq, Ids(Filter(keep, chunks)));
    IdsMembers(Filter(keep, chunks));
  }

  lemma CycleReport(chunks: seq<Chunk>, loc: Locale, layers: seq<seq<Chunk>>, placed: set<string>, ids: seq<string>)
    requires DistinctIds(chunks) && loc.Valid() && Closed(GraphOf(chunks))
    requires FrontierState(chunks, loc, layers, placed, []) && placed != IdSet(chunks) && placed <= IdSet(chunks)
    requires ids == Sort(loc.leq, Ids(Filter((c: Chunk) => c.id !in placed, chunks)))
    ensures NamesTheCyclic(chunks, loc, ids) && Cyclic(GraphOf(chunks))
  {
    hide FrontierState, Closed, DistinctIds, SortedBy, Distinct, HasChain, CyclicWithin, Cyclic, TotalPreorder, LayerShape;
    LeftoverIds(chunks, loc, placed, ids);
    var left := GraphOf(chunks).Keys - placed;
    assert GraphOf(chunks).Keys == IdSet(chunks);
    ProperSubset(placed, IdSet(chunks));
    LeftoverIsCyclic(chunks, loc, layers, placed, left);
    assert left == set id | id in ids;
    CyclicSomewhere(GraphOf(chunks), left);
  }

  lemma ProperSubset(a: set<string>, b: set<string>)
    requires a <= b && a != b
    ensures b - a != {}
  {
    var x :| x in b && x !in a;
    assert x in b - a;
  }

  lemma CyclicSomewhere(g: Graph, s: set<string>)
    requires CyclicWithin(g, s)
    ensures Cyclic(g)
  {
  }

  lemma ClosedByChunks(chunks: seq<Chunk>)
    requires DistinctIds(chunks)
    ensures Closed(GraphOf(chunks)) <==> forall c, d :: c in chunks && d in c.dependsOn ==> d in IdSet(chunks)
  {
    var g := GraphOf(chunks);
    forall c | c in chunks
      ensures c.id in g && g[c.id] == c.dependsOn
    {
      GraphAt(chunks, c);
    }
    if forall c, d :: c in chunks && d in c.dependsOn ==> d in IdSet(chunks) {
      forall id, d | id in g && d in g[id]
        ensures d in g
      {
        var c :| c in chunks && c.id == id;
      }
    }
    if Closed(g) {
      forall c, d | c in chunks && d in c.dependsOn
        ensures d in IdSet(chunks)
      {
        assert c.id in g && d in g[c.id];
        assert d in g.Keys;
      }
    }
  }

  lemma PlacedAreIds(chunks: seq<Chunk>, loc: Locale, layers: seq<seq<Chunk>>, placed: set<string>)
    requires FrontierState(chunks, loc, layers, placed, [])
    ensures placed <= IdSet(chunks)
  {
    forall id | id in placed
      ensures id in IdSet(chunks)
    {
      var k :| 0 <= k < |layers| && id in Levels(layers)[k];
      var c :| c in layers[k] && c.id == id;
    }
  }

  lemma SubsetSameSize(a: set<string>, b: set<string>)
    requires a <= b && |a| == |b|
    ensures a == b
  {
    assert |b - a| == 0;
  }

  /** The layers depend on the plan alone, not on the order its chunks are listed in. */
  lemma LayersCanonical(chunks: seq<Chunk>, chunks': seq<Chunk>, loc: Locale, a: seq<seq<Chunk>>, b: seq<seq<Chunk>>)
    requires loc.Valid() && DistinctIds(chunks) && DistinctIds(chunks')
    requires multiset(chunks) == multiset(chunks') && Strict(loc.leq, Ids(chunks))
    requires ExactLayers(chunks, loc, a) && ExactLayers(chunks', loc, b)
    ensures a == b
  {
    hide DistinctIds, Strict, ExactLayers, TotalPreorder;
    SameMembers(chunks, chunks');
    GraphCanonical(chunks, chunks');
    SameLayerCount(chunks, chunks', loc, a, b);
    SameLayerCount(chunks', chunks, loc, b, a);
    forall k | 0 <= k < |a|
      ensures a[k] == b[k]
    {
      SameLayerMembers(chunks, chunks', loc, a, b, k);
      SameLayer(chunks, loc, a[k], b[k]);
    }
  }

  lemma SameLayerMembers(chunks: seq<Chunk>, chunks': seq<Chunk>, loc: Locale, a: seq<seq<Chunk>>, b: seq<seq<Chunk>>, k: nat)
    requires GraphOf(chunks) == GraphOf(chunks') && (forall c :: c in chunks <==> c in chunks')
    requires ExactLayers(chunks, loc, a) && ExactLayers(chunks', loc, b) && k < |a| && k < |b|
    ensures forall c :: c in a[k] <==> c in b[k]
    ensures forall c :: c in a[k] ==> c in chunks
    ensures DistinctIds(a[k]) && DistinctIds(b[k])
    ensures SortedBy(loc.ByChunkId(), a[k]) && SortedBy(loc.ByChunkId(), b[k])
  {
    hide DistinctIds, SortedBy, Longest;
    forall c
      ensures c in a[k] <==> c in chunks && Longest(GraphOf(chunks), c.id, k)
      ensures c in b[k] <==> c in chunks && Longest(GraphOf(chunks), c.id, k)
    {
    }
  }

  lemma SameMembers<T>(s: seq<T>, t: seq<T>)
    requires multiset(s) == multiset(t)
    ensures forall x :: x in s <==> x in t
  {
    forall x: T
      ensures x in s <==> x in t
    {
      assert x in s <==> x in multiset(s);
    }
  }

  lemma SameLayer(chunks: seq<Chunk>, loc: Locale, x: seq<Chunk>, y: seq<Chunk>)
    requires loc.Valid() && DistinctIds(chunks) && Strict(loc.leq, Ids(chunks))
    requires DistinctIds(x) && DistinctIds(y) && SortedBy(loc.ByChunkId(), x) && SortedBy(loc.ByChunkId(), y)
    requires forall c :: c in x <==> c in y
    requires forall c :: c in x ==> c in chunks
    ensures x == y
  {
    DistinctIdsAreDistinct(x);
    DistinctIdsAreDistinct(y);
    SameElementsPermute(x, y);
    ByChunkIdPreorder(loc);
    assert Strict(loc.ByChunkId(), x) by {
      forall c, d | c in x && d in x && loc.leq(c.id, d.id) && loc.leq(d.id, c.id)
        ensures c == d
      {
        var i :| 0 <= i < |chunks| && chunks[i] == c;
        var j :| 0 <= j < |chunks| && chunks[j] == d;
        assert Ids(chunks)[i] in Ids(chunks) && Ids(chunks)[j] in Ids(chunks);
      }
    }
    SortedUnique(loc.ByChunkId(), x, y);
  }

  lemma SameLayerCount(chunks: seq<Chunk>, chunks': seq<Chunk>, loc: Locale, a: seq<seq<Chunk>>, b: seq<seq<Chunk>>)
    requires GraphOf(chunks) == GraphOf(chunks') && (forall c :: c in chunks <==> c in chunks')
    requires ExactLayers(chunks, loc, a) && ExactLayers(chunks', loc, b)
    ensures |a| <= |b|
  {
    hide SortedBy, DistinctIds, HasChain;
    if |a| > |b| {
      var k := |b|;
      var c := a[k][0];
      assert c in a[k] && c in chunks';
      assert Longest(GraphOf(chunks), c.id, k);
      var m :| 0 <= m < |b| && c in b[m];
      assert Longest(GraphOf(chunks), c.id, m);
      ChainPrefix(GraphOf(chunks), c.id, k, m + 1);
    }
  }
}
