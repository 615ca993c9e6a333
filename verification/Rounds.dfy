/** The frontier loop of `topologicalLayers` on ids, for any plan, repeated ids included: which ids each round
    places, and when the loop ends. */
module Rounds {
  import opened Prelude
  import opened Sorting
  import opened DependencyGraph
  import opened Chunks

  /** The dependencies of the block that `chunkById` and `indegree` keep for an id: the last one. */
  ghost function Winning(chunks: seq<Chunk>): Graph {
    map id | id in ById(chunks) :: ById(chunks)[id].dependsOn
  }

  /** All dependencies that any block of an id names; `successors` holds these edges reversed. */
  function DepsOfId(chunks: seq<Chunk>, id: string): seq<string> {
    if chunks == [] then []
    else
      DepsOfId(chunks[..|chunks| - 1], id)
      + if chunks[|chunks| - 1].id == id then chunks[|chunks| - 1].dependsOn else []
  }

  ghost function Naming(chunks: seq<Chunk>): Graph {
    map id | id in IdSet(chunks) :: DepsOfId(chunks, id)
  }

  ghost predicate AllKnown(chunks: seq<Chunk>) {
    forall c, d :: c in chunks && d in c.dependsOn ==> d in IdSet(chunks)
  }

  /** The ids of the first frontier. */
  ghost function Roots(chunks: seq<Chunk>): set<string> {
    set id | id in ById(chunks) && |ById(chunks)[id].dependsOn| == 0
  }

  /** The ids the next round places: fed by the frontier, their winning block wholly placed. */
  ghost function Round(chunks: seq<Chunk>, frontier: set<string>, placed: set<string>): set<string> {
    set c | c in chunks && (exists d :: d in c.dependsOn && d in frontier)
            && c.id in ById(chunks) && (forall d :: d in ById(chunks)[c.id].dependsOn ==> d in placed) :: c.id
  }

  /** The loop's variables at the head of round `k`. */
  datatype Head = Head(frontier: set<string>, placed: set<string>)

  ghost function AtRound(chunks: seq<Chunk>, k: nat): Head {
    if k == 0 then Head(Roots(chunks), {})
    else
      var h := AtRound(chunks, k - 1);
      Head(Round(chunks, h.frontier, h.placed + h.frontier), h.placed + h.frontier)
  }

  lemma AtNext(chunks: seq<Chunk>, k: nat)
    ensures AtRound(chunks, 0) == Head(Roots(chunks), {})
    ensures var h, next := AtRound(chunks, k), AtRound(chunks, k + 1);
      next.placed == h.placed + h.frontier && next.frontier == Round(chunks, h.frontier, next.placed)
  {
    hide Round, Roots;
  }

  /** The loop ends. */
  ghost predicate Settles(chunks: seq<Chunk>) {
    exists k: nat :: AtRound(chunks, k).frontier == {}
  }

  /** The ids whose winning dependency chains are shorter than the plan. */
  ghost function Placeable(chunks: seq<Chunk>): set<string> {
    set id | id in Winning(chunks) && !HasChain(Winning(chunks), id, |Winning(chunks)|)
  }

  // ----- the two graphs

  lemma {:induction false} ByIdKeys(chunks: seq<Chunk>)
    ensures forall id :: id in ById(chunks) <==> id in IdSet(chunks)
    ensures forall id :: id in ById(chunks) ==> ById(chunks)[id] in chunks && ById(chunks)[id].id == id
  {
    if chunks != [] {
      var front, last := chunks[..|chunks| - 1], chunks[|chunks| - 1];
      ByIdKeys(front);
      assert chunks == front + [last];
      assert IdSet(chunks) == IdSet(front) + {last.id};
    }
  }

  lemma {:induction false} DepsOfIdHas(chunks: seq<Chunk>, id: string, d: string)
    ensures d in DepsOfId(chunks, id) <==> exists c :: c in chunks && c.id == id && d in c.dependsOn
  {
    if chunks != [] {
      var front, last := chunks[..|chunks| - 1], chunks[|chunks| - 1];
      DepsOfIdHas(front, id, d);
      assert chunks == front + [last];
    }
  }

  /** `Round` in terms of the graphs. */
  lemma RoundHas(chunks: seq<Chunk>, frontier: set<string>, placed: set<string>, id: string)
    ensures id in Round(chunks, frontier, placed) <==>
      && id in Naming(chunks) && id in Winning(chunks) && DependsOnSome(Naming(chunks), id, frontier)
      && (forall d :: d in Winning(chunks)[id] ==> d in placed)
  {
    ByIdKeys(chunks);
    if id in Round(chunks, frontier, placed) {
      var c :| c in chunks && c.id == id && exists d :: d in c.dependsOn && d in frontier;
      var d :| d in c.dependsOn && d in frontier;
      DepsOfIdHas(chunks, id, d);
    }
    if id in Naming(chunks) && DependsOnSome(Naming(chunks), id, frontier) {
      var d :| d in Naming(chunks)[id] && d in frontier;
      DepsOfIdHas(chunks, id, d);
    }
  }

  /** The winning block is one of the blocks. */
  lemma WinningNames(chunks: seq<Chunk>, id: string, d: string)
    requires id in Winning(chunks) && d in Winning(chunks)[id]
    ensures id in Naming(chunks) && d in Naming(chunks)[id]
  {
    ByIdKeys(chunks);
    DepsOfIdHas(chunks, id, d);
  }

  /** A walk that visits more nodes than there are can go on for ever. */
  lemma FullChainPumps(g: Graph, id: string, n: nat)
    requires HasChain(g, id, |g|)
    ensures HasChain(g, id, n)
  {
    var p :| IsChainFrom(g, id, |g|, p);
    Pigeonhole(p, g.Keys);
    var i, j :| 0 <= i < j < |p| && p[i] == p[j];
    var s := set k | 0 <= k <= j :: p[k];
    forall x | x in s
      ensures x in g && DependsOnSome(g, x, s)
    {
      var k :| 0 <= k <= j && p[k] == x;
      var next := if k < j then k else i;
      assert p[next] == x && p[next + 1] in g[x] && p[next + 1] in s;
    }
    assert p[0] in s;
    var q := WalkWithin(g, s, id, n);
  }

  // ----- what the rounds place

  lemma {:induction false} PlacedBefore(chunks: seq<Chunk>, k: nat, id: string)
    ensures id in AtRound(chunks, k).placed <==> exists j: nat :: j < k && id in AtRound(chunks, j).frontier
  {
    hide Round, Roots;
    if k > 0 {
      PlacedBefore(chunks, k - 1, id);
    }
  }

  lemma PlacedGrows(chunks: seq<Chunk>, j: nat, k: nat)
    requires j <= k
    ensures AtRound(chunks, j).placed <= AtRound(chunks, k).placed
  {
    hide AtRound;
    forall id | id in AtRound(chunks, j).placed
      ensures id in AtRound(chunks, k).placed
    {
      PlacedBefore(chunks, j, id);
      PlacedBefore(chunks, k, id);
    }
  }

  /** Whatever a round has in its frontier has its winning block placed, and was fed by the round before. */
  lemma FrontierHas(chunks: seq<Chunk>, k: nat, id: string)
    requires id in AtRound(chunks, k).frontier
    ensures id in Winning(chunks) && forall d :: d in Winning(chunks)[id] ==> d in AtRound(chunks, k).placed
    ensures k > 0 ==> id in Naming(chunks) && DependsOnSome(Naming(chunks), id, AtRound(chunks, k - 1).frontier)
  {
    hide Round, Winning, Naming;
    if k == 0 {
      RootHas(chunks, id);
    } else {
      var h := AtRound(chunks, k - 1);
      RoundHas(chunks, h.frontier, h.placed + h.frontier, id);
    }
  }

  lemma RootHas(chunks: seq<Chunk>, id: string)
    ensures id in Roots(chunks) <==> id in Winning(chunks) && |Winning(chunks)[id]| == 0
  {
  }

  /** Round `k` holds no id with a longer winning chain than `k`. */
  lemma {:induction false} ChainBelowRound(chunks: seq<Chunk>, k: nat, id: string, n: nat)
    requires id in AtRound(chunks, k).frontier && HasChain(Winning(chunks), id, n)
    ensures n <= k
    decreases n
  {
    hide AtRound, Winning;
    if n > 0 {
      var g := Winning(chunks);
      var p :| IsChainFrom(g, id, n, p);
      ChainTail(g, p);
      assert IsChainFrom(g, p[1], n - 1, p[1..]);
      FrontierHas(chunks, k, id);
      PlacedBefore(chunks, k, p[1]);
      var j: nat :| j < k && p[1] in AtRound(chunks, j).frontier;
      ChainBelowRound(chunks, j, p[1], n - 1);
    }
  }

  lemma FrontierPlaceable(chunks: seq<Chunk>, k: nat, id: string)
    requires id in AtRound(chunks, k).frontier
    ensures id in Placeable(chunks)
  {
    hide AtRound, Winning;
    FrontierHas(chunks, k, id);
    if HasChain(Winning(chunks), id, |Winning(chunks)|) {
      FullChainPumps(Winning(chunks), id, k + 1);
      ChainBelowRound(chunks, k, id, k + 1);
    }
  }

  /** Once its winning dependencies are all placed, an id is in some frontier up to that round. */
  lemma {:induction false} Reached(chunks: seq<Chunk>, id: string, m: nat) returns (j: nat)
    requires id in Winning(chunks) && forall d :: d in Winning(chunks)[id] ==> d in AtRound(chunks, m).placed
    ensures j <= m && id in AtRound(chunks, j).frontier
    decreases m
  {
    hide Winning, Naming, Round, Roots, HasChain;
    if |Winning(chunks)[id]| == 0 {
      RootHas(chunks, id);
      j := 0;
    } else {
      assert Winning(chunks)[id][0] in Winning(chunks)[id];
      var h := AtRound(chunks, m - 1);
      if forall d :: d in Winning(chunks)[id] ==> d in h.placed {
        j := Reached(chunks, id, m - 1);
      } else {
        var d :| d in Winning(chunks)[id] && d !in h.placed;
        WinningNames(chunks, id, d);
        RoundHas(chunks, h.frontier, h.placed + h.frontier, id);
        j := m;
      }
    }
  }

  /** An id whose winning chains have fewer than `n` edges is placed within `n` rounds. */
  lemma {:induction false} ShortChainPlaced(chunks: seq<Chunk>, id: string, n: nat)
    requires AllKnown(chunks) && id in Winning(chunks) && !HasChain(Winning(chunks), id, n)
    ensures id in AtRound(chunks, n).placed
    decreases n
  {
    hide AtRound, Winning, AllKnown;
    var g := Winning(chunks);
    if n == 0 {
      ChainOfOne(g, id);
    } else {
      forall d | d in g[id]
        ensures d in AtRound(chunks, n - 1).placed
      {
        KnownWinning(chunks, id, d);
        if HasChain(g, d, n - 1) {
          LongerChain(g, id, d, n - 1);
        } else {
          ShortChainPlaced(chunks, d, n - 1);
        }
      }
      var j := Reached(chunks, id, n - 1);
      PlacedBefore(chunks, n, id);
    }
  }

  lemma ChainOfOne(g: Graph, id: string)
    requires id in g
    ensures HasChain(g, id, 0)
  {
    assert IsChainFrom(g, id, 0, [id]);
  }

  lemma KnownWinning(chunks: seq<Chunk>, id: string, d: string)
    requires AllKnown(chunks) && id in Winning(chunks) && d in Winning(chunks)[id]
    ensures d in Winning(chunks)
  {
    ByIdKeys(chunks);
  }

  lemma LongerChain(g: Graph, id: string, d: string, n: nat)
    requires id in g && d in g[id] && HasChain(g, d, n)
    ensures HasChain(g, id, n + 1)
  {
    var p :| IsChainFrom(g, d, n, p);
    var q := [id] + p;
    assert forall i :: 0 < i < |q| ==> q[i] == p[i - 1];
    assert IsChainFrom(g, id, n + 1, q);
  }

  // ----- when the loop ends

  lemma {:induction false} EmptyStays(chunks: seq<Chunk>, j: nat, k: nat)
    requires j <= k && AtRound(chunks, j).frontier == {}
    ensures AtRound(chunks, k).frontier == {}
    decreases k
  {
    if j < k {
      EmptyStays(chunks, j, k - 1);
      var h := AtRound(chunks, k - 1);
      assert Round(chunks, {}, h.placed + h.frontier) == {};
    }
  }

  /** A frontier in round `k` traces back through `k` others. */
  lemma {:induction false} TraceBack(chunks: seq<Chunk>, k: nat, id: string) returns (p: seq<string>)
    requires id in AtRound(chunks, k).frontier
    ensures IsChainFrom(Naming(chunks), id, k, p) && forall i :: 0 <= i < |p| ==> p[i] in Placeable(chunks)
    decreases k
  {
    hide AtRound, Naming, Placeable;
    FrontierPlaceable(chunks, k, id);
    FrontierHas(chunks, k, id);
    if k == 0 {
      p := [id];
      NamingHas(chunks, id);
    } else {
      var d :| d in Naming(chunks)[id] && d in AtRound(chunks, k - 1).frontier;
      var q := TraceBack(chunks, k - 1, d);
      p := [id] + q;
      assert forall i :: 0 < i < |p| ==> p[i] == q[i - 1];
    }
  }

  lemma NamingHas(chunks: seq<Chunk>, id: string)
    requires id in Winning(chunks)
    ensures id in Naming(chunks)
  {
    ByIdKeys(chunks);
  }

  /** A frontier that is never empty goes back to a cycle of placeable ids. */
  lemma Untiring(chunks: seq<Chunk>, id: string)
    requires id in AtRound(chunks, |Placeable(chunks)|).frontier
    ensures CyclicWithin(Naming(chunks), Placeable(chunks))
  {
    hide AtRound, Naming, Placeable;
    var s := Placeable(chunks);
    var p := TraceBack(chunks, |s|, id);
    Pigeonhole(p, s);
    var i, j :| 0 <= i < j < |p| && p[i] == p[j];
    RepeatIsCycle(Naming(chunks), p, i, j);
    var q := p[i..j + 1];
    assert forall k :: 0 <= k < |q| ==> q[k] == p[i + k];
  }

  /** Without such a cycle the loop ends within as many rounds as there are placeable ids. */
  lemma AcyclicSettles(chunks: seq<Chunk>)
    requires !CyclicWithin(Naming(chunks), Placeable(chunks))
    ensures AtRound(chunks, |Placeable(chunks)|).frontier == {}
  {
    hide AtRound, Naming, Placeable;
    var s := Placeable(chunks);
    if AtRound(chunks, |s|).frontier != {} {
      var id :| id in AtRound(chunks, |s|).frontier;
      Untiring(chunks, id);
    }
  }

  ghost predicate Meets(p: seq<string>, s: set<string>) {
    exists i :: 0 <= i < |p| && p[i] in s
  }

  ghost predicate Within(p: seq<string>, s: set<string>) {
    forall i :: 0 <= i < |p| ==> p[i] in s
  }

  /** When a cycle is wholly placed, the last round to place one of its ids is found. */
  lemma {:induction false} LastPlacing(chunks: seq<Chunk>, p: seq<string>, m: nat) returns (k: nat)
    requires p != [] && Within(p, AtRound(chunks, m).placed)
    ensures k < m && Meets(p, AtRound(chunks, k).frontier) && Within(p, AtRound(chunks, k + 1).placed)
    decreases m
  {
    hide Round, Roots;
    assert p[0] in AtRound(chunks, m).placed;
    var h := AtRound(chunks, m - 1);
    if Within(p, h.placed) {
      k := LastPlacing(chunks, p, m - 1);
    } else {
      var i :| 0 <= i < |p| && p[i] !in h.placed;
      assert p[i] in h.frontier;
      k := m - 1;
    }
  }

  /** From then on every round feeds the next along the cycle. */
  lemma {:induction false} CycleTurns(chunks: seq<Chunk>, p: seq<string>, k: nat, r: nat)
    requires IsCycle(Naming(chunks), p) && Within(p, AtRound(chunks, k + 1).placed)
    requires k <= r && Meets(p, AtRound(chunks, k).frontier)
    ensures Meets(p, AtRound(chunks, r).frontier)
    decreases r
  {
    hide Naming, Winning, Round, AtRound;
    if k < r {
      CycleTurns(chunks, p, k, r - 1);
      var i :| 0 <= i < |p| && p[i] in AtRound(chunks, r - 1).frontier;
      var at := if i > 0 then i else |p| - 1;
      assert p[at - 1 + 1] in Naming(chunks)[p[at - 1]];
      TurnOnce(chunks, p[at - 1], p[at], k, r);
    }
  }

  lemma TurnOnce(chunks: seq<Chunk>, id: string, d: string, k: nat, r: nat)
    requires k < r && id in Naming(chunks) && d in Naming(chunks)[id] && d in AtRound(chunks, r - 1).frontier
    requires id in AtRound(chunks, k + 1).placed
    ensures id in AtRound(chunks, r).frontier
  {
    hide Naming, Winning, Round, Roots;
    PlacedBefore(chunks, k + 1, id);
    var j: nat :| j < k + 1 && id in AtRound(chunks, j).frontier;
    FrontierHas(chunks, j, id);
    PlacedGrows(chunks, j, r);
    var h := AtRound(chunks, r - 1);
    RoundHas(chunks, h.frontier, h.placed + h.frontier, id);
  }

  /** With such a cycle no round is ever empty. */
  lemma CyclicNeverSettles(chunks: seq<Chunk>, n: nat)
    requires AllKnown(chunks) && CyclicWithin(Naming(chunks), Placeable(chunks))
    ensures AtRound(chunks, n).frontier != {}
  {
    hide AtRound, Naming, Winning, AllKnown;
    var p :| IsCycle(Naming(chunks), p) && forall i :: 0 <= i < |p| ==> p[i] in Placeable(chunks);
    var m := |Winning(chunks)|;
    forall i | 0 <= i < |p|
      ensures p[i] in AtRound(chunks, m).placed
    {
      ShortChainPlaced(chunks, p[i], m);
    }
    var k := LastPlacing(chunks, p, m);
    CycleTurns(chunks, p, k, if n < k then k else n);
    if AtRound(chunks, n).frontier == {} {
      EmptyStays(chunks, n, if n < k then k else n);
    }
  }

  /** The loop ends if and only if the edges of all blocks hold no cycle among the ids whose winning blocks get
      placed. */
  lemma SettlesIff(chunks: seq<Chunk>)
    requires AllKnown(chunks)
    ensures Settles(chunks) <==> !CyclicWithin(Naming(chunks), Placeable(chunks))
  {
    hide AtRound, Naming, Placeable, AllKnown;
    if CyclicWithin(Naming(chunks), Placeable(chunks)) {
      forall n: nat
        ensures AtRound(chunks, n).frontier != {}
      {
        CyclicNeverSettles(chunks, n);
      }
    } else {
      AcyclicSettles(chunks);
    }
  }

  /** Distinct ids are enough: both graphs are then the plan's dependency graph. */
  lemma DistinctSettles(chunks: seq<Chunk>)
    requires DistinctIds(chunks)
    ensures Settles(chunks)
  {
    hide AtRound, Settles;
    if CyclicWithin(Naming(chunks), Placeable(chunks)) {
      var p :| IsCycle(Naming(chunks), p) && forall i :: 0 <= i < |p| ==> p[i] in Placeable(chunks);
      var s := set i | 0 <= i < |p| :: p[i];
      forall x | x in s
        ensures x in Winning(chunks) && DependsOnSome(Winning(chunks), x, s)
      {
        var i :| 0 <= i < |p| && p[i] == x;
        var at := if i < |p| - 1 then i else 0;
        assert p[at] == x && p[at + 1] in Naming(chunks)[x] && p[at + 1] in s;
        DistinctNames(chunks, x, p[at + 1]);
      }
      assert p[0] in s;
      var q := WalkWithin(Winning(chunks), s, p[0], |Winning(chunks)|);
    }
    AcyclicSettles(chunks);
    SettledAt(chunks, |Placeable(chunks)|);
  }

  lemma SettledAt(chunks: seq<Chunk>, k: nat)
    requires AtRound(chunks, k).frontier == {}
    ensures Settles(chunks)
  {
  }

  lemma DistinctNames(chunks: seq<Chunk>, id: string, d: string)
    requires DistinctIds(chunks) && id in Winning(chunks) && id in Naming(chunks) && d in Naming(chunks)[id]
    ensures d in Winning(chunks)[id]
  {
    DepsOfIdHas(chunks, id, d);
    ByIdFinds(chunks);
  }

  lemma {:induction false} SettledKeeps(chunks: seq<Chunk>, k: nat, m: nat)
    requires k <= m && AtRound(chunks, k).frontier == {}
    ensures AtRound(chunks, m).placed == AtRound(chunks, k).placed
    decreases m
  {
    hide Round;
    if k < m {
      SettledKeeps(chunks, k, m - 1);
      EmptyStays(chunks, k, m - 1);
    }
  }

  /** When the loop ends, it has placed exactly the placeable ids. */
  lemma SettledPlaced(chunks: seq<Chunk>, k: nat)
    requires AllKnown(chunks) && AtRound(chunks, k).frontier == {}
    ensures AtRound(chunks, k).placed == Placeable(chunks)
  {
    hide AtRound, Winning, AllKnown;
    var n := |Winning(chunks)|;
    var m := if n < k then k else n;
    SettledKeeps(chunks, k, m);
    PlacedGrows(chunks, n, m);
    forall id | id in Placeable(chunks)
      ensures id in AtRound(chunks, k).placed
    {
      ShortChainPlaced(chunks, id, n);
    }
    forall id | id in AtRound(chunks, k).placed
      ensures id in Placeable(chunks)
    {
      PlacedBefore(chunks, k, id);
      var j: nat :| j < k && id in AtRound(chunks, j).frontier;
      FrontierPlaceable(chunks, j, id);
    }
  }

  // ----- what repeated ids come to

  lemma {:induction false} FewerIds(chunks: seq<Chunk>)
    ensures |IdSet(chunks)| <= |chunks|
    ensures |IdSet(chunks)| == |chunks| <==> DistinctIds(chunks)
  {
    if chunks != [] {
      var front, last := chunks[..|chunks| - 1], chunks[|chunks| - 1];
      FewerIds(front);
      assert chunks == front + [last];
      assert IdSet(chunks) == IdSet(front) + {last.id};
      if DistinctIds(chunks) {
        IdSetSize(chunks);
      } else if DistinctIds(front) {
        var i, j :| 0 <= i < j < |chunks| && chunks[i].id == chunks[j].id;
        assert front[i] in front;
      }
    }
  }

  lemma PlacedKnown(chunks: seq<Chunk>, k: nat)
    ensures AtRound(chunks, k).placed <= IdSet(chunks)
  {
    hide AtRound;
    forall id | id in AtRound(chunks, k).placed
      ensures id in IdSet(chunks)
    {
      PlacedBefore(chunks, k, id);
      var j: nat :| j < k && id in AtRound(chunks, j).frontier;
      FrontierHas(chunks, j, id);
      ByIdKeys(chunks);
    }
  }

  /** With repeated ids `placed` never gets as large as the plan, so a loop that ends reports a cycle, whatever the
      dependencies are. */
  lemma RepeatedNeverPlaced(chunks: seq<Chunk>, k: nat)
    requires !DistinctIds(chunks)
    ensures |AtRound(chunks, k).placed| < |chunks|
  {
    PlacedKnown(chunks, k);
    SubsetSize(AtRound(chunks, k).placed, IdSet(chunks));
    FewerIds(chunks);
  }

  /** A plan on which the loop goes round for ever, `a` and `b` taking turns; with the blocks of `a` exchanged it
      ends at once, nothing being placed. */
  lemma {:induction false} TakingTurns(k: nat)
    ensures var chunks := [Chunk("a", ["b"], ["f"], None), Chunk("b", ["a"], ["g"], None), Chunk("a", [], ["h"], None)];
      AtRound(chunks, k).frontier == if k % 2 == 0 then {"a"} else {"b"}
    ensures Roots([Chunk("a", [], ["h"], None), Chunk("b", ["a"], ["g"], None), Chunk("a", ["b"], ["f"], None)]) == {}
  {
    hide AtRound;
    TurnsAt(k);
    var x, y, z := Chunk("a", ["b"], ["f"], None), Chunk("b", ["a"], ["g"], None), Chunk("a", [], ["h"], None);
    ByIdOfThree(z, y, x);
  }

  lemma ByIdOfThree(x: Chunk, y: Chunk, z: Chunk)
    ensures ById([x, y, z]) == map[x.id := x][y.id := y][z.id := z]
  {
    var chunks := [x, y, z];
    assert chunks[..2] == [x, y] && [x, y][..1] == [x] && [x][..0] == [];
    assert ById([x]) == map[x.id := x];
    assert ById([x, y]) == map[x.id := x][y.id := y];
  }

  lemma {:induction false} TurnsAt(k: nat)
    ensures var chunks := [Chunk("a", ["b"], ["f"], None), Chunk("b", ["a"], ["g"], None), Chunk("a", [], ["h"], None)];
      && AtRound(chunks, k).frontier == (if k % 2 == 0 then {"a"} else {"b"})
      && (k > 0 ==> "a" in AtRound(chunks, k).placed)
  {
    hide Round, Roots;
    var chunks := [Chunk("a", ["b"], ["f"], None), Chunk("b", ["a"], ["g"], None), Chunk("a", [], ["h"], None)];
    if k == 0 {
      TurnsStart();
    } else {
      TurnsAt(k - 1);
      var h := AtRound(chunks, k - 1);
      TurnsStep(h.frontier, h.placed + h.frontier);
    }
  }

  lemma TurnsStart()
    ensures Roots([Chunk("a", ["b"], ["f"], None), Chunk("b", ["a"], ["g"], None), Chunk("a", [], ["h"], None)]) == {"a"}
  {
    ByIdOfThree(Chunk("a", ["b"], ["f"], None), Chunk("b", ["a"], ["g"], None), Chunk("a", [], ["h"], None));
  }

  lemma TurnsStep(frontier: set<string>, placed: set<string>)
    requires (frontier == {"a"} || frontier == {"b"}) && "a" in placed
    ensures var chunks := [Chunk("a", ["b"], ["f"], None), Chunk("b", ["a"], ["g"], None), Chunk("a", [], ["h"], None)];
      Round(chunks, frontier, placed) == if frontier == {"a"} then {"b"} else {"a"}
  {
    var x, y, z := Chunk("a", ["b"], ["f"], None), Chunk("b", ["a"], ["g"], None), Chunk("a", [], ["h"], None);
    var chunks := [x, y, z];
    ByIdOfThree(x, y, z);
    assert forall c :: c in chunks <==> c == x || c == y || c == z;
    assert "b" in x.dependsOn && "a" in y.dependsOn && x in chunks && y in chunks;
    var r := Round(chunks, frontier, placed);
    assert "b" in r <==> "a" in frontier;
    assert "a" in r <==> "b" in frontier;
  }
}
