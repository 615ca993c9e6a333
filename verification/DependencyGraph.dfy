/** Chains, cycles and levels of a dependency graph, independent of any
    algorithm: the vocabulary the layering results are stated in. */
module DependencyGraph {

  /** Node id to the ids it depends on. */
  type Graph = map<string, seq<string>>

  /** `p[0]` depends on `p[1]`, which depends on `p[2]`, and so on. */
  ghost predicate IsChain(g: Graph, p: seq<string>) {
    && |p| > 0
    && (forall i :: 0 <= i < |p| ==> p[i] in g)
    && (forall i :: 0 <= i < |p| - 1 ==> p[i + 1] in g[p[i]])
  }

  ghost predicate IsChainFrom(g: Graph, id: string, length: nat, p: seq<string>) {
    IsChain(g, p) && |p| == length + 1 && p[0] == id
  }

  /** A chain of `length` dependency edges starts at `id`. */
  ghost predicate HasChain(g: Graph, id: string, length: nat) {
    exists p :: IsChainFrom(g, id, length, p)
  }

  /** The longest dependency chain of `id` has `length` edges. */
  ghost predicate Longest(g: Graph, id: string, length: nat) {
    HasChain(g, id, length) && !HasChain(g, id, length + 1)
  }

  ghost predicate IsCycle(g: Graph, p: seq<string>) {
    IsChain(g, p) && |p| >= 2 && p[0] == p[|p| - 1]
  }

  ghost predicate Cyclic(g: Graph) {
    exists p :: IsCycle(g, p)
  }

  ghost predicate CyclicWithin(g: Graph, s: set<string>) {
    exists p :: IsCycle(g, p) && (forall i :: 0 <= i < |p| ==> p[i] in s)
  }

  ghost predicate Closed(g: Graph) {
    forall id, d :: id in g && d in g[id] ==> d in g
  }

  /** Some level below `k` holds `id`. */
  ghost predicate Below(levels: seq<set<string>>, k: nat, id: string) {
    exists j :: 0 <= j < k && j < |levels| && id in levels[j]
  }

  ghost predicate DependsOnSome(g: Graph, id: string, s: set<string>)
    requires id in g
  {
    exists d :: d in g[id] && d in s
  }

  /** Every node sits just above the highest of its dependencies. */
  ghost predicate Levelled(g: Graph, levels: seq<set<string>>) {
    && (forall k, id :: 0 <= k < |levels| && id in levels[k] ==> id in g)
    && (forall k, id :: 0 <= k < |levels| && id in levels[k] ==> !Below(levels, k, id))
    && (forall k, id, d :: 0 <= k < |levels| && id in levels[k] && d in g[id] ==> Below(levels, k, d))
    && (forall k, id :: 0 < k < |levels| && id in levels[k] ==> DependsOnSome(g, id, levels[k - 1]))
  }

  lemma LevelUnique(g: Graph, levels: seq<set<string>>, j: nat, k: nat, id: string)
    requires Levelled(g, levels) && j < |levels| && k < |levels|
    requires id in levels[j] && id in levels[k]
    ensures j == k
  {
    assert j < k ==> Below(levels, k, id);
    assert k < j ==> Below(levels, j, id);
  }

  lemma {:induction false} LevelHasChain(g: Graph, levels: seq<set<string>>, k: nat, id: string)
    requires Levelled(g, levels) && k < |levels| && id in levels[k]
    ensures HasChain(g, id, k)
  {
    if k == 0 {
      assert IsChainFrom(g, id, 0, [id]);
    } else {
      var d :| d in g[id] && d in levels[k - 1];
      LevelHasChain(g, levels, k - 1, d);
      var p :| IsChainFrom(g, d, k - 1, p);
      var q := [id] + p;
      assert forall i :: 0 < i < |q| ==> q[i] == p[i - 1];
      assert IsChainFrom(g, id, k, q);
    }
  }

  lemma ChainTail(g: Graph, p: seq<string>)
    requires IsChain(g, p) && |p| >= 2
    ensures IsChain(g, p[1..]) && p[1] in g[p[0]]
  {
    var q := p[1..];
    forall i | 0 <= i < |q| - 1
      ensures q[i + 1] in g[q[i]]
    {
      assert q[i] == p[i + 1] && q[i + 1] == p[i + 1 + 1];
    }
    assert p[0 + 1] in g[p[0]];
  }

  /** Along a chain the level drops by at least one at every edge. */
  lemma {:induction false} ChainDescends(g: Graph, levels: seq<set<string>>, k: nat, p: seq<string>)
    requires Levelled(g, levels) && IsChain(g, p) && k < |levels| && p[0] in levels[k]
    ensures |p| <= k + 1
    ensures forall i :: 0 < i < |p| ==> Below(levels, k, p[i])
    decreases |p|
  {
    if |p| >= 2 {
      ChainTail(g, p);
      assert Below(levels, k, p[1]);
      var j :| 0 <= j < k && j < |levels| && p[1] in levels[j];
      ChainDescends(g, levels, j, p[1..]);
      forall i | 0 < i < |p|
        ensures Below(levels, k, p[i])
      {
        if i > 1 {
          assert p[i] == p[1..][i - 1];
          assert Below(levels, j, p[i]);
        }
      }
    }
  }

  lemma ChainPrefix(g: Graph, id: string, k: nat, j: nat)
    requires HasChain(g, id, k) && j <= k
    ensures HasChain(g, id, j)
  {
    var p :| IsChainFrom(g, id, k, p);
    assert IsChainFrom(g, id, j, p[..j + 1]);
  }

  /** A node's level is the length of its longest chain. */
  lemma LevelIsLongest(g: Graph, levels: seq<set<string>>, k: nat, id: string)
    requires Levelled(g, levels) && k < |levels| && id in levels[k]
    ensures forall n: nat :: Longest(g, id, n) <==> n == k
  {
    LevelHasChain(g, levels, k, id);
    forall n: nat | n > k
      ensures !HasChain(g, id, n)
    {
      if HasChain(g, id, n) {
        var p :| IsChainFrom(g, id, n, p);
        ChainDescends(g, levels, k, p);
      }
    }
    forall m: nat | m <= k
      ensures HasChain(g, id, m)
    {
      ChainPrefix(g, id, k, m);
    }
  }

  /** No cycle passes through a levelled node. */
  lemma LevelledNotOnCycle(g: Graph, levels: seq<set<string>>, k: nat, p: seq<string>)
    requires Levelled(g, levels) && IsCycle(g, p) && k < |levels|
    ensures p[0] !in levels[k]
  {
    if p[0] in levels[k] {
      ChainDescends(g, levels, k, p);
    }
  }

  /** More entries than values: some value repeats. */
  lemma {:induction false} Pigeonhole<T>(p: seq<T>, s: set<T>)
    requires (forall i :: 0 <= i < |p| ==> p[i] in s) && |p| > |s|
    ensures exists i, j :: 0 <= i < j < |p| && p[i] == p[j]
  {
    var n := |p| - 1;
    if i :| 0 <= i < n && p[i] == p[n] {
    } else {
      var rest := s - {p[n]};
      Pigeonhole(p[..n], rest);
      var i, j :| 0 <= i < j < |p[..n]| && p[..n][i] == p[..n][j];
      assert p[i] == p[j];
    }
  }

  /** Every node of `s` has a dependency in `s`. */
  ghost predicate SelfSustaining(g: Graph, s: set<string>) {
    && (forall id :: id in s ==> id in g)
    && (forall id :: id in s ==> DependsOnSome(g, id, s))
  }

  lemma {:induction false} WalkWithin(g: Graph, s: set<string>, id: string, n: nat) returns (p: seq<string>)
    requires SelfSustaining(g, s) && id in s
    ensures IsChainFrom(g, id, n, p) && forall i :: 0 <= i < |p| ==> p[i] in s
    decreases n
  {
    if n == 0 {
      p := [id];
    } else {
      var d :| d in g[id] && d in s;
      var q := WalkWithin(g, s, d, n - 1);
      p := [id] + q;
      assert forall i :: 0 < i < |p| ==> p[i] == q[i - 1];
    }
  }

  /** Two visits to one node close a cycle. */
  lemma RepeatIsCycle(g: Graph, p: seq<string>, i: nat, j: nat)
    requires IsChain(g, p) && i < j < |p| && p[i] == p[j]
    ensures IsCycle(g, p[i..j + 1])
  {
    var q := p[i..j + 1];
    forall k | 0 <= k < |q| - 1
      ensures q[k + 1] in g[q[k]]
    {
      assert q[k] == p[i + k] && q[k + 1] == p[i + k + 1];
    }
  }

  lemma SustainedHasCycle(g: Graph, s: set<string>)
    requires SelfSustaining(g, s) && s != {}
    ensures CyclicWithin(g, s)
  {
    var id :| id in s;
    var p := WalkWithin(g, s, id, |s|);
    Pigeonhole(p, s);
    var i, j :| 0 <= i < j < |p| && p[i] == p[j];
    RepeatIsCycle(g, p, i, j);
    var q := p[i..j + 1];
    assert forall k :: 0 <= k < |q| ==> q[k] == p[i + k];
  }

  /** A chain with as many edges as the graph has nodes exists exactly at the
      nodes no levelling can reach. */
  lemma LevelledHasNoFullChain(g: Graph, levels: seq<set<string>>, k: nat, id: string)
    requires Levelled(g, levels) && k < |levels| && id in levels[k]
    ensures !HasChain(g, id, |g|)
  {
    if HasChain(g, id, |g|) {
      var p :| IsChainFrom(g, id, |g|, p);
      Pigeonhole(p, g.Keys);
      var i, j :| 0 <= i < j < |p| && p[i] == p[j];
      RepeatIsCycle(g, p, i, j);
      ChainDescends(g, levels, k, p);
      assert p[i] in levels[k] || Below(levels, k, p[i]);
      var m: nat :| m < |levels| && p[i] in levels[m];
      LevelledNotOnCycle(g, levels, m, p[i..j + 1]);
    }
  }
}
