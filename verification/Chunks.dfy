/** The scheduler's input: chunks of a build plan, and the two locale-dependent
    string operations it uses. */
module Chunks {
  import opened Prelude
  import opened Sorting
  import opened DependencyGraph

  datatype Chunk = Chunk(
    id: string,
    dependsOn: seq<string>,
    declaredFiles: seq<string>,
    exclusiveResources: Option<seq<string>>)
  {
    function Resources(): seq<string> {
      if exclusiveResources.Some? then exclusiveResources.value else []
    }
  }

  /** Numeric collation of ids (`leq(a, b)` when the comparator is not positive)
      and lower-casing of paths. */
  datatype Locale = Locale(leq: (string, string) -> bool, fold: string -> string) {
    ghost predicate Valid() {
      TotalPreorder(leq)
    }

    function ByChunkId(): (Chunk, Chunk) -> bool {
      (a: Chunk, b: Chunk) => leq(a.id, b.id)
    }
  }

  ghost predicate DistinctIds(s: seq<Chunk>) {
    forall i, j :: 0 <= i < j < |s| ==> s[i].id != s[j].id
  }

  ghost function IdSet(s: seq<Chunk>): set<string> {
    set c | c in s :: c.id
  }

  function Ids(s: seq<Chunk>): (r: seq<string>)
    ensures |r| == |s| && forall i :: 0 <= i < |s| ==> r[i] == s[i].id
  {
    if s == [] then [] else Ids(s[..|s| - 1]) + [s[|s| - 1].id]
  }

  ghost function DependenciesOf(s: seq<Chunk>, id: string): seq<string>
    requires id in IdSet(s)
  {
    var c :| c in s && c.id == id;
    c.dependsOn
  }

  /** The plan's dependency graph. */
  ghost function GraphOf(s: seq<Chunk>): Graph {
    map id | id in IdSet(s) :: DependenciesOf(s, id)
  }

  lemma SameIdSameChunk(s: seq<Chunk>, a: Chunk, b: Chunk)
    requires DistinctIds(s) && a in s && b in s && a.id == b.id
    ensures a == b
  {
  }

  lemma GraphAt(s: seq<Chunk>, c: Chunk)
    requires DistinctIds(s) && c in s
    ensures c.id in GraphOf(s) && GraphOf(s)[c.id] == c.dependsOn
  {
    assert c.id in IdSet(s);
    var d :| d in s && d.id == c.id && DependenciesOf(s, c.id) == d.dependsOn;
    SameIdSameChunk(s, c, d);
  }

  /** Reordering a plan does not change its graph. */
  lemma GraphCanonical(s: seq<Chunk>, t: seq<Chunk>)
    requires DistinctIds(s) && DistinctIds(t) && forall c :: c in s <==> c in t
    ensures GraphOf(s) == GraphOf(t)
  {
    assert IdSet(s) == IdSet(t);
    forall id | id in IdSet(s)
      ensures GraphOf(s)[id] == GraphOf(t)[id]
    {
      var c :| c in s && c.id == id;
      GraphAt(s, c);
      GraphAt(t, c);
    }
  }

  lemma {:induction false} IdSetSize(s: seq<Chunk>)
    requires DistinctIds(s)
    ensures |IdSet(s)| == |s|
  {
    if s != [] {
      var front, last := s[..|s| - 1], s[|s| - 1];
      IdSetSize(front);
      assert IdSet(s) == IdSet(front) + {last.id};
      assert last.id !in IdSet(front);
    }
  }

  lemma DistinctIdsIffDistinct(s: seq<Chunk>)
    ensures DistinctIds(s) <==> Distinct(Ids(s))
  {
  }

  lemma DistinctIdsAreDistinct(s: seq<Chunk>)
    requires DistinctIds(s)
    ensures Distinct(s)
  {
  }

  /** A duplicate-free selection from a plan keeps its ids distinct. */
  lemma SelectionDistinctIds(s: seq<Chunk>, t: seq<Chunk>)
    requires DistinctIds(s) && Distinct(t) && forall c :: c in t ==> c in s
    ensures DistinctIds(t)
  {
    forall i, j | 0 <= i < j < |t|
      ensures t[i].id != t[j].id
    {
      if t[i].id == t[j].id {
        assert t[i] in s && t[j] in s;
        SameIdSameChunk(s, t[i], t[j]);
      }
    }
  }

  lemma ByChunkIdPreorder(loc: Locale)
    requires loc.Valid()
    ensures TotalPreorder(loc.ByChunkId())
  {
    var leq := loc.ByChunkId();
    forall x: Chunk, y: Chunk
      ensures leq(x, y) || leq(y, x)
    {
      assert loc.leq(x.id, y.id) || loc.leq(y.id, x.id);
    }
    forall x, y, z | Via(leq, x, y, z)
      ensures leq(x, z)
    {
      assert Via(loc.leq, x.id, y.id, z.id);
    }
  }

  /** Chunks by id, as a map keeps them: of blocks with one id the last. */
  function ById(chunks: seq<Chunk>): map<string, Chunk> {
    if chunks == [] then map[]
    else ById(chunks[..|chunks| - 1])[chunks[|chunks| - 1].id := chunks[|chunks| - 1]]
  }

  lemma {:induction false} ByIdFinds(chunks: seq<Chunk>)
    requires DistinctIds(chunks)
    ensures forall c :: c in chunks ==> c.id in ById(chunks) && ById(chunks)[c.id] == c
    ensures forall id :: id in ById(chunks) ==> ById(chunks)[id] in chunks
  {
    if chunks != [] {
      var front, last := chunks[..|chunks| - 1], chunks[|chunks| - 1];
      assert chunks == front + [last];
      ByIdFinds(front);
      forall c | c in front
        ensures c.id != last.id
      {
        var i :| 0 <= i < |front| && front[i] == c;
        assert chunks[i] == c;
      }
    }
  }
}
