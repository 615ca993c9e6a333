/** Linking static and live findings (`correlate`). */
module Correlation {
  import opened Sorting
  import opened Severities

  /** `hostRepo` maps a staging host to its repository; `locationMatches` compares a route symbol with a live
      URL and method; `leq` is the collation of fingerprints. */
  datatype Registry = Registry(
    hostRepo: map<string, string>,
    locationMatches: (string, string, string) -> bool,
    leq: (string, string) -> bool)

  function ByFingerprint(reg: Registry): (Finding, Finding) -> bool {
    (a: Finding, b: Finding) => reg.leq(a.fingerprint, b.fingerprint)
  }

  /** All three criteria: linked targets, same class, matching location. */
  predicate Correlates(reg: Registry, s: Finding, l: Finding) {
    && s.place.Static? && l.place.Live?
    && l.place.host in reg.hostRepo && reg.hostRepo[l.place.host] == s.place.name
    && s.vulnClass == l.vulnClass
    && reg.locationMatches(s.place.symbol, l.place.url, l.place.httpMethod)
  }

  /** A static finding after the given live findings have been held against it. */
  function StaticAfter(reg: Registry, s: Finding, ls: seq<Finding>): Finding {
    if ls == [] then s
    else
      var before, l := StaticAfter(reg, s, ls[..|ls| - 1]), ls[|ls| - 1];
      if Correlates(reg, s, l) && l.id !in s.correlatedWith then
        before.(correlatedWith := before.correlatedWith + [l.id], severity := FinalSeverity(s, true), confidence := Confirmed)
      else before
  }

  /** A live finding after it has been held against the given static findings. */
  function LiveAfter(reg: Registry, l: Finding, ss: seq<Finding>): Finding {
    if ss == [] then l
    else
      var before, s := LiveAfter(reg, l, ss[..|ss| - 1]), ss[|ss| - 1];
      if Correlates(reg, s, l) && l.id !in s.correlatedWith then
        before.(correlatedWith := before.correlatedWith + [s.id])
      else before
  }

  function Statics(fs: seq<Finding>): seq<Finding> {
    Filter((f: Finding) => f.place.Static?, fs)
  }

  function Lives(fs: seq<Finding>): seq<Finding> {
    Filter((f: Finding) => f.place.Live?, fs)
  }

  function Linked(reg: Registry, all: seq<Finding>, f: Finding): Finding {
    if f.place.Static? then StaticAfter(reg, f, Lives(all)) else LiveAfter(reg, f, Statics(all))
  }

  function LinkedAll(reg: Registry, all: seq<Finding>, fs: seq<Finding>): (r: seq<Finding>)
    ensures |r| == |fs| && forall i :: 0 <= i < |fs| ==> r[i] == Linked(reg, all, fs[i])
  {
    if fs == [] then [] else LinkedAll(reg, all, fs[..|fs| - 1]) + [Linked(reg, all, fs[|fs| - 1])]
  }

  /** Every finding, in fingerprint order, with its links. */
  function Correlated(reg: Registry, findings: seq<Finding>): seq<Finding> {
    var sorted := Sort(ByFingerprint(reg), findings);
    LinkedAll(reg, sorted, sorted)
  }

  ghost predicate DistinctKeys(fs: seq<Finding>) {
    && (forall i, j :: 0 <= i < j < |fs| ==> fs[i].fingerprint != fs[j].fingerprint)
    && (forall i, j :: 0 <= i < j < |fs| ==> fs[i].id != fs[j].id)
  }

  // ----- facts about the specification

  lemma {:induction false} StaticAfterKeeps(reg: Registry, s: Finding, ls: seq<Finding>)
    ensures var r := StaticAfter(reg, s, ls);
      r == s.(correlatedWith := r.correlatedWith, severity := r.severity, confidence := r.confidence)
      && s.correlatedWith <= r.correlatedWith
      && (r.correlatedWith != s.correlatedWith ==> r.severity == FinalSeverity(s, true) && r.confidence == Confirmed)
      && (r.correlatedWith == s.correlatedWith ==> r == s)
  {
    hide Correlates, FinalSeverity;
    if ls != [] {
      StaticAfterKeeps(reg, s, ls[..|ls| - 1]);
    }
  }

  lemma {:induction false} StaticAfterIds(reg: Registry, s: Finding, ls: seq<Finding>, id: string)
    ensures id in StaticAfter(reg, s, ls).correlatedWith <==>
      id in s.correlatedWith || exists l :: l in ls && l.id == id && Correlates(reg, s, l)
  {
    hide Correlates, FinalSeverity;
    if ls != [] {
      var front, l := ls[..|ls| - 1], ls[|ls| - 1];
      assert ls == front + [l];
      StaticAfterIds(reg, s, front, id);
    }
  }

  lemma {:induction false} LiveAfterKeeps(reg: Registry, l: Finding, ss: seq<Finding>)
    ensures var r := LiveAfter(reg, l, ss);
      r == l.(correlatedWith := r.correlatedWith) && l.correlatedWith <= r.correlatedWith
  {
    hide Correlates;
    if ss != [] {
      LiveAfterKeeps(reg, l, ss[..|ss| - 1]);
    }
  }

  lemma {:induction false} LiveAfterIds(reg: Registry, l: Finding, ss: seq<Finding>, id: string)
    ensures id in LiveAfter(reg, l, ss).correlatedWith <==>
      id in l.correlatedWith || exists s :: s in ss && s.id == id && Correlates(reg, s, l) && l.id !in s.correlatedWith
  {
    hide Correlates;
    if ss != [] {
      var front, s := ss[..|ss| - 1], ss[|ss| - 1];
      assert ss == front + [s];
      LiveAfterIds(reg, l, front, id);
    }
  }

  // ----- the loop

  /** Index form of the loop state: which live findings a static one has met, and the other way round. */
  ghost predicate LoopState(reg: Registry, ss: seq<Finding>, ls: seq<Finding>, i: nat, j: nat, table: map<string, Finding>)
    requires i <= |ss| && j <= |ls|
  {
    && (forall k :: 0 <= k < |ss| ==>
      && ss[k].fingerprint in table
      && table[ss[k].fingerprint] == StaticAfter(reg, ss[k], ls[..if k < i then |ls| else if k == i then j else 0]))
    && (forall m :: 0 <= m < |ls| ==>
      && ls[m].fingerprint in table
      && table[ls[m].fingerprint] == LiveAfter(reg, ls[m], ss[..if m < j && i < |ss| then i + 1 else i]))
  }

  ghost predicate Apart(ss: seq<Finding>, ls: seq<Finding>) {
    && (forall i, j :: 0 <= i < j < |ss| ==> ss[i].fingerprint != ss[j].fingerprint)
    && (forall i, j :: 0 <= i < j < |ls| ==> ls[i].fingerprint != ls[j].fingerprint && ls[i].id != ls[j].id)
    && (forall i, j :: 0 <= i < |ss| && 0 <= j < |ls| ==> ss[i].fingerprint != ls[j].fingerprint)
    && (forall i :: 0 <= i < |ss| ==> ss[i].place.Static?) && (forall j :: 0 <= j < |ls| ==> ls[j].place.Live?)
  }

  /** One comparison; `table` is updated when the pair is new. */
  method Compare(reg: Registry, sf: Finding, lf: Finding, table: map<string, Finding>) returns (table': map<string, Finding>)
    requires sf.place.Static? && lf.place.Live?
    requires sf.fingerprint in table && lf.fingerprint in table && sf.fingerprint != lf.fingerprint
    ensures var s, l := table[sf.fingerprint], table[lf.fingerprint];
      table' == if Correlates(reg, sf, lf) && lf.id !in s.correlatedWith then
        table[sf.fingerprint := s.(correlatedWith := s.correlatedWith + [lf.id], severity := FinalSeverity(s, true), confidence := Confirmed)]
          [lf.fingerprint := l.(correlatedWith := l.correlatedWith + [sf.id])]
      else table
  {
    table' := table;
    if lf.place.host !in reg.hostRepo || reg.hostRepo[lf.place.host] != sf.place.name {
      return;
    }
    if sf.vulnClass != lf.vulnClass {
      return;
    }
    if !reg.locationMatches(sf.place.symbol, lf.place.url, lf.place.httpMethod) {
      return;
    }
    var existingStatic, existingLive := table[sf.fingerprint], table[lf.fingerprint];
    if lf.id in existingStatic.correlatedWith {
      return;
    }
    var severity, confidence := ComputeSeverity(existingStatic.baseSeverity, existingStatic.reachability,
                                                existingStatic.vulnClass, existingStatic.confidence, true);
    table' := table'[sf.fingerprint := existingStatic.(correlatedWith := existingStatic.correlatedWith + [lf.id],
                                                 severity := severity, confidence := confidence)];
    table' := table'[lf.fingerprint := existingLive.(correlatedWith := existingLive.correlatedWith + [sf.id])];
  }

  lemma SamePrefix(s: seq<Finding>, n: nat)
    requires n < |s|
    ensures s[..n + 1][..n] == s[..n] && s[..n + 1][n] == s[n]
  {
  }

  lemma LoopStep(reg: Registry, ss: seq<Finding>, ls: seq<Finding>, i: nat, j: nat, table: map<string, Finding>, table': map<string, Finding>)
    requires Apart(ss, ls) && i < |ss| && j < |ls| && LoopState(reg, ss, ls, i, j, table)
    requires var s, l := table[ss[i].fingerprint], table[ls[j].fingerprint];
      table' == if Correlates(reg, ss[i], ls[j]) && ls[j].id !in s.correlatedWith then
        table[ss[i].fingerprint := s.(correlatedWith := s.correlatedWith + [ls[j].id], severity := FinalSeverity(s, true), confidence := Confirmed)]
          [ls[j].fingerprint := l.(correlatedWith := l.correlatedWith + [ss[i].id])]
      else table
    ensures LoopState(reg, ss, ls, i, j + 1, table')
  {
    hide Correlates, StaticAfter, LiveAfter, FinalSeverity;
    StaticSide(reg, ss[i], ls, j);
    LiveSide(reg, ls[j], ss, i);
    NotMetYet(reg, ss[i], ls, j);
  }

  lemma StaticSide(reg: Registry, s: Finding, ls: seq<Finding>, j: nat)
    requires j < |ls|
    ensures var before := StaticAfter(reg, s, ls[..j]);
      StaticAfter(reg, s, ls[..j + 1]) ==
      if Correlates(reg, s, ls[j]) && ls[j].id !in s.correlatedWith then
        before.(correlatedWith := before.correlatedWith + [ls[j].id], severity := FinalSeverity(before, true), confidence := Confirmed)
      else before
  {
    hide Correlates;
    SamePrefix(ls, j);
    StaticAfterKeeps(reg, s, ls[..j]);
  }

  lemma LiveSide(reg: Registry, l: Finding, ss: seq<Finding>, i: nat)
    requires i < |ss|
    ensures var before := LiveAfter(reg, l, ss[..i]);
      LiveAfter(reg, l, ss[..i + 1]) ==
      if Correlates(reg, ss[i], l) && l.id !in ss[i].correlatedWith then
        before.(correlatedWith := before.correlatedWith + [ss[i].id])
      else before
  {
    hide Correlates;
    SamePrefix(ss, i);
  }

  /** Ids being distinct, the list of a static finding holds a live id it has not met only from the start. */
  lemma NotMetYet(reg: Registry, s: Finding, ls: seq<Finding>, j: nat)
    requires j < |ls| && forall i, k :: 0 <= i < k < |ls| ==> ls[i].id != ls[k].id
    ensures ls[j].id in StaticAfter(reg, s, ls[..j]).correlatedWith <==> ls[j].id in s.correlatedWith
  {
    StaticAfterIds(reg, s, ls[..j], ls[j].id);
  }

  lemma NextRow(reg: Registry, ss: seq<Finding>, ls: seq<Finding>, i: nat, table: map<string, Finding>)
    requires i < |ss| && LoopState(reg, ss, ls, i, |ls|, table)
    ensures LoopState(reg, ss, ls, i + 1, 0, table)
  {
    hide StaticAfter, LiveAfter;
  }

  lemma FirstRow(reg: Registry, ss: seq<Finding>, ls: seq<Finding>, table: map<string, Finding>)
    requires forall k :: 0 <= k < |ss| ==> ss[k].fingerprint in table && table[ss[k].fingerprint] == ss[k]
    requires forall m :: 0 <= m < |ls| ==> ls[m].fingerprint in table && table[ls[m].fingerprint] == ls[m]
    ensures LoopState(reg, ss, ls, 0, 0, table)
  {
    assert ls[..0] == [] && ss[..0] == [];
  }

  method LinkPairs(reg: Registry, ss: seq<Finding>, ls: seq<Finding>, start: map<string, Finding>) returns (table: map<string, Finding>)
    requires Apart(ss, ls)
    requires forall k :: 0 <= k < |ss| ==> ss[k].fingerprint in start && start[ss[k].fingerprint] == ss[k]
    requires forall m :: 0 <= m < |ls| ==> ls[m].fingerprint in start && start[ls[m].fingerprint] == ls[m]
    ensures LoopState(reg, ss, ls, |ss|, 0, table)
  {
    table := start;
    FirstRow(reg, ss, ls, table);
    for i := 0 to |ss|
      invariant LoopState(reg, ss, ls, i, 0, table)
    {
      for j := 0 to |ls|
        invariant LoopState(reg, ss, ls, i, j, table)
      {
        hide Correlates, StaticAfter, LiveAfter, FinalSeverity;
        ghost var before := table;
        table := Compare(reg, ss[i], ls[j], table);
        LoopStep(reg, ss, ls, i, j, before, table);
      }
      NextRow(reg, ss, ls, i, table);
    }
  }

  function Index(fs: seq<Finding>): map<string, Finding> {
    if fs == [] then map[] else Index(fs[..|fs| - 1])[fs[|fs| - 1].fingerprint := fs[|fs| - 1]]
  }

  lemma {:induction false} IndexFinds(fs: seq<Finding>)
    requires forall i, j :: 0 <= i < j < |fs| ==> fs[i].fingerprint != fs[j].fingerprint
    ensures forall i :: 0 <= i < |fs| ==> fs[i].fingerprint in Index(fs) && Index(fs)[fs[i].fingerprint] == fs[i]
  {
    if fs != [] {
      IndexFinds(fs[..|fs| - 1]);
    }
  }

  lemma KeysSorted(reg: Registry, fs: seq<Finding>)
    requires DistinctKeys(fs)
    ensures DistinctKeys(Sort(ByFingerprint(reg), fs))
  {
    SortPermutes(ByFingerprint(reg), fs);
    KeysPermute(fs, Sort(ByFingerprint(reg), fs));
  }

  lemma KeysPermute(fs: seq<Finding>, gs: seq<Finding>)
    requires DistinctKeys(fs) && multiset(fs) == multiset(gs)
    ensures DistinctKeys(gs)
  {
    DistinctByMultiset(fs, gs);
    forall i, j | 0 <= i < j < |gs|
      ensures gs[i].fingerprint != gs[j].fingerprint && gs[i].id != gs[j].id
    {
      assert gs[i] in multiset(fs) && gs[j] in multiset(fs);
      var k :| 0 <= k < |fs| && fs[k] == gs[i];
      var m :| 0 <= m < |fs| && fs[m] == gs[j];
    }
  }

  lemma SplitApart(fs: seq<Finding>)
    requires DistinctKeys(fs)
    ensures Apart(Statics(fs), Lives(fs))
    ensures forall f :: f in Statics(fs) <==> f in fs && f.place.Static?
    ensures forall f :: f in Lives(fs) <==> f in fs && f.place.Live?
  {
    var p, q := (f: Finding) => f.place.Static?, (f: Finding) => f.place.Live?;
    FilterMembers(p, fs);
    FilterMembers(q, fs);
    FilterKeys(p, fs);
    FilterKeys(q, fs);
    CrossKeys(fs, Statics(fs), Lives(fs));
  }

  lemma CrossKeys(fs: seq<Finding>, ss: seq<Finding>, ls: seq<Finding>)
    requires DistinctKeys(fs)
    requires forall f :: f in ss ==> f in fs && f.place.Static?
    requires forall f :: f in ls ==> f in fs && f.place.Live?
    ensures forall i, j :: 0 <= i < |ss| && 0 <= j < |ls| ==> ss[i].fingerprint != ls[j].fingerprint
  {
    forall i, j | 0 <= i < |ss| && 0 <= j < |ls|
      ensures ss[i].fingerprint != ls[j].fingerprint
    {
      assert ss[i] in ss && ls[j] in ls;
    }
  }

  lemma {:induction false} FilterKeys(keep: Finding -> bool, fs: seq<Finding>)
    requires DistinctKeys(fs)
    ensures DistinctKeys(Filter(keep, fs))
  {
    if fs != [] {
      var front, last := fs[..|fs| - 1], fs[|fs| - 1];
      FilterKeys(keep, front);
      FilterMembers(keep, front);
      var r := Filter(keep, front);
      forall i | 0 <= i < |r|
        ensures r[i].fingerprint != last.fingerprint && r[i].id != last.id
      {
        assert r[i] in front;
        var k :| 0 <= k < |front| && front[k] == r[i];
      }
    }
  }

  method LinkTable(reg: Registry, sorted: seq<Finding>) returns (table: map<string, Finding>)
    requires DistinctKeys(sorted)
    ensures forall f :: f in sorted ==> f.fingerprint in table && table[f.fingerprint] == Linked(reg, sorted, f)
  {
    hide Filter, LoopState, Linked, Correlates;
    var statics, lives := Statics(sorted), Lives(sorted);
    SplitApart(sorted);
    table := Index(sorted);
    IndexFinds(sorted);
    Seeded(sorted, statics, table);
    Seeded(sorted, lives, table);
    table := LinkPairs(reg, statics, lives, table);
    forall f | f in sorted
      ensures f.fingerprint in table && table[f.fingerprint] == Linked(reg, sorted, f)
    {
      ResultAt(reg, sorted, table, f);
    }
  }

  method Correlate(reg: Registry, findings: seq<Finding>) returns (r: seq<Finding>)
    requires DistinctKeys(findings)
    ensures r == Correlated(reg, findings)
  {
    hide Linked, DistinctKeys;
    var sorted := Sort(ByFingerprint(reg), findings);
    KeysSorted(reg, findings);
    var table := LinkTable(reg, sorted);
    r := [];
    for i := 0 to |sorted|
      invariant r == LinkedAll(reg, sorted, sorted)[..i]
    {
      hide LinkedAll, Sort;
      assert sorted[i] in sorted;
      r := r + [table[sorted[i].fingerprint]];
    }
  }

  lemma Seeded(fs: seq<Finding>, part: seq<Finding>, table: map<string, Finding>)
    requires forall f :: f in part ==> f in fs
    requires forall i :: 0 <= i < |fs| ==> fs[i].fingerprint in table && table[fs[i].fingerprint] == fs[i]
    ensures forall k :: 0 <= k < |part| ==> part[k].fingerprint in table && table[part[k].fingerprint] == part[k]
  {
    forall k | 0 <= k < |part|
      ensures part[k].fingerprint in table && table[part[k].fingerprint] == part[k]
    {
      assert part[k] in fs;
    }
  }

  lemma ResultAt(reg: Registry, fs: seq<Finding>, table: map<string, Finding>, f: Finding)
    requires f in fs && LoopState(reg, Statics(fs), Lives(fs), |Statics(fs)|, 0, table)
    requires forall f :: f in Statics(fs) <==> f in fs && f.place.Static?
    requires forall f :: f in Lives(fs) <==> f in fs && f.place.Live?
    ensures f.fingerprint in table && table[f.fingerprint] == Linked(reg, fs, f)
  {
    var ss, ls := Statics(fs), Lives(fs);
    assert ls[..|ls|] == ls && ss[..|ss|] == ss;
    if f.place.Static? {
      var k :| 0 <= k < |ss| && ss[k] == f;
    } else {
      var m :| 0 <= m < |ls| && ls[m] == f;
    }
  }
}
