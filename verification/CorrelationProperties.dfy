/** What `correlate` promises: links run both ways exactly when all three criteria hold, a second run changes
    nothing, and the order of the input does not matter. */
module CorrelationProperties {
  import opened Sorting
  import opened Severities
  import opened Correlation

  /** `f'` is `f` up to what `correlate` may rewrite. */
  predicate Relinked(f: Finding, f': Finding) {
    && f.correlatedWith <= f'.correlatedWith
    && if f.place.Live? || f'.correlatedWith == f.correlatedWith then
         f' == f.(correlatedWith := f'.correlatedWith)
       else
         f' == f.(correlatedWith := f'.correlatedWith, severity := FinalSeverity(f, true), confidence := Confirmed)
  }

  /** Links recorded in the input, if any, are recorded on both sides. */
  ghost predicate Symmetric(fs: seq<Finding>) {
    forall s, l :: s in fs && l in fs && s.place.Static? && l.place.Live? ==>
      (l.id in s.correlatedWith <==> s.id in l.correlatedWith)
  }

  ghost predicate Unlinked(fs: seq<Finding>) {
    forall f :: f in fs ==> f.correlatedWith == []
  }

  lemma OutputRelinks(reg: Registry, all: seq<Finding>, f: Finding)
    ensures Relinked(f, Linked(reg, all, f))
  {
    hide StaticAfter, LiveAfter, Statics, Lives, FinalSeverity;
    if f.place.Static? {
      StaticAfterKeeps(reg, f, Lives(all));
    } else {
      LiveAfterKeeps(reg, f, Statics(all));
    }
  }

  lemma SameId(all: seq<Finding>, a: Finding, b: Finding)
    requires DistinctKeys(all) && a in all && b in all
    ensures a.id == b.id ==> a == b
    ensures a.fingerprint == b.fingerprint ==> a == b
  {
    var i :| 0 <= i < |all| && all[i] == a;
    var j :| 0 <= j < |all| && all[j] == b;
    if i != j {
      assert all[if i < j then i else j].id != all[if i < j then j else i].id;
    }
  }

  /** The two sides of one pair. */
  lemma PairLinks(reg: Registry, all: seq<Finding>, s: Finding, l: Finding)
    requires DistinctKeys(all) && s in all && l in all && s.place.Static? && l.place.Live?
    ensures l.id in Linked(reg, all, s).correlatedWith <==> l.id in s.correlatedWith || Correlates(reg, s, l)
    ensures s.id in Linked(reg, all, l).correlatedWith <==>
      s.id in l.correlatedWith || (Correlates(reg, s, l) && l.id !in s.correlatedWith)
  {
    hide Correlates, StaticAfter, LiveAfter, DistinctKeys, Statics, Lives;
    SplitApart(all);
    StaticAfterIds(reg, s, Lives(all), l.id);
    LiveAfterIds(reg, l, Statics(all), s.id);
    forall f | f in all && (f.id == s.id || f.id == l.id)
      ensures f == s || f == l
    {
      SameId(all, f, s);
      SameId(all, f, l);
    }
    assert l in Lives(all) && s in Statics(all);
  }

  /** No id is added that does not belong to a correlating finding of the other side. */
  lemma NoStrayLink(reg: Registry, all: seq<Finding>, f: Finding, id: string)
    requires DistinctKeys(all) && f in all && id in Linked(reg, all, f).correlatedWith && id !in f.correlatedWith
    ensures exists g :: g in all && g.id == id && (Correlates(reg, f, g) || Correlates(reg, g, f))
  {
    hide Correlates, StaticAfter, LiveAfter, Statics, Lives;
    SplitApart(all);
    StaticAfterIds(reg, f, Lives(all), id);
    LiveAfterIds(reg, f, Statics(all), id);
  }

  /** Findings keep everything the criteria read. */
  lemma SameCriteria(reg: Registry, s: Finding, s': Finding, l: Finding, l': Finding)
    requires Relinked(s, s') && Relinked(l, l')
    ensures Correlates(reg, s', l') == Correlates(reg, s, l)
  {
  }

  /** Where an output finding comes from. */
  lemma Origin(reg: Registry, fs: seq<Finding>, a: Finding) returns (f: Finding)
    requires a in Correlated(reg, fs)
    ensures f in fs && a == Linked(reg, Sort(ByFingerprint(reg), fs), f) && Relinked(f, a)
  {
    hide Linked, Relinked;
    var sorted := Sort(ByFingerprint(reg), fs);
    SortPermutes(ByFingerprint(reg), fs);
    var i :| 0 <= i < |sorted| && Correlated(reg, fs)[i] == a;
    f := sorted[i];
    OutputRelinks(reg, sorted, f);
  }

  /** Every pair of the output is linked in both directions, or in neither; and it is linked exactly when it was
      before or all three criteria hold. */
  lemma LinksBothWays(reg: Registry, fs: seq<Finding>, a: Finding, b: Finding)
    requires DistinctKeys(fs) && Symmetric(fs)
    requires a in Correlated(reg, fs) && b in Correlated(reg, fs) && a.place.Static? && b.place.Live?
    ensures b.id in a.correlatedWith <==> a.id in b.correlatedWith
    ensures Correlates(reg, a, b) ==> b.id in a.correlatedWith
    ensures Unlinked(fs) ==> (b.id in a.correlatedWith <==> Correlates(reg, a, b))
  {
    hide Correlates, Linked, Correlated, DistinctKeys, FinalSeverity;
    var s := Origin(reg, fs, a);
    var l := Origin(reg, fs, b);
    var sorted := Sort(ByFingerprint(reg), fs);
    SortPermutes(ByFingerprint(reg), fs);
    KeysSorted(reg, fs);
    PairLinks(reg, sorted, s, l);
    SameCriteria(reg, s, a, l, b);
  }

  /** What an output finding that gained a link looks like: a static one is confirmed at the raised severity, and
      its partner is in the output. */
  lemma GainedLink(reg: Registry, fs: seq<Finding>, a: Finding, id: string)
    requires DistinctKeys(fs) && Unlinked(fs) && a in Correlated(reg, fs) && id in a.correlatedWith
    ensures a.place.Static? ==> a.severity == FinalSeverity(a, true) && a.confidence == Confirmed
    ensures exists b :: b in Correlated(reg, fs) && b.id == id && (Correlates(reg, a, b) || Correlates(reg, b, a))
  {
    hide Correlates, Linked, Correlated, DistinctKeys, FinalRank, FinalSeverity, Relinked;
    var f := Origin(reg, fs, a);
    var sorted := Sort(ByFingerprint(reg), fs);
    SortPermutes(ByFingerprint(reg), fs);
    assert f in sorted && f.correlatedWith == [];
    KeysSorted(reg, fs);
    NoStrayLink(reg, sorted, f, id);
    var g :| g in sorted && g.id == id && (Correlates(reg, f, g) || Correlates(reg, g, f));
    var b := Output(reg, fs, g);
    SameCriteria(reg, f, a, g, b);
    SameCriteria(reg, g, b, f, a);
    RelinkedMeans(f, a);
    RelinkedMeans(g, b);
  }

  /** An unlinked static finding that is relinked is raised, by the severity of what it has become. */
  lemma RelinkedMeans(f: Finding, f': Finding)
    requires Relinked(f, f')
    ensures f'.id == f.id && f'.place == f.place
    ensures f.place.Static? && f.correlatedWith == [] != f'.correlatedWith ==>
      f'.severity == FinalSeverity(f', true) && f'.confidence == Confirmed
  {
    hide FinalRank;
  }

  /** What becomes of a finding. */
  lemma Output(reg: Registry, fs: seq<Finding>, g: Finding) returns (b: Finding)
    requires g in Sort(ByFingerprint(reg), fs)
    ensures b in Correlated(reg, fs) && Relinked(g, b)
  {
    hide Linked, Relinked;
    var sorted := Sort(ByFingerprint(reg), fs);
    var i :| 0 <= i < |sorted| && sorted[i] == g;
    b := Correlated(reg, fs)[i];
    OutputRelinks(reg, sorted, g);
    assert b in Correlated(reg, fs);
  }

  // ----- a second run

  lemma {:induction false} NothingNewStatic(reg: Registry, s: Finding, ls: seq<Finding>)
    requires forall l :: l in ls && Correlates(reg, s, l) ==> l.id in s.correlatedWith
    ensures StaticAfter(reg, s, ls) == s
  {
    hide Correlates, FinalSeverity;
    if ls != [] {
      NothingNewStatic(reg, s, ls[..|ls| - 1]);
    }
  }

  lemma {:induction false} NothingNewLive(reg: Registry, l: Finding, ss: seq<Finding>)
    requires forall s :: s in ss && Correlates(reg, s, l) ==> l.id in s.correlatedWith
    ensures LiveAfter(reg, l, ss) == l
  {
    hide Correlates;
    if ss != [] {
      NothingNewLive(reg, l, ss[..|ss| - 1]);
    }
  }

  lemma AllMet(reg: Registry, fs: seq<Finding>, a: Finding, b: Finding)
    requires DistinctKeys(fs) && a in Correlated(reg, fs) && b in Correlated(reg, fs)
    requires Correlates(reg, a, b)
    ensures b.id in a.correlatedWith
  {
    hide Linked, Correlated, DistinctKeys, FinalSeverity;
    var s := Origin(reg, fs, a);
    var l := Origin(reg, fs, b);
    var sorted := Sort(ByFingerprint(reg), fs);
    SortPermutes(ByFingerprint(reg), fs);
    KeysSorted(reg, fs);
    SameCriteria(reg, s, a, l, b);
    PairLinks(reg, sorted, s, l);
  }

  lemma OutputSorted(reg: Registry, fs: seq<Finding>)
    requires TotalPreorder(reg.leq)
    ensures SortedBy(ByFingerprint(reg), Correlated(reg, fs))
  {
    hide Linked;
    Lifts(reg);
    SortSorts(ByFingerprint(reg), fs);
    var sorted, out := Sort(ByFingerprint(reg), fs), Correlated(reg, fs);
    forall i | 0 <= i < |out|
      ensures out[i].fingerprint == sorted[i].fingerprint
    {
      OutputRelinks(reg, sorted, sorted[i]);
    }
    forall i, j | 0 <= i < j < |out|
      ensures ByFingerprint(reg)(out[i], out[j])
    {
      assert ByFingerprint(reg)(sorted[i], sorted[j]);
    }
  }

  lemma Lifts(reg: Registry)
    requires TotalPreorder(reg.leq)
    ensures TotalPreorder(ByFingerprint(reg))
  {
    var leq := ByFingerprint(reg);
    forall x, y
      ensures leq(x, y) || leq(y, x)
    {
      assert reg.leq(x.fingerprint, y.fingerprint) || reg.leq(y.fingerprint, x.fingerprint);
    }
    forall x, y, z | Via(leq, x, y, z)
      ensures leq(x, z)
    {
      assert Via(reg.leq, x.fingerprint, y.fingerprint, z.fingerprint);
    }
  }

  lemma Idempotent(reg: Registry, fs: seq<Finding>)
    requires TotalPreorder(reg.leq) && DistinctKeys(fs)
    ensures Correlated(reg, Correlated(reg, fs)) == Correlated(reg, fs)
  {
    hide Correlated, Correlates, DistinctKeys, SortedBy, StaticAfter, LiveAfter;
    var out := Correlated(reg, fs);
    OutputSorted(reg, fs);
    SortedStays(ByFingerprint(reg), out);
    forall f | f in out
      ensures Linked(reg, out, f) == f
    {
      Settled(reg, fs, f);
    }
    LinkedStays(reg, out);
    AsLinked(reg, out);
  }

  lemma AsLinked(reg: Registry, fs: seq<Finding>)
    requires Sort(ByFingerprint(reg), fs) == fs
    ensures Correlated(reg, fs) == LinkedAll(reg, fs, fs)
  {
  }

  lemma LinkedStays(reg: Registry, out: seq<Finding>)
    requires forall f :: f in out ==> Linked(reg, out, f) == f
    ensures LinkedAll(reg, out, out) == out
  {
    hide Linked;
    assert |LinkedAll(reg, out, out)| == |out|;
  }

  lemma Settled(reg: Registry, fs: seq<Finding>, f: Finding)
    requires DistinctKeys(fs) && f in Correlated(reg, fs)
    ensures Linked(reg, Correlated(reg, fs), f) == f
  {
    hide Correlated, Correlates, DistinctKeys, StaticAfter, LiveAfter;
    var out := Correlated(reg, fs);
    FilterMembers((f: Finding) => f.place.Static?, out);
    FilterMembers((f: Finding) => f.place.Live?, out);
    forall g | g in out && Correlates(reg, f, g)
      ensures g.id in f.correlatedWith
    {
      AllMet(reg, fs, f, g);
    }
    forall g | g in out && Correlates(reg, g, f)
      ensures f.id in g.correlatedWith
    {
      AllMet(reg, fs, g, f);
    }
    if f.place.Static? {
      NothingNewStatic(reg, f, Lives(out));
    } else {
      NothingNewLive(reg, f, Statics(out));
    }
  }

  // ----- input order

  /** Collation that tells the fingerprints apart makes the result the same for every order of the input. */
  lemma OrderIndependent(reg: Registry, fs: seq<Finding>, gs: seq<Finding>)
    requires TotalPreorder(reg.leq) && DistinctKeys(fs) && multiset(fs) == multiset(gs)
    requires forall f, g :: f in fs && g in fs && reg.leq(f.fingerprint, g.fingerprint) && reg.leq(g.fingerprint, f.fingerprint) ==> f.fingerprint == g.fingerprint
    ensures Correlated(reg, fs) == Correlated(reg, gs)
  {
    Lifts(reg);
    forall f, g | f in fs && g in fs && ByFingerprint(reg)(f, g) && ByFingerprint(reg)(g, f)
      ensures f == g
    {
      SameId(fs, f, g);
    }
    SortCanonical(ByFingerprint(reg), fs, gs);
  }
}
