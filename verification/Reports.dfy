/** The report stage: derived fields, and the total order findings are listed in (`buildReport`). */
module Reports {
  import opened Prelude
  import opened Sorting
  import opened Severities
  import opened Correlation
  import opened CorrelationProperties

  /** What `fixes.json` knows of a fingerprint: whether an entry carries an issue URL. */
  type FixLinks = map<string, Option<string>>

  // ----- comparators

  /** A comparator a sort may rely on: swapping the arguments swaps the sign, and "not after" is transitive. */
  ghost predicate Consistent<T(!new)>(c: (T, T) -> int) {
    && (forall x, y :: c(x, y) <= 0 <==> c(y, x) >= 0)
    && (forall x, y, z :: NotAfter(c, x, y) && NotAfter(c, y, z) ==> NotAfter(c, x, z))
  }

  predicate NotAfter<T>(c: (T, T) -> int, x: T, y: T) {
    c(x, y) <= 0
  }

  function Leq<T>(c: (T, T) -> int): (T, T) -> bool {
    (x, y) => NotAfter(c, x, y)
  }

  /** The next key decides where the first one ties. */
  function Then<T>(first: (T, T) -> int, second: (T, T) -> int): (T, T) -> int {
    (x, y) => if first(x, y) != 0 then first(x, y) else second(x, y)
  }

  function ByRank<T>(rank: T -> int): (T, T) -> int {
    (x, y) => rank(x) - rank(y)
  }

  function ByText<T>(collate: (string, string) -> int, key: T -> string): (T, T) -> int {
    (x, y) => collate(key(x), key(y))
  }

  lemma ThenConsistent<T(!new)>(first: (T, T) -> int, second: (T, T) -> int)
    requires Consistent(first) && Consistent(second)
    ensures Consistent(Then(first, second))
  {
    var c := Then(first, second);
    forall x, y, z | NotAfter(c, x, y) && NotAfter(c, y, z)
      ensures NotAfter(c, x, z)
    {
      assert NotAfter(first, x, y) && NotAfter(first, y, z);
      if first(x, z) == 0 {
        assert NotAfter(first, z, x);
        assert NotAfter(first, y, x) && NotAfter(first, z, y);
        assert NotAfter(second, x, y) && NotAfter(second, y, z);
      }
    }
  }

  lemma RankConsistent<T(!new)>(rank: T -> int)
    ensures Consistent(ByRank(rank))
  {
  }

  lemma TextConsistent<T(!new)>(collate: (string, string) -> int, key: T -> string)
    requires Consistent(collate)
    ensures Consistent(ByText(collate, key))
  {
    var c := ByText(collate, key);
    forall x, y, z | NotAfter(c, x, y) && NotAfter(c, y, z)
      ensures NotAfter(c, x, z)
    {
      assert NotAfter(collate, key(x), key(y)) && NotAfter(collate, key(y), key(z));
    }
  }

  lemma ConsistentSorts<T(!new)>(c: (T, T) -> int)
    requires Consistent(c)
    ensures TotalPreorder(Leq(c))
  {
    var leq := Leq(c);
    forall x, y
      ensures leq(x, y) || leq(y, x)
    {
      assert c(x, y) <= 0 <==> c(y, x) >= 0;
    }
    forall x, y, z | Via(leq, x, y, z)
      ensures leq(x, z)
    {
      assert NotAfter(c, x, y) && NotAfter(c, y, z);
    }
  }

  // ----- the report order

  function SeverityOrder(f: Finding): int {
    3 - Rank(f.severity)
  }

  function ConfidenceOrder(f: Finding): int {
    match f.confidence
    case Confirmed => 0
    case Probable => 1
    case Tentative => 2
  }

  function VulnClassOrder(f: Finding): int {
    match f.vulnClass
    case TenantIsolation => 0
    case Injection => 1
    case Secrets => 2
    case AuthAccessControl => 3
    case Xss => 4
    case Csrf => 5
    case SessionManagement => 6
    case OpenRedirect => 7
    case InfoDisclosure => 8
    case Tls => 9
    case Misconfiguration => 10
    case DependencyCve => 11
  }

  function TargetName(f: Finding): string {
    if f.place.Static? then f.place.name else f.place.host
  }

  function RuleOf(f: Finding): string {
    f.ruleId
  }

  function FingerprintOf(f: Finding): string {
    f.fingerprint
  }

  /** The comparator of `sortFindings`, key by key. */
  function CompareFindings(collate: (string, string) -> int, a: Finding, b: Finding): int {
    var sevDiff := SeverityOrder(a) - SeverityOrder(b);
    if sevDiff != 0 then sevDiff else
    var confDiff := ConfidenceOrder(a) - ConfidenceOrder(b);
    if confDiff != 0 then confDiff else
    var vcDiff := VulnClassOrder(a) - VulnClassOrder(b);
    if vcDiff != 0 then vcDiff else
    var targetDiff := collate(TargetName(a), TargetName(b));
    if targetDiff != 0 then targetDiff else
    var ruleIdDiff := collate(a.ruleId, b.ruleId);
    if ruleIdDiff != 0 then ruleIdDiff else
    collate(a.fingerprint, b.fingerprint)
  }

  function Comparing(collate: (string, string) -> int): (Finding, Finding) -> int {
    (a, b) => CompareFindings(collate, a, b)
  }

  /** The same order as one key after another. */
  function Lexicographic(collate: (string, string) -> int): (Finding, Finding) -> int {
    Then(ByRank(SeverityOrder), Then(ByRank(ConfidenceOrder), Then(ByRank(VulnClassOrder),
      Then(ByText(collate, TargetName), Then(ByText(collate, RuleOf), ByText(collate, FingerprintOf))))))
  }

  lemma SameOrder(collate: (string, string) -> int, a: Finding, b: Finding)
    ensures Lexicographic(collate)(a, b) == CompareFindings(collate, a, b)
  {
    var k5 := Then(ByText(collate, RuleOf), ByText(collate, FingerprintOf));
    var k4 := Then(ByText(collate, TargetName), k5);
    var k3 := Then(ByRank(VulnClassOrder), k4);
    var k2 := Then(ByRank(ConfidenceOrder), k3);
    hide Rank, ConfidenceOrder, VulnClassOrder, TargetName;
    assert k5(a, b) == var d := collate(a.ruleId, b.ruleId); if d != 0 then d else collate(a.fingerprint, b.fingerprint);
    assert k4(a, b) == var d := collate(TargetName(a), TargetName(b)); if d != 0 then d else k5(a, b);
    assert k3(a, b) == var d := VulnClassOrder(a) - VulnClassOrder(b); if d != 0 then d else k4(a, b);
    assert k2(a, b) == var d := ConfidenceOrder(a) - ConfidenceOrder(b); if d != 0 then d else k3(a, b);
    assert Lexicographic(collate) == Then(ByRank(SeverityOrder), k2);
  }

  lemma LexicographicConsistent(collate: (string, string) -> int)
    requires Consistent(collate)
    ensures Consistent(Lexicographic(collate))
  {
    hide Consistent;
    RankConsistent(SeverityOrder);
    RankConsistent(ConfidenceOrder);
    RankConsistent(VulnClassOrder);
    TextConsistent(collate, TargetName);
    TextConsistent(collate, RuleOf);
    TextConsistent(collate, FingerprintOf);
    var k5 := Then(ByText(collate, RuleOf), ByText(collate, FingerprintOf));
    ThenConsistent(ByText(collate, RuleOf), ByText(collate, FingerprintOf));
    var k4 := Then(ByText(collate, TargetName), k5);
    ThenConsistent(ByText(collate, TargetName), k5);
    var k3 := Then(ByRank(VulnClassOrder), k4);
    ThenConsistent(ByRank(VulnClassOrder), k4);
    var k2 := Then(ByRank(ConfidenceOrder), k3);
    ThenConsistent(ByRank(ConfidenceOrder), k3);
    ThenConsistent(ByRank(SeverityOrder), k2);
  }

  lemma ComparingConsistent(collate: (string, string) -> int)
    requires Consistent(collate)
    ensures Consistent(Comparing(collate))
  {
    hide CompareFindings, Lexicographic;
    LexicographicConsistent(collate);
    var c, l := Comparing(collate), Lexicographic(collate);
    forall x, y
      ensures c(x, y) == l(x, y) && NotAfter(c, x, y) == NotAfter(l, x, y)
    {
      SameOrder(collate, x, y);
    }
  }

  /** Two findings tie only if the collation cannot tell their fingerprints apart. */
  lemma TieMeansFingerprint(collate: (string, string) -> int, a: Finding, b: Finding)
    requires CompareFindings(collate, a, b) == 0
    ensures collate(a.fingerprint, b.fingerprint) == 0
  {
  }

  function SortFindings(collate: (string, string) -> int, fs: seq<Finding>): seq<Finding> {
    Sort(Leq(Comparing(collate)), fs)
  }

  // ----- derived fields

  function DeriveReportFields(fixes: FixLinks, f: Finding): Finding {
    var liveConfirmed := f.place.Static? && |f.correlatedWith| > 0;
    f.(severity := FinalSeverity(f, liveConfirmed),
       confidence := if liveConfirmed then Confirmed else f.confidence,
       externalRefs := if f.fingerprint in fixes && fixes[f.fingerprint].Some? then [fixes[f.fingerprint].value] else [])
  }

  function DeriveAll(fixes: FixLinks, fs: seq<Finding>): (r: seq<Finding>)
    ensures |r| == |fs| && forall i :: 0 <= i < |fs| ==> r[i] == DeriveReportFields(fixes, fs[i])
  {
    if fs == [] then [] else DeriveAll(fixes, fs[..|fs| - 1]) + [DeriveReportFields(fixes, fs[|fs| - 1])]
  }

  function BuildReport(collate: (string, string) -> int, fixes: FixLinks, fs: seq<Finding>): seq<Finding> {
    SortFindings(collate, DeriveAll(fixes, fs))
  }

  // ----- what the report promises

  /** The listing is a permutation of the derived findings, in the stated order. */
  lemma ReportListsAll(collate: (string, string) -> int, fixes: FixLinks, fs: seq<Finding>)
    requires Consistent(collate)
    ensures multiset(BuildReport(collate, fixes, fs)) == multiset(DeriveAll(fixes, fs))
    ensures SortedBy(Leq(Comparing(collate)), BuildReport(collate, fixes, fs))
  {
    hide CompareFindings, Consistent;
    ComparingConsistent(collate);
    ConsistentSorts(Comparing(collate));
    SortPermutes(Leq(Comparing(collate)), DeriveAll(fixes, fs));
    SortSorts(Leq(Comparing(collate)), DeriveAll(fixes, fs));
  }

  /** A finding listed earlier is at least as severe, and among equals at least as certain. */
  lemma ListedEarlier(collate: (string, string) -> int, fixes: FixLinks, fs: seq<Finding>, i: nat, j: nat)
    requires Consistent(collate) && i < j < |BuildReport(collate, fixes, fs)|
    ensures var a, b := BuildReport(collate, fixes, fs)[i], BuildReport(collate, fixes, fs)[j];
      Rank(a.severity) > Rank(b.severity) || (a.severity == b.severity && ConfidenceOrder(a) <= ConfidenceOrder(b))
  {
    hide BuildReport, Consistent, Rank, ConfidenceOrder, VulnClassOrder;
    ReportListsAll(collate, fixes, fs);
    var r := BuildReport(collate, fixes, fs);
    assert Leq(Comparing(collate))(r[i], r[j]);
    RankTells(r[i].severity, r[j].severity);
  }

  lemma RankTells(a: Severity, b: Severity)
    ensures Rank(a) == Rank(b) <==> a == b
  {
  }

  ghost predicate Separates(collate: (string, string) -> int, fs: seq<Finding>) {
    forall f, g :: f in fs && g in fs && collate(f.fingerprint, g.fingerprint) == 0 ==> f.fingerprint == g.fingerprint
  }

  lemma {:induction false} DerivePermutes(fixes: FixLinks, fs: seq<Finding>, gs: seq<Finding>)
    requires multiset(fs) == multiset(gs)
    ensures multiset(DeriveAll(fixes, fs)) == multiset(DeriveAll(fixes, gs))
    decreases |fs|
  {
    hide DeriveReportFields, DeriveAll;
    if fs == [] {
      assert |gs| == |multiset(gs)| == 0;
    } else {
      var n := |fs| - 1;
      var k := PlaceIn(fs, gs, n);
      DropAt(fixes, fs, n);
      DropAt(fixes, gs, k);
      DropBoth(fs, gs, n, k);
      DerivePermutes(fixes, fs[..n] + fs[n + 1..], gs[..k] + gs[k + 1..]);
    }
  }

  /** Taking one finding out takes its derived form out. */
  lemma DropAt(fixes: FixLinks, gs: seq<Finding>, k: nat)
    requires k < |gs|
    ensures var rest := gs[..k] + gs[k + 1..];
      multiset(gs) == multiset(rest) + multiset{gs[k]}
      && multiset(DeriveAll(fixes, gs)) == multiset(DeriveAll(fixes, rest)) + multiset{DeriveReportFields(fixes, gs[k])}
  {
    hide DeriveReportFields;
    var front, back := gs[..k], gs[k + 1..];
    DropMiddle(front, gs[k], back);
    assert gs == front + [gs[k]] + back;
    DeriveSplits(fixes, front, back);
    DeriveSplits(fixes, front + [gs[k]], back);
    DeriveSplits(fixes, front, [gs[k]]);
    DeriveOne(fixes, gs[k]);
    DropMiddle(DeriveAll(fixes, front), DeriveReportFields(fixes, gs[k]), DeriveAll(fixes, back));
  }

  lemma DeriveOne(fixes: FixLinks, f: Finding)
    ensures DeriveAll(fixes, [f]) == [DeriveReportFields(fixes, f)]
  {
  }

  lemma DeriveSplits(fixes: FixLinks, a: seq<Finding>, b: seq<Finding>)
    ensures DeriveAll(fixes, a + b) == DeriveAll(fixes, a) + DeriveAll(fixes, b)
  {
    hide DeriveReportFields;
  }

  lemma DerivedKeys(fixes: FixLinks, fs: seq<Finding>, f: Finding, g: Finding)
    requires DistinctKeys(fs) && f in DeriveAll(fixes, fs) && g in DeriveAll(fixes, fs) && f.fingerprint == g.fingerprint
    ensures f == g
  {
    var i :| 0 <= i < |fs| && DeriveAll(fixes, fs)[i] == f;
    var j :| 0 <= j < |fs| && DeriveAll(fixes, fs)[j] == g;
    SameId(fs, fs[i], fs[j]);
  }

  /** The listing does not depend on the order findings arrive in. */
  lemma ReportCanonical(collate: (string, string) -> int, fixes: FixLinks, fs: seq<Finding>, gs: seq<Finding>)
    requires Consistent(collate) && DistinctKeys(fs) && Separates(collate, fs) && multiset(fs) == multiset(gs)
    ensures BuildReport(collate, fixes, fs) == BuildReport(collate, fixes, gs)
  {
    hide CompareFindings, Consistent, DistinctKeys, FinalSeverity;
    ComparingConsistent(collate);
    ConsistentSorts(Comparing(collate));
    DerivePermutes(fixes, fs, gs);
    var ds, leq := DeriveAll(fixes, fs), Leq(Comparing(collate));
    forall f, g | f in ds && g in ds && leq(f, g) && leq(g, f)
      ensures f == g
    {
      TiedAreSame(collate, fixes, fs, f, g);
    }
    hide DeriveAll, Leq, Comparing;
    SortCanonical(leq, ds, DeriveAll(fixes, gs));
  }

  /** Derived findings that the order ties are the same. */
  lemma TiedAreSame(collate: (string, string) -> int, fixes: FixLinks, fs: seq<Finding>, f: Finding, g: Finding)
    requires Consistent(collate) && DistinctKeys(fs) && Separates(collate, fs)
    requires f in DeriveAll(fixes, fs) && g in DeriveAll(fixes, fs)
    requires Leq(Comparing(collate))(f, g) && Leq(Comparing(collate))(g, f)
    ensures f == g
  {
    hide CompareFindings, Consistent, DistinctKeys, FinalSeverity;
    ComparingConsistent(collate);
    BothWays(Comparing(collate), f, g);
    TieMeansFingerprint(collate, f, g);
    var i :| 0 <= i < |fs| && DeriveAll(fixes, fs)[i] == f;
    var j :| 0 <= j < |fs| && DeriveAll(fixes, fs)[j] == g;
    assert fs[i] in fs && fs[j] in fs;
    DerivedKeys(fixes, fs, f, g);
  }

  lemma BothWays<T(!new)>(c: (T, T) -> int, x: T, y: T)
    requires Consistent(c) && NotAfter(c, x, y) && NotAfter(c, y, x)
    ensures c(x, y) == 0
  {
  }

  /** Links never move a live finding, and deriving twice changes nothing more. */
  lemma DeriveSettles(fixes: FixLinks, f: Finding, links: seq<string>)
    ensures DeriveReportFields(fixes, DeriveReportFields(fixes, f)) == DeriveReportFields(fixes, f)
    ensures f.place.Live? ==>
      DeriveReportFields(fixes, f.(correlatedWith := links)) == DeriveReportFields(fixes, f).(correlatedWith := links)
  {
  }

  /** For a finding `correlate` linked, the report stage arrives at the severity `correlate` had set. */
  lemma SeverityAgrees(reg: Registry, fixes: FixLinks, fs: seq<Finding>, a: Finding)
    requires DistinctKeys(fs) && Unlinked(fs) && a in Correlated(reg, fs) && a.place.Static? && a.correlatedWith != []
    ensures DeriveReportFields(fixes, a).severity == a.severity
    ensures DeriveReportFields(fixes, a).confidence == a.confidence
  {
    hide Correlated, DistinctKeys, Correlates;
    GainedLink(reg, fs, a, a.correlatedWith[0]);
  }

  /** From scanner output to listing: a static finding is listed at its live-confirmed severity exactly when some
      live finding of the listing meets all three criteria with it. */
  lemma ConfirmedExactly(reg: Registry, collate: (string, string) -> int, fixes: FixLinks, fs: seq<Finding>, a: Finding)
    requires DistinctKeys(fs) && Unlinked(fs)
    requires a in BuildReport(collate, fixes, Correlated(reg, fs)) && a.place.Static?
    ensures a.severity == FinalSeverity(a, a.correlatedWith != [])
    ensures a.correlatedWith != [] <==>
      exists b :: b in BuildReport(collate, fixes, Correlated(reg, fs)) && Correlates(reg, a, b)
  {
    hide Correlated, DistinctKeys, Correlates, FinalRank, BuildReport;
    var cs := Correlated(reg, fs);
    var c := ListedFrom(collate, fixes, cs, a);
    if a.correlatedWith != [] {
      GainedLink(reg, fs, c, c.correlatedWith[0]);
      var b :| b in cs && b.id == c.correlatedWith[0] && (Correlates(reg, c, b) || Correlates(reg, b, c));
      Listed(reg, collate, fixes, cs, c, b);
    }
    forall b | b in BuildReport(collate, fixes, cs) && Correlates(reg, a, b)
      ensures a.correlatedWith != []
    {
      var d := ListedFrom(collate, fixes, cs, b);
      MetMeansLinked(reg, fixes, fs, c, d);
    }
  }

  lemma ListedFrom(collate: (string, string) -> int, fixes: FixLinks, cs: seq<Finding>, a: Finding) returns (c: Finding)
    requires a in BuildReport(collate, fixes, cs)
    ensures c in cs && a == DeriveReportFields(fixes, c)
  {
    hide CompareFindings, DeriveReportFields;
    SortPermutes(Leq(Comparing(collate)), DeriveAll(fixes, cs));
    var i :| 0 <= i < |cs| && DeriveAll(fixes, cs)[i] == a;
    c := cs[i];
  }

  lemma MetMeansLinked(reg: Registry, fixes: FixLinks, fs: seq<Finding>, c: Finding, d: Finding)
    requires DistinctKeys(fs) && Unlinked(fs) && c in Correlated(reg, fs) && d in Correlated(reg, fs)
    requires Correlates(reg, DeriveReportFields(fixes, c), DeriveReportFields(fixes, d))
    ensures c.correlatedWith != []
  {
    hide Correlated, DistinctKeys, Correlates, DeriveReportFields;
    SameAfterDerive(reg, fixes, c, d);
    OnlyStaticToLive(reg, c, d);
    LinksBothWays(reg, fs, c, d);
  }

  lemma OnlyStaticToLive(reg: Registry, a: Finding, b: Finding)
    requires Correlates(reg, a, b)
    ensures a.place.Static? && b.place.Live?
  {
  }

  lemma SameAfterDerive(reg: Registry, fixes: FixLinks, a: Finding, b: Finding)
    ensures Correlates(reg, DeriveReportFields(fixes, a), DeriveReportFields(fixes, b)) == Correlates(reg, a, b)
  {
  }

  lemma Listed(reg: Registry, collate: (string, string) -> int, fixes: FixLinks, cs: seq<Finding>, a: Finding, b: Finding)
    requires a in cs && b in cs && a.place.Static? && (Correlates(reg, a, b) || Correlates(reg, b, a))
    ensures DeriveReportFields(fixes, b) in BuildReport(collate, fixes, cs)
    ensures Correlates(reg, DeriveReportFields(fixes, a), DeriveReportFields(fixes, b))
  {
    InReport(collate, fixes, cs, b);
    hide BuildReport, Sort, DeriveReportFields;
    SameAfterDerive(reg, fixes, a, b);
  }

  lemma InReport(collate: (string, string) -> int, fixes: FixLinks, cs: seq<Finding>, b: Finding)
    requires b in cs
    ensures DeriveReportFields(fixes, b) in BuildReport(collate, fixes, cs)
  {
    hide CompareFindings, DeriveReportFields;
    var j :| 0 <= j < |cs| && cs[j] == b;
    assert DeriveAll(fixes, cs)[j] == DeriveReportFields(fixes, b);
    SortPermutes(Leq(Comparing(collate)), DeriveAll(fixes, cs));
  }
}
