/** Severity, correlation and listing stated by their tables and criteria alone: what confirmation adds, which findings
    get linked, and what comes before what in a report. */
module ReportMeaning {
  import opened Prelude
  import opened Sorting
  import opened Severities
  import opened Correlation
  import opened CorrelationProperties
  import opened Reports

  // ----- severity

  /** What a severity becomes by reachability and confirmation, before the floor; from low up to critical. */
  function Outcomes(reach: Reachability, liveConfirmed: bool): (r: seq<Severity>)
    ensures |r| == 4
  {
    match reach
    case Unauthenticated => if liveConfirmed then [High, Critical, Critical, Critical] else [Medium, High, Critical, Critical]
    case Admin => if liveConfirmed then [Low, Medium, High, High] else [Low, Low, Medium, High]
    case Authenticated => if liveConfirmed then [Medium, High, Critical, Critical] else [Low, Medium, High, Critical]
    case UnknownReach => if liveConfirmed then [Medium, High, Critical, Critical] else [Low, Medium, High, Critical]
  }

  /** Counted from low up. */
  function PlaceOf(s: Severity): (k: nat)
    ensures k < 4
  {
    if s == Low then 0 else if s == Medium then 1 else if s == High then 2 else 3
  }

  function Tabled(f: Finding, liveConfirmed: bool): Severity {
    var s := Outcomes(f.reachability, liveConfirmed)[PlaceOf(f.baseSeverity)];
    if f.vulnClass in {Secrets, Injection, TenantIsolation} && s in {Low, Medium} then High else s
  }

  /** The chain of modifiers comes to this table. */
  lemma SeverityTable(f: Finding, liveConfirmed: bool)
    ensures FinalSeverity(f, liveConfirmed) == Tabled(f, liveConfirmed)
  {
    RankTells(FinalSeverity(f, liveConfirmed), Tabled(f, liveConfirmed));
  }

  /** Confirmation by a live finding raises the severity by exactly one step or leaves it, and it raises exactly these:
      without a floor, whatever is not critical yet, but for an admin route neither a low nor a critical base; with the
      floor, only what stood at high before and gets to critical. */
  lemma ConfirmationRaisesIff(f: Finding)
    ensures var before, after := FinalSeverity(f, false), FinalSeverity(f, true);
      && (before == after || (before, after) in {(Low, Medium), (Medium, High), (High, Critical)})
      && (f.vulnClass !in {Secrets, Injection, TenantIsolation} ==>
            (before != after <==> before != Critical && !(f.reachability == Admin && f.baseSeverity in {Low, Critical})))
      && (f.vulnClass in {Secrets, Injection, TenantIsolation} ==>
            && before in {High, Critical}
            && (before != after <==>
                  || (f.reachability == Unauthenticated && f.baseSeverity == Medium)
                  || (f.reachability in {Authenticated, UnknownReach} && f.baseSeverity == High)))
  {
    SeverityTable(f, false);
    SeverityTable(f, true);
  }

  /** What the report stage derives, by the table: a static finding with links counts as confirmed, a live one never
      does, and nothing but severity, confidence and the issue link changes. */
  lemma DerivedFields(fixes: FixLinks, f: Finding)
    ensures var d := DeriveReportFields(fixes, f);
      && d == f.(severity := d.severity, confidence := d.confidence, externalRefs := d.externalRefs)
      && (f.place.Static? && f.correlatedWith != [] ==> d.severity == Tabled(f, true) && d.confidence == Confirmed)
      && (f.place.Live? || f.correlatedWith == [] ==> d.severity == Tabled(f, false) && d.confidence == f.confidence)
      && d.externalRefs == (if f.fingerprint in fixes && fixes[f.fingerprint] != None then [fixes[f.fingerprint].value] else [])
  {
    hide FinalSeverity, Tabled;
    SeverityTable(f, true);
    SeverityTable(f, false);
  }

  // ----- correlation

  /** Two findings of a correlated list are linked exactly when the host of the live one is registered for the
      repository of the static one, their classes agree, and route and request match. */
  lemma LinkedIffCriteria(reg: Registry, fs: seq<Finding>, a: Finding, b: Finding)
    requires DistinctKeys(fs) && Unlinked(fs)
    requires a in Correlated(reg, fs) && b in Correlated(reg, fs) && a.place.Static? && b.place.Live?
    ensures b.id in a.correlatedWith <==>
      && b.place.host in reg.hostRepo && reg.hostRepo[b.place.host] == a.place.name
      && a.vulnClass == b.vulnClass
      && reg.locationMatches(a.place.symbol, b.place.url, b.place.httpMethod)
    ensures a.id in b.correlatedWith <==> b.id in a.correlatedWith
  {
    hide Correlated, DistinctKeys;
    LinksBothWays(reg, fs, a, b);
  }

  /** Every link of a correlated list leads from a static to a live finding of it, or back, that meet the criteria. */
  lemma EveryLinkMeans(reg: Registry, fs: seq<Finding>, a: Finding, id: string) returns (b: Finding)
    requires DistinctKeys(fs) && Unlinked(fs) && a in Correlated(reg, fs) && id in a.correlatedWith
    ensures b in Correlated(reg, fs) && b.id == id && a.vulnClass == b.vulnClass && a.place.Static? == b.place.Live?
    ensures var (s, l) := if a.place.Static? then (a.place, b.place) else (b.place, a.place);
      && l.host in reg.hostRepo && reg.hostRepo[l.host] == s.name && reg.locationMatches(s.symbol, l.url, l.httpMethod)
  {
    hide Correlated, DistinctKeys;
    GainedLink(reg, fs, a, id);
    b :| b in Correlated(reg, fs) && b.id == id && (Correlates(reg, a, b) || Correlates(reg, b, a));
  }

  /** A correlated list holds the findings it was given: a static one with links is confirmed, at the severity of the
      table, and every other one differs in its links alone. */
  lemma WhatCorrelateChanges(reg: Registry, fs: seq<Finding>, a: Finding) returns (f: Finding)
    requires DistinctKeys(fs) && Unlinked(fs) && a in Correlated(reg, fs)
    ensures f in fs
    ensures a == if a.place.Static? && a.correlatedWith != [] then
        f.(correlatedWith := a.correlatedWith, severity := Tabled(f, true), confidence := Confirmed)
      else f.(correlatedWith := a.correlatedWith)
  {
    hide Correlated, DistinctKeys, Linked, FinalSeverity, Tabled;
    f := Origin(reg, fs, a);
    SeverityTable(f, true);
  }

  // ----- the listing

  const WORST_FIRST: seq<Severity> := [Critical, High, Medium, Low]

  const SUREST_FIRST: seq<Confidence> := [Confirmed, Probable, Tentative]

  const CLASSES_IN_ORDER: seq<VulnClass> :=
    [TenantIsolation, Injection, Secrets, AuthAccessControl, Xss, Csrf,
     SessionManagement, OpenRedirect, InfoDisclosure, Tls, Misconfiguration, DependencyCve]

  /** `x` stands before `y` in the list. */
  ghost predicate Before<T>(list: seq<T>, x: T, y: T) {
    exists i, j :: 0 <= i < j < |list| && list[i] == x && list[j] == y
  }

  function Target(f: Finding): string {
    match f.place
    case Static(name, _) => name
    case Live(host, _, _) => host
  }

  /** Worse first, then surer, then by class, then by target, rule and fingerprint as the collation has them. */
  ghost predicate NotListedAfter(collate: (string, string) -> int, a: Finding, b: Finding) {
    || Before(WORST_FIRST, a.severity, b.severity)
    || (a.severity == b.severity && Before(SUREST_FIRST, a.confidence, b.confidence))
    || (a.severity == b.severity && a.confidence == b.confidence
        && (Before(CLASSES_IN_ORDER, a.vulnClass, b.vulnClass) || (a.vulnClass == b.vulnClass && NamesNotAfter(collate, a, b))))
  }

  predicate NamesNotAfter(collate: (string, string) -> int, a: Finding, b: Finding) {
    || collate(Target(a), Target(b)) < 0
    || (collate(Target(a), Target(b)) == 0 && collate(a.ruleId, b.ruleId) < 0)
    || (collate(Target(a), Target(b)) == 0 && collate(a.ruleId, b.ruleId) == 0 && collate(a.fingerprint, b.fingerprint) <= 0)
  }

  lemma SeverityPlace(a: Finding, b: Finding)
    ensures Before(WORST_FIRST, a.severity, b.severity) <==> Reports.SeverityOrder(a) < Reports.SeverityOrder(b)
    ensures a.severity == b.severity <==> Reports.SeverityOrder(a) == Reports.SeverityOrder(b)
  {
    var i, j := Reports.SeverityOrder(a), Reports.SeverityOrder(b);
    assert WORST_FIRST[i] == a.severity && WORST_FIRST[j] == b.severity;
  }

  lemma ConfidencePlace(a: Finding, b: Finding)
    ensures Before(SUREST_FIRST, a.confidence, b.confidence) <==> ConfidenceOrder(a) < ConfidenceOrder(b)
    ensures a.confidence == b.confidence <==> ConfidenceOrder(a) == ConfidenceOrder(b)
  {
    var i, j := ConfidenceOrder(a), ConfidenceOrder(b);
    assert SUREST_FIRST[i] == a.confidence && SUREST_FIRST[j] == b.confidence;
  }

  lemma ClassAt(f: Finding, k: int)
    requires 0 <= k < 12
    ensures 0 <= VulnClassOrder(f) < 12 && (CLASSES_IN_ORDER[k] == f.vulnClass <==> k == VulnClassOrder(f))
  {
  }

  lemma ClassPlace(a: Finding, b: Finding)
    ensures Before(CLASSES_IN_ORDER, a.vulnClass, b.vulnClass) <==> VulnClassOrder(a) < VulnClassOrder(b)
    ensures a.vulnClass == b.vulnClass <==> VulnClassOrder(a) == VulnClassOrder(b)
  {
    hide VulnClassOrder;
    ClassAt(a, 0);
    ClassAt(b, 0);
    var i, j := VulnClassOrder(a), VulnClassOrder(b);
    ClassAt(a, i);
    ClassAt(b, j);
    ClassAt(a, j);
    forall m, n | 0 <= m < n < |CLASSES_IN_ORDER| && CLASSES_IN_ORDER[m] == a.vulnClass && CLASSES_IN_ORDER[n] == b.vulnClass
      ensures m == i && n == j
    {
      ClassAt(a, m);
      ClassAt(b, n);
    }
  }

  /** The comparator says exactly that. */
  lemma ComparatorMeans(collate: (string, string) -> int, a: Finding, b: Finding)
    ensures CompareFindings(collate, a, b) <= 0 <==> NotListedAfter(collate, a, b)
  {
    hide Reports.SeverityOrder, ConfidenceOrder, VulnClassOrder, Before;
    SeverityPlace(a, b);
    ConfidencePlace(a, b);
    ClassPlace(a, b);
  }

  /** A report lists its findings in that order: of any two, the earlier one is not to be listed after the later. */
  lemma ListedInOrder(collate: (string, string) -> int, fixes: FixLinks, fs: seq<Finding>, i: nat, j: nat)
    requires Consistent(collate) && i < j < |BuildReport(collate, fixes, fs)|
    ensures NotListedAfter(collate, BuildReport(collate, fixes, fs)[i], BuildReport(collate, fixes, fs)[j])
  {
    hide BuildReport, Consistent, CompareFindings, NotListedAfter;
    ReportListsAll(collate, fixes, fs);
    var r := BuildReport(collate, fixes, fs);
    assert Leq(Comparing(collate))(r[i], r[j]);
    ComparatorMeans(collate, r[i], r[j]);
  }
}
