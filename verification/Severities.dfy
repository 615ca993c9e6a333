/** Findings, and the severity a finding ends up with (`computeSeverity`). */
module Severities {

  datatype Severity = Low | Medium | High | Critical

  datatype Confidence = Confirmed | Probable | Tentative

  datatype Reachability = Unauthenticated | Authenticated | Admin | UnknownReach

  datatype VulnClass =
    | Injection | AuthAccessControl | TenantIsolation | Secrets | DependencyCve | Misconfiguration
    | Xss | Csrf | OpenRedirect | InfoDisclosure | Tls | SessionManagement

  /** Where a finding was made: a route symbol of a repository, or a request to a staging host. */
  datatype Place = Static(name: string, symbol: string) | Live(host: string, url: string, httpMethod: string)

  datatype Finding = Finding(
    id: string,
    fingerprint: string,
    ruleId: string,
    vulnClass: VulnClass,
    severity: Severity,
    baseSeverity: Severity,
    confidence: Confidence,
    reachability: Reachability,
    correlatedWith: seq<string>,
    externalRefs: seq<string>,
    place: Place)

  const SEVERITY_SCALE: seq<Severity> := [Low, Medium, High, Critical]

  function Rank(s: Severity): (r: int)
    ensures 0 <= r <= 3
  {
    match s
    case Low => 0
    case Medium => 1
    case High => 2
    case Critical => 3
  }

  function Clamp(n: int): (r: int)
    ensures 0 <= r <= 3
  {
    if n < 0 then 0 else if n > 3 then 3 else n
  }

  function Step(s: Severity, delta: int): (r: Severity)
    ensures Rank(r) == Clamp(Rank(s) + delta)
  {
    SEVERITY_SCALE[Clamp(Rank(s) + delta)]
  }

  predicate Floored(v: VulnClass) {
    v == Secrets || v == Injection || v == TenantIsolation
  }

  /** One up or down for reachability. */
  function Reached(raised: int, reach: Reachability): (r: int)
    ensures 0 <= r <= 3
  {
    if reach == Unauthenticated then Clamp(raised + 1)
    else if reach == Admin then Clamp(Clamp(raised) - 1)
    else Clamp(raised)
  }

  function AtLeastFloor(vuln: VulnClass, reached: int): int {
    if Floored(vuln) && reached < 2 then 2 else reached
  }

  /** The whole chain on ranks at once: one up for live confirmation, then reachability, and for floored classes
      never below high. */
  function FinalRank(base: Severity, reach: Reachability, vuln: VulnClass, liveConfirmed: bool): (r: int)
    ensures 0 <= r <= 3
  {
    AtLeastFloor(vuln, Reached(Rank(base) + if liveConfirmed then 1 else 0, reach))
  }

  function FinalSeverity(f: Finding, liveConfirmed: bool): (s: Severity)
    ensures Rank(s) == FinalRank(f.baseSeverity, f.reachability, f.vulnClass, liveConfirmed)
  {
    SEVERITY_SCALE[FinalRank(f.baseSeverity, f.reachability, f.vulnClass, liveConfirmed)]
  }

  /** The steps of the chain on ranks. */
  lemma Raises(base: Severity)
    ensures Rank(base) == Clamp(Rank(base)) && Rank(Step(base, 1)) == Clamp(Rank(base) + 1)
  {
  }

  lemma Adjusts(s: Severity, raised: int, reach: Reachability)
    requires raised >= 0 && Rank(s) == Clamp(raised)
    ensures Reached(raised, reach) ==
      if reach == Unauthenticated then Rank(Step(s, 1)) else if reach == Admin then Rank(Step(s, -1)) else Rank(s)
  {
    hide Step;
  }

  method ComputeSeverity(base: Severity, reach: Reachability, vuln: VulnClass, confidence: Confidence, liveConfirmed: bool)
    returns (severity: Severity, confidence': Confidence)
    ensures Rank(severity) == FinalRank(base, reach, vuln, liveConfirmed)
    ensures confidence' == if liveConfirmed then Confirmed else confidence
  {
    hide Step, Floored, Clamp, Reached;
    severity, confidence' := base, confidence;
    Raises(base);
    if liveConfirmed {
      severity := Step(severity, 1);
      confidence' := Confirmed;
    }
    Adjusts(severity, Rank(base) + if liveConfirmed then 1 else 0, reach);
    if reach == Unauthenticated {
      severity := Step(severity, 1);
    }
    if reach == Admin {
      severity := Step(severity, -1);
    }
    if Floored(vuln) {
      if Rank(severity) < Rank(High) {
        severity := High;
      }
    }
  }

  lemma ReachedOrder(m: int, n: int, reach: Reachability)
    requires m <= n
    ensures Reached(m, reach) <= Reached(n, reach)
    ensures Reached(m, reach) <= Reached(m + 1, reach) <= Reached(m, reach) + 1
  {
  }

  /** A worse base never gives a milder result; live confirmation raises it by at most one step and never
      lowers it; floored classes are at least high. */
  lemma SeverityOrder(a: Severity, b: Severity, reach: Reachability, vuln: VulnClass, live: bool)
    requires Rank(a) <= Rank(b)
    ensures FinalRank(a, reach, vuln, live) <= FinalRank(b, reach, vuln, live)
    ensures FinalRank(a, reach, vuln, false) <= FinalRank(a, reach, vuln, true) <= FinalRank(a, reach, vuln, false) + 1
    ensures Floored(vuln) ==> FinalRank(a, reach, vuln, live) >= Rank(High)
  {
    hide Reached, AtLeastFloor, Floored;
    var up := if live then 1 else 0;
    ReachedOrder(Rank(a) + up, Rank(b) + up, reach);
    FloorOrder(vuln, Reached(Rank(a) + up, reach), Reached(Rank(b) + up, reach));
    ReachedOrder(Rank(a), Rank(a), reach);
    FloorOrder(vuln, Reached(Rank(a), reach), Reached(Rank(a) + 1, reach));
  }

  lemma FloorOrder(vuln: VulnClass, m: int, n: int)
    requires m <= n
    ensures AtLeastFloor(vuln, m) <= AtLeastFloor(vuln, n)
    ensures n <= m + 1 ==> AtLeastFloor(vuln, n) <= AtLeastFloor(vuln, m) + 1
    ensures Floored(vuln) ==> AtLeastFloor(vuln, m) >= Rank(High)
  {
    hide Floored;
  }
}
