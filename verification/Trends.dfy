/** Trend lines: what is new, fixed and persisting between two runs (`computeTargetTrend`), and the trend file. */
module Trends {
  import opened Prelude
  import opened Severities

  datatype Family = Ast | Semgrep | Gitleaks | Osv | Zap | Nuclei | Probe

  /** A finding of a run, as far as trends read it. */
  datatype Entry = Entry(target: string, family: Family, fingerprint: string, severity: Severity)

  datatype ScannerStatus = ScannerStatus(target: string, family: Family, complete: bool)

  datatype Run = Run(runId: string, findings: seq<Entry>, status: seq<ScannerStatus>)

  /** Target, then family, then the fingerprints a completed run of that family found. */
  type ByFamily = map<Family, set<string>>

  type PrevMap = map<string, ByFamily>

  datatype Counts = Counts(critical: nat, high: nat, medium: nat, low: nat)

  datatype TargetTrend = TargetTrend(complete: bool, newCount: nat, fixed: nat, persisting: nat, bySeverity: Counts)

  datatype TrendLine = TrendLine(runId: string, targets: map<string, TargetTrend>)

  // ----- what the counts mean

  function Completed(run: Run, t: string): set<Family> {
    set s | s in run.status && s.target == t && s.complete :: s.family
  }

  /** Fingerprints of the target from families that completed. */
  function Fingerprints(run: Run, t: string): set<string> {
    set f | f in run.findings && f.target == t && f.family in Completed(run, t) :: f.fingerprint
  }

  function FamilyFingerprints(run: Run, t: string, family: Family): set<string> {
    set f | f in run.findings && f.target == t && f.family == family :: f.fingerprint
  }

  function PrevTargets(run: Run): set<string> {
    set f | f in run.findings && f.family in Completed(run, f.target) :: f.target
  }

  function PrevFamilies(run: Run, t: string): set<Family> {
    set f | f in run.findings && f.target == t && f.family in Completed(run, t) :: f.family
  }

  function PrevMapOf(run: Run): PrevMap {
    map t | t in PrevTargets(run) :: PrevRow(run, t)
  }

  function PrevRow(run: Run, t: string): ByFamily {
    map family | family in PrevFamilies(run, t) :: FamilyFingerprints(run, t, family)
  }

  function Row(prev: PrevMap, t: string): ByFamily {
    if t in prev then prev[t] else map[]
  }

  /** Every previous fingerprint together with the family it came from. */
  function Pairs(row: ByFamily): set<(Family, string)> {
    set family, fp | family in row && fp in row[family] :: (family, fp)
  }

  function AllPrevious(row: ByFamily): set<string> {
    set family, fp | family in row && fp in row[family] :: fp
  }

  /** Fixed: gone now, and the family it came from did complete this time. */
  function FixedPairs(row: ByFamily, completed: set<Family>, current: set<string>): set<(Family, string)> {
    set p | p in Pairs(row) && p.0 in completed && p.1 !in current
  }

  /** Lost: gone now, but the family it came from did not complete, so nothing can be said. */
  function LostPairs(row: ByFamily, completed: set<Family>, current: set<string>): set<(Family, string)> {
    set p | p in Pairs(row) && p.0 !in completed && p.1 !in current
  }

  function CountSeverity(findings: seq<Entry>, t: string, s: Severity): nat {
    if findings == [] then 0
    else CountSeverity(findings[..|findings| - 1], t, s)
         + if findings[|findings| - 1].target == t && findings[|findings| - 1].severity == s then 1 else 0
  }

  function SeverityCounts(findings: seq<Entry>, t: string): Counts {
    Counts(CountSeverity(findings, t, Critical), CountSeverity(findings, t, High),
           CountSeverity(findings, t, Medium), CountSeverity(findings, t, Low))
  }

  predicate AllComplete(run: Run, t: string) {
    && (exists s :: s in run.status && s.target == t)
    && (forall s :: s in run.status && s.target == t ==> s.complete)
  }

  function TrendOf(t: string, run: Run, prev: Option<PrevMap>): TargetTrend {
    var current := Fingerprints(run, t);
    var counts := SeverityCounts(run.findings, t);
    match prev
    case None => TargetTrend(AllComplete(run, t), |current|, 0, 0, counts)
    case Some(p) =>
      var row := Row(p, t);
      TargetTrend(AllComplete(run, t), |current - AllPrevious(row)|, |FixedPairs(row, Completed(run, t), current)|,
                  |current * AllPrevious(row)|, counts)
  }

  // ----- computeTargetTrend

  method ScanStatus(run: Run, t: string) returns (completed: set<Family>, hasAny: bool, every: bool)
    ensures completed == Completed(run, t)
    ensures hasAny && every <==> AllComplete(run, t)
  {
    completed, hasAny, every := {}, false, true;
    for i := 0 to |run.status|
      invariant completed == set s | s in run.status[..i] && s.target == t && s.complete :: s.family
      invariant hasAny <==> exists s :: s in run.status[..i] && s.target == t
      invariant every <==> forall s :: s in run.status[..i] && s.target == t ==> s.complete
    {
      var s := run.status[i];
      assert run.status[..i + 1] == run.status[..i] + [s];
      if s.target == t {
        hasAny := true;
        if s.complete {
          completed := completed + {s.family};
        } else {
          every := false;
        }
      }
    }
    assert run.status[..|run.status|] == run.status;
  }

  /** The fingerprints of the target among `findings` that come from one of the families. */
  function FromFamilies(findings: seq<Entry>, t: string, families: set<Family>): set<string> {
    set f | f in findings && f.target == t && f.family in families :: f.fingerprint
  }

  function Tally(c: Counts, s: Severity): Counts {
    match s
    case Critical => c.(critical := c.critical + 1)
    case High => c.(high := c.high + 1)
    case Medium => c.(medium := c.medium + 1)
    case Low => c.(low := c.low + 1)
  }

  lemma FromFamiliesStep(findings: seq<Entry>, i: nat, t: string, families: set<Family>)
    requires i < |findings|
    ensures var f := findings[i];
      FromFamilies(findings[..i + 1], t, families) ==
      FromFamilies(findings[..i], t, families) + if f.target == t && f.family in families then {f.fingerprint} else {}
  {
    assert findings[..i + 1] == findings[..i] + [findings[i]];
  }

  lemma CountsStep(findings: seq<Entry>, i: nat, t: string)
    requires i < |findings|
    ensures var f, before := findings[i], SeverityCounts(findings[..i], t);
      SeverityCounts(findings[..i + 1], t) == if f.target == t then Tally(before, f.severity) else before
  {
    assert findings[..i + 1][..i] == findings[..i];
  }

  lemma NoCounts(t: string)
    ensures SeverityCounts([], t) == Counts(0, 0, 0, 0)
  {
  }

  method ScanFindings(run: Run, t: string, completed: set<Family>) returns (current: set<string>, counts: Counts)
    requires completed == Completed(run, t)
    ensures current == Fingerprints(run, t) && counts == SeverityCounts(run.findings, t)
  {
    NoCounts(t);
    hide Completed, SeverityCounts;
    current, counts := {}, Counts(0, 0, 0, 0);
    assert run.findings[..0] == [];
    for i := 0 to |run.findings|
      invariant current == FromFamilies(run.findings[..i], t, completed)
      invariant counts == SeverityCounts(run.findings[..i], t)
    {
      hide FromFamilies;
      var f := run.findings[i];
      FromFamiliesStep(run.findings, i, t, completed);
      CountsStep(run.findings, i, t);
      if f.target == t {
        if f.family in completed {
          current := current + {f.fingerprint};
        }
        match f.severity
        case Critical => counts := counts.(critical := counts.critical + 1);
        case High => counts := counts.(high := counts.high + 1);
        case Medium => counts := counts.(medium := counts.medium + 1);
        case Low => counts := counts.(low := counts.low + 1);
      }
    }
    assert run.findings[..|run.findings|] == run.findings;
  }

  method Flatten(row: ByFamily) returns (all: set<string>)
    ensures all == AllPrevious(row)
  {
    all := {};
    var todo := row.Keys;
    while todo != {}
      invariant todo <= row.Keys
      invariant all == set family, fp | family in row.Keys - todo && fp in row[family] :: fp
      decreases todo
    {
      var family :| family in todo;
      all := all + row[family];
      todo := todo - {family};
    }
  }

  /** One more element taken out of `todo`. */
  lemma OneCounted(current: set<string>, previous: set<string>, todo: set<string>, fp: string)
    requires fp in todo && todo <= current
    ensures var rest := todo - {fp};
      && |(current - rest) * previous| == |(current - todo) * previous| + (if fp in previous then 1 else 0)
      && |(current - rest) - previous| == |(current - todo) - previous| + (if fp in previous then 0 else 1)
  {
    var rest := todo - {fp};
    if fp in previous {
      assert (current - rest) * previous == (current - todo) * previous + {fp};
      assert (current - rest) - previous == (current - todo) - previous;
    } else {
      assert (current - rest) - previous == (current - todo) - previous + {fp};
      assert (current - rest) * previous == (current - todo) * previous;
    }
  }

  lemma AllCounted(current: set<string>, previous: set<string>)
    ensures current - {} == current && |(current - current) - previous| == 0 && |(current - current) * previous| == 0
  {
    assert current - current == {};
  }

  method CountNew(current: set<string>, previous: set<string>) returns (newCount: nat, persisting: nat)
    ensures newCount == |current - previous| && persisting == |current * previous|
  {
    newCount, persisting := 0, 0;
    var todo := current;
    AllCounted(current, previous);
    while todo != {}
      invariant todo <= current
      invariant newCount == |(current - todo) - previous| && persisting == |(current - todo) * previous|
      decreases todo
    {
      var fp :| fp in todo;
      OneCounted(current, previous, todo, fp);
      if fp in previous {
        persisting := persisting + 1;
      } else {
        newCount := newCount + 1;
      }
      todo := todo - {fp};
    }
  }

  function Tagged(family: Family, fps: set<string>): set<(Family, string)> {
    set fp | fp in fps :: (family, fp)
  }

  lemma {:induction false} TaggedSize(family: Family, fps: set<string>)
    ensures |Tagged(family, fps)| == |fps|
  {
    if fps != {} {
      var fp :| fp in fps;
      TaggedSize(family, fps - {fp});
      assert Tagged(family, fps) == Tagged(family, fps - {fp}) + {(family, fp)};
    }
  }

  /** Counting one more family adds its own fingerprints and no others. */
  lemma FixedStep(row: ByFamily, completed: set<Family>, current: set<string>, visited: set<Family>, family: Family)
    requires family in row && family !in visited
    ensures |FixedPairs(row, completed * (visited + {family}), current)| ==
      |FixedPairs(row, completed * visited, current)| + if family in completed then |row[family] - current| else 0
  {
    var before, after := FixedPairs(row, completed * visited, current), FixedPairs(row, completed * (visited + {family}), current);
    if family in completed {
      TaggedSize(family, row[family] - current);
      var more := Tagged(family, row[family] - current);
      assert after == before + more && before * more == {};
    } else {
      assert completed * (visited + {family}) == completed * visited;
    }
  }

  method CountFixed(row: ByFamily, completed: set<Family>, current: set<string>) returns (fixed: nat)
    ensures fixed == |FixedPairs(row, completed, current)|
  {
    fixed := 0;
    var families := row.Keys;
    while families != {}
      invariant families <= row.Keys
      invariant fixed == |FixedPairs(row, completed * (row.Keys - families), current)|
      decreases families
    {
      hide FixedPairs;
      var family :| family in families;
      var rest := families - {family};
      FixedStep(row, completed, current, row.Keys - families, family);
      assert row.Keys - rest == row.Keys - families + {family};
      if family in completed {
        var gone, _ := CountNew(row[family], current);
        fixed := fixed + gone;
      }
      families := rest;
    }
    assert row.Keys - families == row.Keys;
    assert FixedPairs(row, completed * row.Keys, current) == FixedPairs(row, completed, current);
  }

  method ComputeTargetTrend(t: string, run: Run, prev: Option<PrevMap>) returns (trend: TargetTrend)
    ensures trend == TrendOf(t, run, prev)
  {
    var completed, hasAny, every := ScanStatus(run, t);
    var current, counts := ScanFindings(run, t, completed);
    if prev.None? {
      return TargetTrend(hasAny && every, |current|, 0, 0, counts);
    }
    var row := if t in prev.value then prev.value[t] else map[];
    var all := Flatten(row);
    var newCount, persisting := CountNew(current, all);
    var fixed := CountFixed(row, completed, current);
    trend := TargetTrend(hasAny && every, newCount, fixed, persisting, counts);
  }

  // ----- buildPrevFingerprintMap

  function Upto(run: Run, i: nat): Run
    requires i <= |run.findings|
  {
    run.(findings := run.findings[..i])
  }

  method BuildPrevMap(run: Run) returns (m: PrevMap)
    ensures m == PrevMapOf(run)
  {
    hide PrevMapOf, Completed;
    m := map[];
    NoPrev(run);
    for i := 0 to |run.findings|
      invariant m == PrevMapOf(Upto(run, i))
    {
      var f := run.findings[i];
      PrevStep(run, i);
      CompletedIff(run, f.target, f.family);
      if exists s :: s in run.status && s.target == f.target && s.family == f.family && s.complete {
        var row := if f.target in m then m[f.target] else map[];
        var fps := if f.family in row then row[f.family] else {};
        m := m[f.target := row[f.family := fps + {f.fingerprint}]];
      }
    }
    assert Upto(run, |run.findings|) == run;
  }

  lemma NoPrev(run: Run)
    ensures PrevMapOf(Upto(run, 0)) == map[]
  {
  }

  lemma CompletedIff(run: Run, t: string, family: Family)
    ensures family in Completed(run, t) <==> exists s :: s in run.status && s.target == t && s.family == family && s.complete
  {
  }

  lemma PrevStep(run: Run, i: nat)
    requires i < |run.findings|
    ensures var f, m := run.findings[i], PrevMapOf(Upto(run, i));
      var row := Row(m, f.target);
      var fps := if f.family in row then row[f.family] else {};
      PrevMapOf(Upto(run, i + 1)) ==
      if f.family in Completed(run, f.target) then m[f.target := row[f.family := fps + {f.fingerprint}]] else m
  {
    hide Completed, PrevFamilies, FamilyFingerprints, PrevTargets, PrevRow;
    var f, a, b := run.findings[i], Upto(run, i), Upto(run, i + 1);
    TargetStep(run, i);
    NoneYet(a, f.target);
    forall t
      ensures PrevRow(b, t) == if t == f.target && f.family in Completed(run, t) then
        PrevRow(a, t)[f.family := (if f.family in PrevRow(a, t) then PrevRow(a, t)[f.family] else {}) + {f.fingerprint}]
        else PrevRow(a, t)
    {
      PrevRowStep(run, i, t);
    }
  }

  lemma PrevRowStep(run: Run, i: nat, t: string)
    requires i < |run.findings|
    ensures var f, row := run.findings[i], PrevRow(Upto(run, i), t);
      PrevRow(Upto(run, i + 1), t) == if t == f.target && f.family in Completed(run, t) then
        row[f.family := (if f.family in row then row[f.family] else {}) + {f.fingerprint}]
        else row
  {
    hide Completed, PrevFamilies, FamilyFingerprints;
    var f, a, b := run.findings[i], Upto(run, i), Upto(run, i + 1);
    RowStep(run, i);
    TargetStep(run, i);
    NoneFound(a, t, f.family);
    assert PrevFamilies(b, t) == if f.target == t && f.family in Completed(run, t) then PrevFamilies(a, t) + {f.family} else PrevFamilies(a, t);
    forall family | family in PrevFamilies(b, t)
      ensures FamilyFingerprints(b, t, family) ==
        if f.target == t && f.family == family then FamilyFingerprints(a, t, family) + {f.fingerprint}
        else FamilyFingerprints(a, t, family)
    {
    }
    var row := PrevRow(a, t);
    if t == f.target && f.family in Completed(run, t) {
      assert PrevRow(b, t) == row[f.family := (if f.family in row then row[f.family] else {}) + {f.fingerprint}];
    } else {
      assert PrevRow(b, t).Keys == row.Keys;
      assert PrevRow(b, t) == row;
    }
  }

  lemma NoneFound(a: Run, t: string, family: Family)
    ensures family in Completed(a, t) && family !in PrevFamilies(a, t) ==> FamilyFingerprints(a, t, family) == {}
    ensures PrevFamilies(a, t) <= Completed(a, t)
  {
  }

  lemma NoneYet(a: Run, t: string)
    ensures t !in PrevTargets(a) ==> PrevRow(a, t) == map[]
  {
    if t !in PrevTargets(a) {
      assert PrevFamilies(a, t) == {};
    }
  }

  lemma TargetStep(run: Run, i: nat)
    requires i < |run.findings|
    ensures var f := run.findings[i];
      PrevTargets(Upto(run, i + 1)) == PrevTargets(Upto(run, i)) + if f.family in Completed(run, f.target) then {f.target} else {}
    ensures forall t :: Completed(Upto(run, i), t) == Completed(run, t)
  {
    var f, a, b := run.findings[i], Upto(run, i), Upto(run, i + 1);
    assert b.findings == a.findings + [f];
    assert forall t :: Completed(a, t) == Completed(run, t) && Completed(b, t) == Completed(run, t);
  }

  lemma RowStep(run: Run, i: nat)
    requires i < |run.findings|
    ensures var f, a, b := run.findings[i], Upto(run, i), Upto(run, i + 1);
      forall t, family :: FamilyFingerprints(b, t, family) ==
        if f.target == t && f.family == family then FamilyFingerprints(a, t, family) + {f.fingerprint}
        else FamilyFingerprints(a, t, family)
    ensures var f, a, b := run.findings[i], Upto(run, i), Upto(run, i + 1);
      forall t :: PrevFamilies(b, t) ==
        if f.target == t && f.family in Completed(run, t) then PrevFamilies(a, t) + {f.family} else PrevFamilies(a, t)
  {
    var f, a, b := run.findings[i], Upto(run, i), Upto(run, i + 1);
    assert b.findings == a.findings + [f];
    assert forall t :: Completed(a, t) == Completed(run, t) && Completed(b, t) == Completed(run, t);
  }
}
