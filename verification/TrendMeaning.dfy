/** Trend lines in plain terms: which findings are counted as new, persisting and fixed, over any history of runs. */
module TrendMeaning {
  import opened Prelude
  import opened Severities
  import opened Sorting
  import opened Trends
  import opened TrendHistory

  // ----- what a run found

  /** Some scanner of the family is recorded as complete for the target. */
  predicate Finished(run: Run, t: string, family: Family) {
    ScannerStatus(t, family, true) in run.status
  }

  /** What a family found on a target. */
  function FoundBy(run: Run, t: string): set<(Family, string)> {
    set f | f in run.findings && f.target == t && Finished(run, t, f.family) :: (f.family, f.fingerprint)
  }

  /** What finished families found on a target. */
  function Found(run: Run, t: string): set<string> {
    set p | p in FoundBy(run, t) :: p.1
  }

  /** Found then by a family that finished both times, and not found now. */
  function Gone(before: Run, run: Run, t: string): set<(Family, string)> {
    set p | p in FoundBy(before, t) && Finished(run, t, p.0) && p.1 !in Found(run, t)
  }

  /** The places of the target's findings of one severity. */
  function PlacesOf(findings: seq<Entry>, t: string, s: Severity): set<nat> {
    set i: nat | i < |findings| && findings[i].target == t && findings[i].severity == s
  }

  /** Every scanner recorded for the target is complete, and there is one. */
  predicate NothingMissing(run: Run, t: string) {
    && (exists i :: 0 <= i < |run.status| && run.status[i].target == t)
    && (forall i :: 0 <= i < |run.status| && run.status[i].target == t ==> run.status[i].complete)
  }

  lemma CompletedIsFinished(run: Run, t: string)
    ensures forall family :: family in Completed(run, t) <==> Finished(run, t, family)
  {
    forall family
      ensures family in Completed(run, t) <==> Finished(run, t, family)
    {
      if s :| s in run.status && s.target == t && s.complete && s.family == family {
        assert s == ScannerStatus(t, family, true);
      }
      if Finished(run, t, family) {
        assert ScannerStatus(t, family, true).complete;
      }
    }
  }

  lemma FingerprintsAreFound(run: Run, t: string)
    ensures Fingerprints(run, t) == Found(run, t)
  {
    hide Completed, Finished;
    CompletedIsFinished(run, t);
    forall fp | fp in Fingerprints(run, t)
      ensures fp in Found(run, t)
    {
      var f :| f in run.findings && f.target == t && f.family in Completed(run, t) && f.fingerprint == fp;
      assert (f.family, fp) in FoundBy(run, t);
    }
  }

  lemma PairsAreFoundBy(run: Run, t: string)
    ensures Pairs(Row(PrevMapOf(run), t)) == FoundBy(run, t)
  {
    hide Completed, Finished;
    CompletedIsFinished(run, t);
    var row := Row(PrevMapOf(run), t);
    forall p | p in FoundBy(run, t)
      ensures p in Pairs(row)
    {
      var f :| f in run.findings && f.target == t && Finished(run, t, f.family) && p == (f.family, f.fingerprint);
      assert f.target in PrevTargets(run) && f.family in row && p.1 in row[f.family];
    }
    forall p | p in Pairs(row)
      ensures p in FoundBy(run, t)
    {
      assert p.1 in FamilyFingerprints(run, t, p.0) && p.0 in PrevFamilies(run, t);
    }
  }

  lemma {:induction false} CountIsPlaces(findings: seq<Entry>, t: string, s: Severity)
    ensures CountSeverity(findings, t, s) == |PlacesOf(findings, t, s)|
  {
    if findings == [] {
      assert PlacesOf(findings, t, s) == {};
    } else {
      CountIsPlaces(findings[..|findings| - 1], t, s);
      OnePlace(findings, t, s);
    }
  }

  lemma OnePlace(findings: seq<Entry>, t: string, s: Severity)
    requires findings != []
    ensures var n := |findings| - 1; var before := PlacesOf(findings[..n], t, s);
      PlacesOf(findings, t, s) == (if findings[n].target == t && findings[n].severity == s then before + {n} else before) && n !in before
  {
  }

  /** What a trend says whatever the run before: whether anything is missing, and the findings by severity, those of
      families that did not finish included. */
  lemma StatusAndSeverities(t: string, run: Run, prev: Option<PrevMap>)
    ensures var trend := TrendOf(t, run, prev);
      && (trend.complete <==> NothingMissing(run, t))
      && trend.bySeverity.critical == |PlacesOf(run.findings, t, Critical)|
      && trend.bySeverity.high == |PlacesOf(run.findings, t, High)|
      && trend.bySeverity.medium == |PlacesOf(run.findings, t, Medium)|
      && trend.bySeverity.low == |PlacesOf(run.findings, t, Low)|
  {
    hide CountSeverity, PlacesOf, Fingerprints, FixedPairs, AllPrevious, Completed;
    CountIsPlaces(run.findings, t, Critical);
    CountIsPlaces(run.findings, t, High);
    CountIsPlaces(run.findings, t, Medium);
    CountIsPlaces(run.findings, t, Low);
    CompleteMeans(run, t);
  }

  lemma CompleteMeans(run: Run, t: string)
    ensures AllComplete(run, t) <==> NothingMissing(run, t)
  {
    if s :| s in run.status && s.target == t {
      var i :| 0 <= i < |run.status| && run.status[i] == s;
    }
  }

  /** The first run: everything finished families found is new. */
  lemma FirstRunMeans(t: string, run: Run)
    ensures var trend := TrendOf(t, run, None); trend.newCount == |Found(run, t)| && trend.persisting == 0 && trend.fixed == 0
  {
    FingerprintsAreFound(run, t);
  }

  /** Against a run before: new is what finished families found now and not then, persisting what they found both
      times, fixed what is gone; nothing else is counted. */
  lemma TrendMeans(t: string, run: Run, before: Run)
    ensures var trend := TrendOf(t, run, Some(PrevMapOf(before)));
      && trend.newCount == |Found(run, t) - Found(before, t)|
      && trend.persisting == |Found(run, t) * Found(before, t)|
      && trend.fixed == |Gone(before, run, t)|
  {
    hide PrevMapOf, Completed, Found, FoundBy, Fingerprints, Finished, AllPrevious, Pairs, SeverityCounts, AllComplete;
    FingerprintsAreFound(run, t);
    FingerprintsAreFound(before, t);
    PreviousIsFingerprints(before, t);
    PairsAreFoundBy(before, t);
    CompletedIsFinished(run, t);
    assert FixedPairs(Row(PrevMapOf(before), t), Completed(run, t), Fingerprints(run, t)) == Gone(before, run, t);
  }

  /** A line has one trend for every target that a finding or a scanner of the run names, and no other. */
  lemma LineMeans(run: Run, prev: Option<PrevMap>)
    ensures var line := LineOf(run, prev);
      && line.runId == run.runId
      && (forall t :: t in line.targets <==>
            || (exists i :: 0 <= i < |run.findings| && run.findings[i].target == t)
            || (exists i :: 0 <= i < |run.status| && run.status[i].target == t))
      && forall t :: t in line.targets ==> line.targets[t] == TrendOf(t, run, prev)
  {
    hide TrendOf;
    forall t
      ensures t in LineOf(run, prev).targets <==>
        || (exists i :: 0 <= i < |run.findings| && run.findings[i].target == t)
        || (exists i :: 0 <= i < |run.status| && run.status[i].target == t)
    {
      if f :| f in run.findings && f.target == t {
        var i :| 0 <= i < |run.findings| && run.findings[i] == f;
      }
      if s :| s in run.status && s.target == t {
        var i :| 0 <= i < |run.status| && run.status[i] == s;
      }
    }
  }

  /** A whole history of runs with ids of their own: the trend file has a line for each in order, and line `k` counts,
      for every target run `k` names, what it found against what run `k - 1` found. */
  lemma HistoryMeans(runs: seq<Run>, k: nat, t: string)
    requires DistinctRuns(runs) && k < |runs|
    ensures var lines := RecordedAll(runs).lines;
      && |lines| == |runs| && lines[k].runId == runs[k].runId
      && (t in lines[k].targets ==>
            && (lines[k].targets[t].complete <==> NothingMissing(runs[k], t))
            && lines[k].targets[t].newCount == (if k == 0 then |Found(runs[k], t)| else |Found(runs[k], t) - Found(runs[k - 1], t)|)
            && lines[k].targets[t].persisting == (if k == 0 then 0 else |Found(runs[k], t) * Found(runs[k - 1], t)|)
            && lines[k].targets[t].fixed == (if k == 0 then 0 else |Gone(runs[k - 1], runs[k], t)|))
  {
    hide LineOf, TrendOf, PrevMapOf, RecordedAll, Found, Gone, NothingMissing, DistinctRuns;
    LinesFollowRuns(runs);
    LineMeans(runs[k], PrevRun(runs, k));
    StatusAndSeverities(t, runs[k], PrevRun(runs, k));
    if k == 0 {
      FirstRunMeans(t, runs[k]);
    } else {
      TrendMeans(t, runs[k], runs[k - 1]);
    }
  }
}
