/** The trend file over whole histories of runs: lines, re-runs, and the balance of new and fixed findings. */
module TrendHistory {
  import opened Prelude
  import opened Severities
  import opened Sorting
  import opened Trends

  function TargetNames(run: Run): set<string> {
    (set f | f in run.findings :: f.target) + (set s | s in run.status :: s.target)
  }

  function LineOf(run: Run, prev: Option<PrevMap>): TrendLine {
    TrendLine(run.runId, TrendsOf(run, prev, TargetNames(run)))
  }

  method BuildTrendLine(run: Run, prev: Option<PrevMap>) returns (line: TrendLine)
    ensures line == LineOf(run, prev)
  {
    hide TrendOf, TargetNames;
    var names := CollectNames(run);
    var todo, targets := names, map[];
    ghost var done: set<string> := {};
    while todo != {}
      invariant done + todo == names && done !! todo
      invariant targets == TrendsOf(run, prev, done)
      decreases todo
    {
      var t :| t in todo;
      var trend := ComputeTargetTrend(t, run, prev);
      OneTrend(run, prev, done, t);
      targets := targets[t := trend];
      todo, done := todo - {t}, done + {t};
    }
    line := TrendLine(run.runId, targets);
  }

  function TrendsOf(run: Run, prev: Option<PrevMap>, names: set<string>): map<string, TargetTrend> {
    map t | t in names :: TrendOf(t, run, prev)
  }

  lemma OneTrend(run: Run, prev: Option<PrevMap>, done: set<string>, t: string)
    ensures TrendsOf(run, prev, done + {t}) == TrendsOf(run, prev, done)[t := TrendOf(t, run, prev)]
  {
    hide TrendOf;
  }

  method CollectNames(run: Run) returns (names: set<string>)
    ensures names == TargetNames(run)
  {
    names := {};
    for i := 0 to |run.findings|
      invariant names == set f | f in run.findings[..i] :: f.target
    {
      names := names + {run.findings[i].target};
    }
    assert run.findings[..|run.findings|] == run.findings;
    for i := 0 to |run.status|
      invariant names == (set f | f in run.findings :: f.target) + (set s | s in run.status[..i] :: s.target)
    {
      names := names + {run.status[i].target};
    }
    assert run.status[..|run.status|] == run.status;
  }

  // ----- writeTrend

  function OtherRuns(lines: seq<TrendLine>, id: string): seq<TrendLine> {
    Filter((l: TrendLine) => l.runId != id, lines)
  }

  function Written(lines: seq<TrendLine>, line: TrendLine): seq<TrendLine> {
    OtherRuns(lines, line.runId) + [line]
  }

  ghost predicate UniqueIds(lines: seq<TrendLine>) {
    forall i, j :: 0 <= i < j < |lines| ==> lines[i].runId != lines[j].runId
  }

  /** The trend file and the stored reports. */
  class Workspace {
    var reports: map<string, Run>
    var lines: seq<TrendLine>

    method WriteTrend(line: TrendLine)
      modifies this`lines
      ensures lines == Written(old(lines), line)
    {
      var updated := [];
      for i := 0 to |lines|
        invariant lines == old(lines) && updated == OtherRuns(lines[..i], line.runId)
      {
        assert lines[..i + 1][..i] == lines[..i];
        if lines[i].runId != line.runId {
          updated := updated + [lines[i]];
        }
      }
      assert lines[..|lines|] == lines;
      lines := updated + [line];
    }

    method BuildPrevFingerprintMap(prevLines: seq<TrendLine>) returns (prev: Option<PrevMap>)
      ensures prev == PrevOf(reports, prevLines)
    {
      if |prevLines| == 0 || prevLines[|prevLines| - 1].runId !in reports {
        return None;
      }
      var m := BuildPrevMap(reports[prevLines[|prevLines| - 1].runId]);
      return Some(m);
    }

    /** The end of a run: store the report, then bring the trend file up to date. */
    method RecordRun(run: Run)
      modifies this
      ensures History(reports, lines) == Recorded(old(History(reports, lines)), run)
    {
      reports := reports[run.runId := run];
      var prev := BuildPrevFingerprintMap(lines);
      var line := BuildTrendLine(run, prev);
      WriteTrend(line);
    }
  }

  function PrevOf(reports: map<string, Run>, prevLines: seq<TrendLine>): Option<PrevMap> {
    if |prevLines| == 0 || prevLines[|prevLines| - 1].runId !in reports then None
    else Some(PrevMapOf(reports[prevLines[|prevLines| - 1].runId]))
  }

  datatype History = History(reports: map<string, Run>, lines: seq<TrendLine>)

  function Recorded(h: History, run: Run): History {
    var reports := h.reports[run.runId := run];
    History(reports, Written(h.lines, LineOf(run, PrevOf(reports, h.lines))))
  }

  function RecordedAll(runs: seq<Run>): History {
    if runs == [] then History(map[], []) else Recorded(RecordedAll(runs[..|runs| - 1]), runs[|runs| - 1])
  }

  /** One line per run id, whatever is written, and the newest last. */
  lemma WriteKeepsUnique(lines: seq<TrendLine>, line: TrendLine)
    requires UniqueIds(lines)
    ensures UniqueIds(Written(lines, line))
    ensures forall l :: l in Written(lines, line) <==> l == line || (l in lines && l.runId != line.runId)
    ensures Written(Written(lines, line), line) == Written(lines, line)
  {
    var keep := (l: TrendLine) => l.runId != line.runId;
    FilterMembers(keep, lines);
    UniqueFiltered(keep, lines);
    var others := OtherRuns(lines, line.runId);
    WriteTwice(lines, line);
    hide Filter, Written, OtherRuns;
    assert Written(lines, line) == others + [line] by {
      WrittenIs(lines, line);
    }
    forall i | 0 <= i < |others|
      ensures others[i].runId != line.runId
    {
      assert others[i] in others;
    }
  }

  lemma WrittenIs(lines: seq<TrendLine>, line: TrendLine)
    ensures Written(lines, line) == OtherRuns(lines, line.runId) + [line]
  {
  }

  lemma WriteTwice(lines: seq<TrendLine>, line: TrendLine)
    ensures Written(Written(lines, line), line) == Written(lines, line)
  {
    var keep := (l: TrendLine) => l.runId != line.runId;
    var others := OtherRuns(lines, line.runId);
    FilterMembers(keep, lines);
    FilterAll(keep, others);
    FilterAppend(keep, others, line);
  }

  lemma {:induction false} UniqueFiltered(keep: TrendLine -> bool, lines: seq<TrendLine>)
    requires UniqueIds(lines)
    ensures UniqueIds(Filter(keep, lines))
  {
    if lines != [] {
      var front := lines[..|lines| - 1];
      UniqueFiltered(keep, front);
      FilterMembers(keep, front);
      var r := Filter(keep, front);
      forall i | 0 <= i < |r|
        ensures r[i].runId != lines[|lines| - 1].runId
      {
        assert r[i] in front;
      }
    }
  }

  // ----- one pair of runs

  /** Every current fingerprint is either new or persisting. */
  lemma CurrentSplits(t: string, run: Run, prev: Option<PrevMap>)
    ensures var trend := TrendOf(t, run, prev);
      trend.newCount + trend.persisting == |Fingerprints(run, t)|
  {
    if prev.Some? {
      var current, all := Fingerprints(run, t), AllPrevious(Row(prev.value, t));
      assert current == (current - all) + (current * all);
    }
  }

  /** What a previous run reports of a family that did not complete this time cannot change the fixed count. */
  lemma FixedIgnoresIncomplete(t: string, run: Run, row: ByFamily, row': ByFamily)
    requires forall family :: family in Completed(run, t) ==> (family in row <==> family in row')
    requires forall family :: family in Completed(run, t) && family in row ==> row[family] == row'[family]
    ensures FixedPairs(row, Completed(run, t), Fingerprints(run, t)) == FixedPairs(row', Completed(run, t), Fingerprints(run, t))
  {
  }

  /** Read back, a stored run yields exactly the fingerprints its completed families found. */
  lemma PreviousIsFingerprints(run: Run, t: string)
    ensures AllPrevious(Row(PrevMapOf(run), t)) == Fingerprints(run, t)
  {
    var row := Row(PrevMapOf(run), t);
    forall fp | fp in Fingerprints(run, t)
      ensures fp in AllPrevious(row)
    {
      var f :| f in run.findings && f.target == t && f.family in Completed(run, t) && f.fingerprint == fp;
      assert f.target in PrevTargets(run) && f.family in row && fp in row[f.family];
    }
  }

  predicate Seen(run: Run, t: string, f: Entry) {
    f in run.findings && f.target == t && f.family in Completed(run, t)
  }

  /** No fingerprint of the target is reported by two completed families. */
  ghost predicate DisjointFamilies(run: Run, t: string) {
    forall f, g :: Seen(run, t, f) && Seen(run, t, g) && f.fingerprint == g.fingerprint ==> f.family == g.family
  }

  ghost predicate OneFamilyEach(row: ByFamily) {
    forall p, q :: p in Pairs(row) && q in Pairs(row) && p.1 == q.1 ==> p == q
  }

  lemma DisjointRow(run: Run, t: string)
    requires DisjointFamilies(run, t)
    ensures OneFamilyEach(Row(PrevMapOf(run), t))
  {
    hide Completed;
  }

  function Untagged(pairs: set<(Family, string)>): set<string> {
    set p | p in pairs :: p.1
  }

  lemma {:induction false} UntaggedSize(pairs: set<(Family, string)>)
    requires forall p, q :: p in pairs && q in pairs && p.1 == q.1 ==> p == q
    ensures |Untagged(pairs)| == |pairs|
  {
    if pairs != {} {
      var p :| p in pairs;
      UntaggedSize(pairs - {p});
      assert Untagged(pairs) == Untagged(pairs - {p}) + {p.1};
    }
  }

  /** Each previous fingerprint is persisting, fixed or lost, and in only one of the three. */
  lemma PreviousSplits(row: ByFamily, completed: set<Family>, current: set<string>)
    requires OneFamilyEach(row)
    ensures |AllPrevious(row)| ==
      |current * AllPrevious(row)| + |FixedPairs(row, completed, current)| + |LostPairs(row, completed, current)|
  {
    var stay := set p | p in Pairs(row) && p.1 in current;
    var fixed, lost := FixedPairs(row, completed, current), LostPairs(row, completed, current);
    PairsSplit(row, completed, current, stay);
    UntaggedSize(Pairs(row));
    UntaggedSize(stay);
    forall fp | fp in AllPrevious(row)
      ensures fp in Untagged(Pairs(row))
    {
      var family :| family in row && fp in row[family];
      assert (family, fp) in Pairs(row);
    }
    assert Untagged(Pairs(row)) == AllPrevious(row);
    assert Untagged(stay) == current * AllPrevious(row);
  }

  lemma PairsSplit(row: ByFamily, completed: set<Family>, current: set<string>, stay: set<(Family, string)>)
    requires stay == set p | p in Pairs(row) && p.1 in current
    ensures |Pairs(row)| == |stay| + |FixedPairs(row, completed, current)| + |LostPairs(row, completed, current)|
  {
    var fixed, lost := FixedPairs(row, completed, current), LostPairs(row, completed, current);
    assert Pairs(row) == stay + fixed + lost;
    assert stay * fixed == {} && (stay + fixed) * lost == {};
  }

  function Lost(t: string, prev: Run, run: Run): nat {
    |LostPairs(Row(PrevMapOf(prev), t), Completed(run, t), Fingerprints(run, t))|
  }

  /** The balance of one run: the stock changes by new minus fixed, up to what was lost from sight. */
  lemma Balance(t: string, prev: Run, run: Run)
    requires DisjointFamilies(prev, t)
    ensures var trend := TrendOf(t, run, Some(PrevMapOf(prev)));
      |Fingerprints(run, t)| + Lost(t, prev, run) == |Fingerprints(prev, t)| + trend.newCount - trend.fixed
  {
    hide AllPrevious, FixedPairs, LostPairs, Fingerprints, Completed, PrevMapOf, SeverityCounts, AllComplete, OneFamilyEach, DisjointFamilies;
    CurrentSplits(t, run, Some(PrevMapOf(prev)));
    DisjointRow(prev, t);
    PreviousIsFingerprints(prev, t);
    PreviousSplits(Row(PrevMapOf(prev), t), Completed(run, t), Fingerprints(run, t));
  }

  // ----- whole histories

  ghost predicate DistinctRuns(runs: seq<Run>) {
    forall i, j :: 0 <= i < j < |runs| ==> runs[i].runId != runs[j].runId
  }

  function PrevRun(runs: seq<Run>, k: nat): Option<PrevMap>
    requires k < |runs|
  {
    if k == 0 then None else Some(PrevMapOf(runs[k - 1]))
  }

  /** The state after recording `runs`: one line per run, each computed against the run before it. */
  ghost predicate Follows(h: History, runs: seq<Run>) {
    && |h.lines| == |runs|
    && (forall k :: 0 <= k < |runs| ==> h.lines[k] == LineOf(runs[k], PrevRun(runs, k)))
    && (forall k :: 0 <= k < |runs| ==> runs[k].runId in h.reports && h.reports[runs[k].runId] == runs[k])
  }

  lemma {:induction false} LinesFollowRuns(runs: seq<Run>)
    requires DistinctRuns(runs)
    ensures Follows(RecordedAll(runs), runs)
  {
    hide Follows, Recorded;
    if runs == [] {
      NoRuns();
    } else {
      LinesFollowRuns(runs[..|runs| - 1]);
      FollowsStep(RecordedAll(runs[..|runs| - 1]), runs);
    }
  }

  lemma FollowsStep(h: History, runs: seq<Run>)
    requires runs != [] && DistinctRuns(runs) && Follows(h, runs[..|runs| - 1])
    ensures Follows(Recorded(h, runs[|runs| - 1]), runs)
  {
    hide LineOf, PrevMapOf, OtherRuns, PrevOf, PrevRun;
    var n, last := |runs| - 1, runs[|runs| - 1];
    LineIds(runs);
    PrevIsLast(h, runs);
    forall k | 0 <= k < n
      ensures PrevRun(runs[..n], k) == PrevRun(runs, k) && h.lines[k].runId == runs[k].runId
    {
      PrevOfPrefix(runs, n, k);
    }
    AppendsLine(h.lines, last.runId);
  }

  lemma PrevOfPrefix(runs: seq<Run>, n: nat, k: nat)
    requires k < n <= |runs|
    ensures PrevRun(runs[..n], k) == PrevRun(runs, k)
  {
  }

  lemma PrevIsLast(h: History, runs: seq<Run>)
    requires runs != [] && DistinctRuns(runs) && Follows(h, runs[..|runs| - 1])
    ensures var last := runs[|runs| - 1]; PrevOf(h.reports[last.runId := last], h.lines) == PrevRun(runs, |runs| - 1)
  {
    hide PrevMapOf;
    var n := |runs| - 1;
    if n > 0 {
      LineIds(runs[..n]);
      assert h.lines[n - 1].runId == runs[n - 1].runId;
    }
  }

  lemma AppendsLine(lines: seq<TrendLine>, id: string)
    requires forall k :: 0 <= k < |lines| ==> lines[k].runId != id
    ensures OtherRuns(lines, id) == lines
  {
    FilterAll((l: TrendLine) => l.runId != id, lines);
  }

  lemma LineIds(runs: seq<Run>)
    ensures forall k :: 0 <= k < |runs| ==> LineOf(runs[k], PrevRun(runs, k)).runId == runs[k].runId
  {
  }

  function At(line: TrendLine, t: string): TargetTrend {
    if t in line.targets then line.targets[t] else TargetTrend(false, 0, 0, 0, Counts(0, 0, 0, 0))
  }

  function Net(lines: seq<TrendLine>, t: string): int {
    if lines == [] then 0
    else Net(lines[..|lines| - 1], t) + At(lines[|lines| - 1], t).newCount - At(lines[|lines| - 1], t).fixed
  }

  function LostSum(runs: seq<Run>, t: string): nat {
    if |runs| < 2 then 0
    else LostSum(runs[..|runs| - 1], t) + Lost(t, runs[|runs| - 2], runs[|runs| - 1])
  }

  function Stock(runs: seq<Run>, t: string): nat {
    if runs == [] then 0 else |Fingerprints(runs[|runs| - 1], t)|
  }

  /** A target a run does not mention counts for nothing in its line. */
  lemma Unmentioned(run: Run, prev: Option<PrevMap>, t: string)
    ensures At(LineOf(run, prev), t).newCount == TrendOf(t, run, prev).newCount
    ensures At(LineOf(run, prev), t).fixed == TrendOf(t, run, prev).fixed
  {
    if t !in TargetNames(run) {
      assert Completed(run, t) == {} && Fingerprints(run, t) == {};
      if prev.Some? {
        assert FixedPairs(Row(prev.value, t), {}, {}) == {};
        assert Fingerprints(run, t) - AllPrevious(Row(prev.value, t)) == {};
      }
    }
  }

  /** Over any history with distinct run ids, all that was ever new minus all that was ever fixed is what the last
      run found, plus exactly what slipped from sight while its family did not complete. */
  lemma {:induction false} Conservation(runs: seq<Run>, t: string)
    requires DistinctRuns(runs) && forall k :: 0 <= k < |runs| ==> DisjointFamilies(runs[k], t)
    ensures Net(RecordedAll(runs).lines, t) == Stock(runs, t) + LostSum(runs, t)
  {
    hide LineOf, PrevMapOf, TrendOf, Fingerprints, Lost, At, DisjointFamilies, RecordedAll;
    if runs == [] {
      NoRuns();
    } else {
      var front, n := runs[..|runs| - 1], |runs| - 1;
      Conservation(front, t);
      LinesFollowRuns(runs);
      LinesFollowRuns(front);
      var lines := RecordedAll(runs).lines;
      assert forall k :: 0 <= k < n ==> PrevRun(front, k) == PrevRun(runs, k);
      assert lines[..n] == RecordedAll(front).lines;
      Unmentioned(runs[n], PrevRun(runs, n), t);
      if n == 0 {
        FirstRun(runs[0], t);
      } else {
        Balance(t, runs[n - 1], runs[n]);
      }
    }
  }

  lemma NoRuns()
    ensures RecordedAll([]).lines == [] && Follows(RecordedAll([]), [])
  {
  }

  lemma FirstRun(run: Run, t: string)
    ensures TrendOf(t, run, None).newCount == |Fingerprints(run, t)| && TrendOf(t, run, None).fixed == 0
  {
  }

  /** When completed families stay completed nothing is lost, and the balance is exact. */
  lemma {:induction false} ExactConservation(runs: seq<Run>, t: string)
    requires DistinctRuns(runs) && forall k :: 0 <= k < |runs| ==> DisjointFamilies(runs[k], t)
    requires forall k :: 0 < k < |runs| ==> Completed(runs[k - 1], t) <= Completed(runs[k], t)
    ensures Net(RecordedAll(runs).lines, t) == Stock(runs, t)
  {
    Conservation(runs, t);
    NothingLost(runs, t);
  }

  lemma {:induction false} NothingLost(runs: seq<Run>, t: string)
    requires forall k :: 0 < k < |runs| ==> Completed(runs[k - 1], t) <= Completed(runs[k], t)
    ensures LostSum(runs, t) == 0
  {
    hide Lost, Completed;
    if |runs| >= 2 {
      NothingLost(runs[..|runs| - 1], t);
      NoneLost(t, runs[|runs| - 2], runs[|runs| - 1]);
    }
  }

  lemma NoneLost(t: string, prev: Run, run: Run)
    requires Completed(prev, t) <= Completed(run, t)
    ensures Lost(t, prev, run) == 0
  {
    var row := Row(PrevMapOf(prev), t);
    assert LostPairs(row, Completed(run, t), Fingerprints(run, t)) == {};
  }

  // ----- a run recorded twice

  lemma AgainstItself(run: Run, t: string)
    ensures var trend := TrendOf(t, run, Some(PrevMapOf(run)));
      trend.newCount == 0 && trend.fixed == 0 && trend.persisting == |Fingerprints(run, t)|
  {
    hide Completed, SeverityCounts, AllComplete;
    PreviousIsFingerprints(run, t);
    var current, row := Fingerprints(run, t), Row(PrevMapOf(run), t);
    assert current - AllPrevious(row) == {} && current * AllPrevious(row) == current;
    forall p | p in Pairs(row)
      ensures p.1 in current
    {
      assert p.1 in AllPrevious(row);
    }
    assert FixedPairs(row, Completed(run, t), current) == {};
  }

  /** The second recording is held against the report the first one stored. */
  lemma SecondRecording(h: History, run: Run)
    ensures Recorded(Recorded(h, run), run).lines == OtherRuns(h.lines, run.runId) + [LineOf(run, Some(PrevMapOf(run)))]
  {
    hide LineOf, PrevMapOf;
    var h1 := Recorded(h, run);
    var keep := (l: TrendLine) => l.runId != run.runId;
    var others, line := OtherRuns(h.lines, run.runId), h1.lines[|h1.lines| - 1];
    LineKeepsId(run, PrevOf(h1.reports, h.lines));
    FilterMembers(keep, h.lines);
    FilterAll(keep, others);
    FilterAppend(keep, others, line);
    assert others + [] == others;
  }

  lemma LineKeepsId(run: Run, prev: Option<PrevMap>)
    ensures LineOf(run, prev).runId == run.runId
    ensures forall p: PrevMap :: LineOf(run, Some(p)).runId == run.runId
  {
  }

  /** Recording the same run again leaves the trend file as it was if and only if the run had nothing new and
      nothing fixed to record; otherwise those counts are overwritten with zeros. */
  lemma RerunIdempotentIff(h: History, run: Run)
    ensures var h1 := Recorded(h, run);
      var prev := PrevOf(h1.reports, h.lines);
      Recorded(h1, run).lines == h1.lines <==>
      forall t :: t in TargetNames(run) ==> TrendOf(t, run, prev).newCount == 0 && TrendOf(t, run, prev).fixed == 0
  {
    hide TrendOf, PrevMapOf, PrevOf, OtherRuns, TargetNames;
    var h1 := Recorded(h, run);
    var prev := PrevOf(h1.reports, h.lines);
    SecondRecording(h, run);
    var others := OtherRuns(h.lines, run.runId);
    var first, second := LineOf(run, prev), LineOf(run, Some(PrevMapOf(run)));
    LastDecides(others, first, second);
    forall t
      ensures TrendOf(t, run, prev) == TrendOf(t, run, Some(PrevMapOf(run))) <==>
        TrendOf(t, run, prev).newCount == 0 && TrendOf(t, run, prev).fixed == 0
    {
      SameTrendIff(t, run, prev);
    }
    if forall t :: t in TargetNames(run) ==> TrendOf(t, run, prev).newCount == 0 && TrendOf(t, run, prev).fixed == 0 {
      assert first.targets == second.targets;
    }
    if first == second {
      forall t | t in TargetNames(run)
        ensures TrendOf(t, run, prev) == TrendOf(t, run, Some(PrevMapOf(run)))
      {
        assert first.targets[t] == second.targets[t];
      }
    }
  }

  /** A run that found anything in a family that completed, recorded twice in a fresh workspace: the new findings
      of its target are counted at first and gone after the second recording. */
  lemma RerunForgets(run: Run, t: string)
    requires Fingerprints(run, t) != {}
    ensures var once := Recorded(History(map[], []), run);
      var twice := Recorded(once, run);
      && once.lines != twice.lines
      && |once.lines| == |twice.lines| == 1
      && At(once.lines[0], t).newCount == |Fingerprints(run, t)| && At(twice.lines[0], t).newCount == 0
  {
    hide SeverityCounts, AllComplete;
    var h := History(map[], []);
    var once := Recorded(h, run);
    assert once.lines == [LineOf(run, None)];
    SecondRecording(h, run);
    AgainstItself(run, t);
    Unmentioned(run, None, t);
    Unmentioned(run, Some(PrevMapOf(run)), t);
    assert |Fingerprints(run, t)| != 0;
  }

  const ONE_FINDING := Run("r1", [Entry("web", Ast, "f1", High)], [ScannerStatus("web", Ast, true)])

  /** Such a run: recorded again, its one new finding is no longer new. */
  lemma RerunChangesTheFile()
    ensures var once := Recorded(History(map[], []), ONE_FINDING);
      var twice := Recorded(once, ONE_FINDING);
      && once.lines != twice.lines
      && At(once.lines[0], "web").newCount == 1 && At(twice.lines[0], "web").newCount == 0
  {
    hide Recorded, At;
    var f := ONE_FINDING.findings[0];
    assert ONE_FINDING.status[0] in ONE_FINDING.status && f in ONE_FINDING.findings;
    assert Fingerprints(ONE_FINDING, "web") == {"f1"};
    RerunForgets(ONE_FINDING, "web");
  }

  lemma LastDecides(front: seq<TrendLine>, a: TrendLine, b: TrendLine)
    ensures front + [b] == front + [a] <==> a == b
  {
    assert (front + [a])[|front|] == a && (front + [b])[|front|] == b;
  }

  lemma SameTrendIff(t: string, run: Run, prev: Option<PrevMap>)
    ensures TrendOf(t, run, prev) == TrendOf(t, run, Some(PrevMapOf(run))) <==>
      TrendOf(t, run, prev).newCount == 0 && TrendOf(t, run, prev).fixed == 0
  {
    hide Completed, SeverityCounts, AllComplete, PrevMapOf, Fingerprints, FixedPairs, AllPrevious;
    AgainstItself(run, t);
    CurrentSplits(t, run, prev);
  }
}
