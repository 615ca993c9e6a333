/** The apply loop itself (`applyFindings`): a coordinator that edits files in place, keeps its
    lists and audit log as it goes, and is proved to do what `ApplySpec.Run` says. */
module Coordinators {
  import opened Prelude
  import opened Sorting
  import opened TextEdits
  import opened AnchorApply
  import opened ApplySpec
  import opened ApplyProperties

  datatype Deferral = Deferral(finding: Finding, conflictingId: string)

  function Findings(ds: seq<Deferral>): seq<Finding> {
    if ds == [] then [] else Findings(ds[..|ds| - 1]) + [ds[|ds| - 1].finding]
  }

  /** The file owners after keeping `keep`: for each listed file, a kept finding that lists it. */
  ghost predicate Owners(keep: seq<Finding>, seen: map<string, string>) {
    && (forall p :: p in seen <==> exists k :: k in keep && p in k.affectedFiles)
    && (forall p :: p in seen ==> exists k :: k in keep && p in k.affectedFiles && k.id == seen[p])
  }

  /** The kept finding a deferred one collides with owns the first of its files that is taken. */
  ghost predicate Blames(keep: seq<Finding>, d: Deferral) {
    exists k, i :: k in keep && 0 <= i < |d.finding.affectedFiles| && d.finding.affectedFiles[i] in k.affectedFiles
                   && k.id == d.conflictingId
                   && forall j, m :: 0 <= j < i && m in keep ==> d.finding.affectedFiles[j] !in m.affectedFiles
  }

  /** The verdict on the `n`-th finding, judged by the findings kept before it. */
  ghost predicate BlamedAt(findings: seq<Finding>, n: nat, d: Deferral)
    requires n < |findings|
  {
    findings[n] == d.finding && Blames(Kept(findings[..n]), d)
  }

  lemma BlameHolds(findings: seq<Finding>, n: nat, d: Deferral)
    requires n < |findings| && findings[n] == d.finding && Blames(Kept(findings[..n]), d)
    ensures BlamedAt(findings, n, d)
  {
  }

  method FirstTaken(seen: map<string, string>, files: seq<string>) returns (conflict: Option<string>, ghost at: nat)
    ensures conflict.None? ==> forall j :: 0 <= j < |files| ==> files[j] !in seen
    ensures conflict.Some? ==> at < |files| && files[at] in seen && conflict.value == seen[files[at]]
    ensures conflict.Some? ==> forall j :: 0 <= j < at ==> files[j] !in seen
  {
    for i := 0 to |files|
      invariant forall j :: 0 <= j < i ==> files[j] !in seen
    {
      if files[i] in seen {
        return Some(seen[files[i]]), i;
      }
    }
    return None, 0;
  }

  method TakeFiles(seen: map<string, string>, f: Finding) returns (now: map<string, string>)
    ensures forall p :: p in now <==> p in seen || p in f.affectedFiles
    ensures forall p :: p in now ==> now[p] == if p in f.affectedFiles then f.id else seen[p]
  {
    now := seen;
    for i := 0 to |f.affectedFiles|
      invariant forall p :: p in now <==> p in seen || p in f.affectedFiles[..i]
      invariant forall p :: p in now ==> now[p] == if p in f.affectedFiles[..i] then f.id else seen[p]
    {
      now := now[f.affectedFiles[i] := f.id];
      assert f.affectedFiles[..i + 1] == f.affectedFiles[..i] + [f.affectedFiles[i]];
    }
    assert f.affectedFiles[..|f.affectedFiles|] == f.affectedFiles;
  }

  lemma KeptStep(findings: seq<Finding>, n: nat)
    requires n < |findings|
    ensures var keep, f := Kept(findings[..n]), findings[n];
      && Kept(findings[..n + 1]) == (if exists k :: k in keep && SharesFile(k, f) then keep else keep + [f])
      && Overlapping(findings[..n + 1]) ==
         if exists k :: k in keep && SharesFile(k, f) then Overlapping(findings[..n]) + [f] else Overlapping(findings[..n])
  {
    hide SharesFile;
    assert findings[..n + 1][..n] == findings[..n] && findings[..n + 1][n] == findings[n];
  }

  lemma FindingsSnoc(ds: seq<Deferral>, d: Deferral)
    ensures Findings(ds + [d]) == Findings(ds) + [d.finding]
  {
    assert (ds + [d])[..|ds|] == ds;
  }

  ghost predicate AllBlamed(findings: seq<Finding>, n: nat, deferred: seq<Deferral>)
    requires n <= |findings|
  {
    forall d :: d in deferred ==> exists i :: 0 <= i < n && BlamedAt(findings, i, d)
  }

  lemma BlamedLater(findings: seq<Finding>, n: nat, deferred: seq<Deferral>)
    requires n < |findings| && AllBlamed(findings, n, deferred)
    ensures AllBlamed(findings, n + 1, deferred)
  {
    hide BlamedAt;
  }

  lemma BlamedSnoc(findings: seq<Finding>, n: nat, deferred: seq<Deferral>, d: Deferral)
    requires n < |findings| && AllBlamed(findings, n, deferred) && BlamedAt(findings, n, d)
    ensures AllBlamed(findings, n + 1, deferred + [d])
  {
    hide BlamedAt;
  }

  /** What the loop has established before the `n`-th finding. */
  ghost predicate Detected(findings: seq<Finding>, n: nat, keep: seq<Finding>, deferred: seq<Deferral>)
    requires n <= |findings|
  {
    && keep == Kept(findings[..n]) && Findings(deferred) == Overlapping(findings[..n])
    && AllBlamed(findings, n, deferred)
  }

  lemma Defers(findings: seq<Finding>, n: nat, keep: seq<Finding>, deferred: seq<Deferral>, d: Deferral)
    requires n < |findings| && Detected(findings, n, keep, deferred)
    requires d.finding == findings[n] && Blames(keep, d) && exists k :: k in keep && SharesFile(k, findings[n])
    ensures Detected(findings, n + 1, keep, deferred + [d])
  {
    KeptStep(findings, n);
    BlameHolds(findings, n, d);
    BlamedSnoc(findings, n, deferred, d);
    FindingsSnoc(deferred, d);
    hide Blames, BlamedAt, AllBlamed, Kept, Overlapping, Findings, SharesFile;
  }

  lemma Keeps(findings: seq<Finding>, n: nat, keep: seq<Finding>, deferred: seq<Deferral>)
    requires n < |findings| && Detected(findings, n, keep, deferred)
    requires !exists k :: k in keep && SharesFile(k, findings[n])
    ensures Detected(findings, n + 1, keep + [findings[n]], deferred)
  {
    KeptStep(findings, n);
    BlamedLater(findings, n, deferred);
    hide BlamedAt, AllBlamed, Kept, Overlapping, Findings, SharesFile;
  }

  lemma DetectedAll(findings: seq<Finding>, keep: seq<Finding>, deferred: seq<Deferral>)
    requires Detected(findings, |findings|, keep, deferred)
    ensures keep == Kept(findings) && Findings(deferred) == Overlapping(findings)
    ensures forall d :: d in deferred ==> exists n :: 0 <= n < |findings| && BlamedAt(findings, n, d)
  {
    hide BlamedAt, Kept, Overlapping, Findings;
    assert findings[..|findings|] == findings;
  }

  lemma NothingDetected(findings: seq<Finding>)
    ensures Detected(findings, 0, [], []) && Owners([], map[])
  {
    assert findings[..0] == [];
  }

  method DetectOverlaps(findings: seq<Finding>) returns (keep: seq<Finding>, deferred: seq<Deferral>)
    ensures keep == Kept(findings) && Findings(deferred) == Overlapping(findings)
    ensures forall d :: d in deferred ==> exists n :: 0 <= n < |findings| && BlamedAt(findings, n, d)
  {
    hide Detected, Owners, BlamedAt, Blames, SharesFile;
    keep, deferred := [], [];
    var seenFiles: map<string, string> := map[];
    NothingDetected(findings);
    for n := 0 to |findings|
      invariant Detected(findings, n, keep, deferred) && Owners(keep, seenFiles)
    {
      var finding := findings[n];
      var conflict, at := FirstTaken(seenFiles, finding.affectedFiles);
      TakenMeans(keep, seenFiles, finding, conflict, at);
      if conflict.Some? {
        var d := Deferral(finding, conflict.value);
        Defers(findings, n, keep, deferred, d);
        deferred := deferred + [d];
      } else {
        Keeps(findings, n, keep, deferred);
        seenFiles := OwnAll(keep, seenFiles, finding);
        keep := keep + [finding];
      }
    }
    DetectedAll(findings, keep, deferred);
  }

  method OwnAll(keep: seq<Finding>, seen: map<string, string>, f: Finding) returns (now: map<string, string>)
    requires Owners(keep, seen)
    ensures Owners(keep + [f], now)
  {
    now := TakeFiles(seen, f);
    assert forall k :: k in keep + [f] <==> k in keep || k == f;
    forall p | p in now
      ensures exists k :: k in keep + [f] && p in k.affectedFiles && k.id == now[p]
    {
      if p in f.affectedFiles {
        assert f in keep + [f];
      } else {
        var k :| k in keep && p in k.affectedFiles && k.id == seen[p];
        assert k in keep + [f];
      }
    }
  }

  lemma TakenMeans(keep: seq<Finding>, seen: map<string, string>, f: Finding, conflict: Option<string>, at: nat)
    requires Owners(keep, seen)
    requires conflict.None? ==> forall j :: 0 <= j < |f.affectedFiles| ==> f.affectedFiles[j] !in seen
    requires conflict.Some? ==> at < |f.affectedFiles| && f.affectedFiles[at] in seen && conflict.value == seen[f.affectedFiles[at]]
    requires conflict.Some? ==> forall j :: 0 <= j < at ==> f.affectedFiles[j] !in seen
    ensures conflict.Some? <==> exists k :: k in keep && SharesFile(k, f)
    ensures conflict.Some? ==> Blames(keep, Deferral(f, conflict.value))
  {
    if conflict.Some? {
      var p := f.affectedFiles[at];
      var k :| k in keep && p in k.affectedFiles && k.id == seen[p];
      assert p in f.affectedFiles && SharesFile(k, f);
      var d := Deferral(f, conflict.value);
      forall j, m | 0 <= j < at && m in keep
        ensures d.finding.affectedFiles[j] !in m.affectedFiles
      {
        assert f.affectedFiles[j] !in seen;
      }
      assert Blames(keep, d) by {
        assert d.finding.affectedFiles[at] in k.affectedFiles;
      }
    }
  }

  class Coordinator {
    const env: Env
    var files: Files
    var applied: seq<Finding>
    var surfaced: seq<Finding>
    var audit: seq<Entry>
    var verifyCalls: nat
    var checkCalls: nat
    var commits: seq<Commit>

    function View(): State
      reads this
    {
      State(files, applied, surfaced, audit, verifyCalls, checkCalls, commits)
    }

    constructor (env: Env, files: Files)
      ensures this.env == env
      ensures View() == State(files, [], [], [], 0, 0, [])
    {
      this.env, this.files := env, files;
      applied, surfaced, audit, commits := [], [], [], [];
      verifyCalls, checkCalls := 0, 0;
    }

    method LogAndSurface(f: Finding, decision: Decision, reason: Option<Reason>, outcome: Outcome, production: bool)
      modifies this
      ensures View() == Surface(old(View()), f, decision, reason, outcome, production)
    {
      audit := audit + [Entry(f.id, decision, reason, outcome, production)];
      surfaced := surfaced + [f];
    }

    method LogAndApply(f: Finding, decision: Decision)
      modifies this
      ensures View() == Accept(old(View()), f, decision)
    {
      audit := audit + [Entry(f.id, decision, None, Passed, false)];
      applied := applied + [f];
    }

    method RunVerify() returns (ok: bool)
      modifies this`verifyCalls
      ensures ok == env.verify(old(verifyCalls), files) && verifyCalls == old(verifyCalls) + 1
    {
      ok := env.verify(verifyCalls, files);
      verifyCalls := verifyCalls + 1;
    }

    method RunAcceptanceCheck(check: string) returns (ok: bool)
      modifies this`checkCalls
      ensures ok == env.accept(old(checkCalls), check, files) && checkCalls == old(checkCalls) + 1
    {
      ok := env.accept(checkCalls, check, files);
      checkCalls := checkCalls + 1;
    }

    method GateFinding(finding: Finding) returns (passed: bool)
      modifies this
      ensures View() == GateOne(env, old(View()), finding) && passed == Eligible(env, finding)
    {
      passed := false;
      if finding.inlineApplied {
        if env.production(finding.acceptanceCheck) {
          LogAndSurface(finding, OverriddenToSurface, Some(InlineApplyVerificationFailed), Deferred, true);
          return;
        }
        var ok := RunAcceptanceCheck(finding.acceptanceCheck);
        if ok {
          LogAndApply(finding, AlreadyAppliedByReviewer);
        } else {
          LogAndSurface(finding, OverriddenToSurface, Some(InlineApplyVerificationFailed), Failed, false);
        }
        return;
      }
      var gate := FourKeyGate(env, finding);
      if gate.Some? {
        if gate.value == Suppressed {
          LogAndSurface(finding, SuppressedAdvisory, gate, Deferred, false);
        } else {
          LogAndSurface(finding, OverriddenToSurface, gate, Deferred, false);
        }
        return;
      }
      if env.production(finding.acceptanceCheck) {
        LogAndSurface(finding, OverriddenToSurface, None, Deferred, true);
        return;
      }
      passed := true;
    }

    method GateFindings(findings: seq<Finding>) returns (eligible: seq<Finding>)
      modifies this
      ensures View() == GateAll(env, old(View()), findings)
      ensures eligible == Filter((f: Finding) => Eligible(env, f), findings)
    {
      hide GateOne, Eligible;
      ghost var keep := (f: Finding) => Eligible(env, f);
      eligible := [];
      assert findings[..0] == [];
      for n := 0 to |findings|
        invariant View() == GateAll(env, old(View()), findings[..n])
        invariant eligible == Filter(keep, findings[..n])
      {
        assert findings[..n + 1][..n] == findings[..n] && findings[..n + 1][n] == findings[n];
        var passed := GateFinding(findings[n]);
        if passed {
          eligible := eligible + [findings[n]];
        }
      }
      assert findings[..|findings|] == findings;
    }

    method CheckManifest(eligible: seq<Finding>) returns (withFiles: seq<Finding>)
      modifies this
      ensures View() == SurfaceAll(old(View()), Filter((f: Finding) => !HasFiles(f), eligible), MissingAffectedFiles)
      ensures withFiles == Filter(HasFiles, eligible)
    {
      hide Surface;
      ghost var lacking := (f: Finding) => !HasFiles(f);
      withFiles := [];
      assert eligible[..0] == [];
      for n := 0 to |eligible|
        invariant View() == SurfaceAll(old(View()), Filter(lacking, eligible[..n]), MissingAffectedFiles)
        invariant withFiles == Filter(HasFiles, eligible[..n])
      {
        assert eligible[..n + 1][..n] == eligible[..n] && eligible[..n + 1][n] == eligible[n];
        if |eligible[n].affectedFiles| == 0 {
          SurfaceAllSnoc(old(View()), Filter(lacking, eligible[..n]), eligible[n], MissingAffectedFiles);
          LogAndSurface(eligible[n], OverriddenToSurface, Some(MissingAffectedFiles), Deferred, false);
        } else {
          assert Filter(lacking, eligible[..n + 1]) == Filter(lacking, eligible[..n]);
          withFiles := withFiles + [eligible[n]];
        }
      }
      assert eligible[..|eligible|] == eligible;
    }

    method SurfaceEach(fs: seq<Finding>, reason: Reason)
      modifies this
      ensures View() == SurfaceAll(old(View()), fs, reason)
    {
      hide Surface;
      assert fs[..0] == [];
      for n := 0 to |fs|
        invariant View() == SurfaceAll(old(View()), fs[..n], reason)
      {
        assert fs[..n + 1][..n] == fs[..n] && fs[..n + 1][n] == fs[n];
        LogAndSurface(fs[n], OverriddenToSurface, Some(reason), Deferred, false);
      }
      assert fs[..|fs|] == fs;
    }

    method SnapshotFiles(paths: seq<Path>) returns (snaps: seq<Snapshot>)
      ensures snaps == Snap(files, paths)
    {
      snaps := [];
      assert paths[..0] == [];
      for n := 0 to |paths|
        invariant snaps == Snap(files, paths[..n])
      {
        assert paths[..n + 1][..n] == paths[..n] && paths[..n + 1][n] == paths[n];
        snaps := snaps + [Snapshot(paths[n], if paths[n] in files then Some(files[paths[n]]) else None)];
      }
      assert paths[..|paths|] == paths;
    }

    method RestoreSnapshots(snaps: seq<Snapshot>)
      modifies this`files
      ensures files == Restored(old(files), snaps)
    {
      assert snaps[..0] == [];
      for n := 0 to |snaps|
        invariant files == Restored(old(files), snaps[..n])
      {
        assert snaps[..n + 1][..n] == snaps[..n] && snaps[..n + 1][n] == snaps[n];
        if snaps[n].original.Some? {
          files := files[snaps[n].path := snaps[n].original.value];
        }
      }
      assert snaps[..|snaps|] == snaps;
    }

    /** Validate every edit against the files as they are, then write them all; or write nothing. */
    method ApplyAnchorEdits(edits: seq<Edit>) returns (refusal: Option<ApplyError>)
      modifies this`files
      ensures refusal == FirstRefusal(env, old(files), edits)
      ensures files == if refusal.Some? then old(files) else Written(env, old(files), edits)
    {
      var pending: seq<(Path, string)> := [];
      assert edits[..0] == [];
      for n := 0 to |edits|
        invariant files == old(files)
        invariant FirstRefusal(env, files, edits[..n]).None? && |pending| == n
        invariant forall k :: 0 <= k < n ==> pending[k] == (env.resolve(edits[k].file), NewContent(env, files, edits[k]))
      {
        var edit := edits[n];
        assert edits[..n + 1][..n] == edits[..n] && edits[..n + 1][n] == edit;
        var path := env.resolve(edit.file);
        if !env.inside(path) || path !in files {
          Refused(edits, n);
          return Some(AnchorNotFound);
        }
        var count := CountOccurrences(files[path], edit.anchor);
        if count == 0 {
          Refused(edits, n);
          return Some(AnchorNotFound);
        }
        if count > 1 {
          Refused(edits, n);
          return Some(AnchorNotUnique);
        }
        pending := pending + [(path, Replace(files[path], edit.anchor, edit.replacement))];
      }
      assert edits[..|edits|] == edits;
      WritePending(edits, pending);
      return None;
    }

    lemma Refused(edits: seq<Edit>, n: nat)
      requires n < |edits| && FirstRefusal(env, files, edits[..n]).None? && Refusal(env, files, edits[n]).Some?
      ensures FirstRefusal(env, files, edits) == Refusal(env, files, edits[n])
    {
      FirstRefusalIs(env, files, edits, n);
    }

    method ResolveAffected(listed: seq<string>) returns (paths: seq<Path>)
      ensures paths == AffectedPaths(env, listed)
    {
      paths := [];
      assert listed[..0] == [];
      for n := 0 to |listed|
        invariant paths == AffectedPaths(env, listed[..n])
      {
        assert listed[..n + 1][..n] == listed[..n] && listed[..n + 1][n] == listed[n];
        var path := env.resolve(listed[n]);
        if env.inside(path) {
          paths := paths + [path];
        }
      }
      assert listed[..|listed|] == listed;
    }

    /** Step 5 for one finding; the snapshot is returned when it succeeds. */
    method TryFinding(finding: Finding, ghost before: Batch) returns (ok: bool, snaps: seq<Snapshot>)
      requires before.s == View()
      modifies this
      ensures var after := ApplyOne(env, before, finding);
        && View() == after.s
        && after.success == (if ok then before.success + [finding] else before.success)
        && after.snaps == (if ok then before.snaps + [snaps] else before.snaps)
    {
      hide Surface, Snap, Restored, Written, FirstRefusal, AffectedPaths;
      ok := false;
      var paths := ResolveAffected(finding.affectedFiles);
      snaps := SnapshotFiles(paths);
      var refusal := ApplyAnchorEdits(finding.edits);
      if refusal.Some? {
        LogAndSurface(finding, AutoApplyFailed, Some(AnchorRefused(refusal.value)), Failed, false);
        return;
      }
      var verified := RunVerify();
      if !verified {
        RestoreSnapshots(snaps);
        LogAndSurface(finding, AutoApplyFailed, Some(ApplyFailed), Failed, false);
        return;
      }
      var accepted := RunAcceptanceCheck(finding.acceptanceCheck);
      if !accepted {
        RestoreSnapshots(snaps);
        LogAndSurface(finding, AutoApplyFailed, Some(ApplyFailed), Failed, false);
        return;
      }
      ok := true;
    }

    method ApplyEach(batch: seq<Finding>) returns (success: seq<Finding>, snapshots: map<Finding, seq<Snapshot>>)
      requires Distinct(batch)
      modifies this
      ensures var b := ApplyBatch(env, old(View()), batch);
        && View() == b.s && success == b.success && Records(b, snapshots)
      ensures Distinct(success)
    {
      hide ApplyOne, ApplyBatch;
      success, snapshots := [], map[];
      NothingApplied(env, View(), batch);
      for n := 0 to |batch|
        invariant View() == ApplyBatch(env, old(View()), batch[..n]).s
        invariant success == ApplyBatch(env, old(View()), batch[..n]).success
        invariant Records(ApplyBatch(env, old(View()), batch[..n]), snapshots)
        invariant Distinct(success) && forall f :: f in success ==> f in batch[..n]
      {
        ghost var before := ApplyBatch(env, old(View()), batch[..n]);
        BatchStep(env, old(View()), batch, n);
        assert batch[n] !in batch[..n] && batch[..n + 1] == batch[..n] + [batch[n]];
        var ok, snaps := TryFinding(batch[n], before);
        if ok {
          success := success + [batch[n]];
          snapshots := snapshots[batch[n] := snaps];
        }
      }
      assert batch[..|batch|] == batch;
    }

    /** Take back the last applied finding and verify again. */
    method UndoLast(finding: Finding, snapshots: map<Finding, seq<Snapshot>>, ghost b: Batch) returns (ok: bool, ghost rest: Batch)
      requires b.s == View() && Records(b, snapshots) && b.success != [] && finding == b.success[|b.success| - 1]
      modifies this
      ensures rest == Batch(View(), b.success[..|b.success| - 1], b.snaps[..|b.success| - 1])
      ensures WalkBack(env, b) == if ok then rest else WalkBack(env, rest)
    {
      hide Surface, WalkBack, Restored;
      WalkBackStep(env, b);
      if finding in snapshots {
        RestoreSnapshots(snapshots[finding]);
      }
      ok := RunVerify();
      LogAndSurface(finding, CumulativeVerifyFailed, Some(CumulativeFailed), Failed, false);
      rest := Batch(View(), b.success[..|b.success| - 1], b.snaps[..|b.success| - 1]);
    }

    /** The cumulative verification, walking back from the last applied finding while it fails. */
    method Reverify(success: seq<Finding>, snapshots: map<Finding, seq<Snapshot>>, ghost b: Batch) returns (survivors: seq<Finding>)
      requires b.s == View() && b.success == success && Records(b, snapshots) && Distinct(success)
      modifies this
      ensures View() == Settle(env, b).s && survivors == Settle(env, b).success
    {
      hide WalkBack;
      survivors := success;
      if |survivors| > 0 {
        var ok := RunVerify();
        ghost var now := b.(s := View());
        assert Settle(env, b) == if ok then now else WalkBack(env, now);
        while !ok && |survivors| > 0
          invariant now.s == View() && now.success == survivors && Records(now, snapshots)
          invariant ok ==> Settle(env, b) == now
          invariant !ok ==> Settle(env, b) == WalkBack(env, now)
          decreases |survivors|, !ok
        {
          hide Settle;
          ok, now := UndoLast(survivors[|survivors| - 1], snapshots, now);
          survivors := survivors[..|survivors| - 1];
        }
        if |survivors| == 0 {
          NothingLeft(env, now);
        }
      }
    }

    method ApplyFindings(findings: seq<Finding>, batchLimit: nat)
      modifies this
      ensures View() == Run(env, old(View()), findings, batchLimit)
    {
      hide GateAll, SurfaceAll, Kept, Overlapping, ApplyBatch, Settle, AcceptAll, Filter;
      var eligible := GateFindings(findings);
      var withFiles := CheckManifest(eligible);
      var keep, overlapDeferred := DetectOverlaps(withFiles);
      var deferred := FindingsOf(overlapDeferred);
      SurfaceEach(deferred, OverlappingPatchSurface);
      var batch := if |keep| <= batchLimit then keep else keep[..batchLimit];
      var overflow := if |keep| <= batchLimit then [] else keep[batchLimit..];
      SurfaceEach(overflow, AutoApplyBatchLimit);
      assert View() == FrontEnd(env, old(View()), findings, batchLimit);
      KeptDistinct(eligible, withFiles, keep);
      ghost var start := View();
      var success, snapshots := ApplyEach(batch);
      var survivors := Reverify(success, snapshots, ApplyBatch(env, start, batch));
      Complete(survivors, Settle(env, Tried(env, old(View()), findings, batchLimit)));
    }

    method FindingsOf(ds: seq<Deferral>) returns (fs: seq<Finding>)
      ensures fs == Findings(ds)
    {
      fs := Findings(ds);
    }

    method Complete(survivors: seq<Finding>, ghost b: Batch)
      requires b.s == View() && b.success == survivors
      modifies this
      ensures View() == Finish(env, b)
    {
      hide Accept;
      assert survivors[..0] == [];
      for n := 0 to |survivors|
        invariant View() == AcceptAll(b.s, survivors[..n])
      {
        assert survivors[..n + 1][..n] == survivors[..n] && survivors[..n + 1][n] == survivors[n];
        LogAndApply(survivors[n], Applied);
      }
      assert survivors[..|survivors|] == survivors;
      if |survivors| > 0 && env.commitWorks {
        commits := commits + [Commit(files, survivors)];
      }
    }

    method WritePending(edits: seq<Edit>, pending: seq<(Path, string)>)
      requires |pending| == |edits|
      requires forall k :: 0 <= k < |edits| ==> pending[k] == (env.resolve(edits[k].file), NewContent(env, files, edits[k]))
      modifies this`files
      ensures files == Written(env, old(files), edits)
    {
      hide NewContent;
      assert edits[..0] == [];
      for n := 0 to |pending|
        invariant files == Written(env, old(files), edits[..n])
      {
        assert edits[..n + 1][..n] == edits[..n] && edits[..n + 1][n] == edits[n];
        files := files[pending[n].0 := pending[n].1];
      }
      assert edits[..|edits|] == edits;
    }
  }

  /** One turn of the walk-back. */
  lemma WalkBackStep(env: Env, b: Batch)
    requires |b.success| == |b.snaps| && b.success != []
    ensures var n := |b.success| - 1;
      var files := Restored(b.s.files, b.snaps[n]);
      var s := Surface(b.s.(files := files, verifyCalls := b.s.verifyCalls + 1),
                       b.success[n], CumulativeVerifyFailed, Some(CumulativeFailed), Failed, false);
      var rest := Batch(s, b.success[..n], b.snaps[..n]);
      WalkBack(env, b) == if env.verify(b.s.verifyCalls, files) then rest else WalkBack(env, rest)
  {
    hide Surface;
  }

  lemma NothingApplied(env: Env, s: State, batch: seq<Finding>)
    ensures ApplyBatch(env, s, batch[..0]) == Batch(s, [], [])
  {
  }

  lemma BatchStep(env: Env, s: State, batch: seq<Finding>, n: nat)
    requires n < |batch|
    ensures ApplyBatch(env, s, batch[..n + 1]) == ApplyOne(env, ApplyBatch(env, s, batch[..n]), batch[n])
  {
    hide ApplyOne;
    assert batch[..n + 1][..n] == batch[..n] && batch[..n + 1][n] == batch[n];
  }

  /** The snapshot table holds, for each applied finding, the snapshot taken before it. */
  lemma NothingLeft(env: Env, b: Batch)
    requires |b.success| == |b.snaps| == 0
    ensures WalkBack(env, b) == b
  {
  }

  ghost predicate Records(b: Batch, snapshots: map<Finding, seq<Snapshot>>) {
    |b.success| == |b.snaps|
    && forall i :: 0 <= i < |b.success| ==> b.success[i] in snapshots && snapshots[b.success[i]] == b.snaps[i]
  }

  /** Kept findings list at least one file and share none, so no two of them are equal. */
  lemma KeptDistinct(eligible: seq<Finding>, withFiles: seq<Finding>, keep: seq<Finding>)
    requires withFiles == Filter(HasFiles, eligible) && keep == Kept(withFiles)
    ensures Distinct(keep)
    ensures forall n :: 0 <= n <= |keep| ==> Distinct(keep[..n])
  {
    hide Kept, SharesFile;
    FilterMembers(HasFiles, eligible);
    KeptIsMaximal(withFiles);
    KeptMembers(withFiles);
    forall i, j | 0 <= i < j < |keep|
      ensures keep[i] != keep[j]
    {
      assert keep[i] in keep;
      SharesItself(keep[i]);
    }
  }

  lemma SharesItself(f: Finding)
    requires HasFiles(f)
    ensures SharesFile(f, f)
  {
    assert f.affectedFiles[0] in f.affectedFiles;
  }

  lemma {:induction false} KeptMembers(fs: seq<Finding>)
    ensures forall f :: f in Kept(fs) ==> f in fs
  {
    hide SharesFile;
    if fs != [] {
      KeptMembers(fs[..|fs| - 1]);
    }
  }

  lemma SurfaceAllSnoc(s: State, fs: seq<Finding>, f: Finding, reason: Reason)
    ensures SurfaceAll(s, fs + [f], reason) ==
      Surface(SurfaceAll(s, fs, reason), f, OverriddenToSurface, Some(reason), Deferred, false)
  {
    assert (fs + [f])[..|fs|] == fs;
  }

  lemma {:induction false} FirstRefusalIs(env: Env, files: Files, edits: seq<Edit>, n: nat)
    requires n < |edits| && FirstRefusal(env, files, edits[..n]).None? && Refusal(env, files, edits[n]).Some?
    ensures FirstRefusal(env, files, edits) == Refusal(env, files, edits[n])
    decreases |edits|
  {
    hide Refusal;
    if n < |edits| - 1 {
      assert edits[..|edits| - 1][..n] == edits[..n];
      FirstRefusalIs(env, files, edits[..|edits| - 1], n);
    } else {
      assert edits[..n] == edits[..|edits| - 1];
    }
  }
}
