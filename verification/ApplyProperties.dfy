/** What every apply run guarantees: nothing lost, nothing stray on disk, nothing committed unverified. */
module ApplyProperties {
  import opened Prelude
  import opened Sorting
  import opened AnchorApply
  import opened ApplySpec

  // ----- conservation

  predicate Keeps(d: Decision) {
    d == Applied || d == AlreadyAppliedByReviewer
  }

  function FindingIds(fs: seq<Finding>): seq<string> {
    if fs == [] then [] else FindingIds(fs[..|fs| - 1]) + [fs[|fs| - 1].id]
  }

  /** The ids of the audit entries that keep a finding, or of those that surface one. */
  function LoggedIds(audit: seq<Entry>, keeps: bool): seq<string> {
    if audit == [] then []
    else
      var e := audit[|audit| - 1];
      LoggedIds(audit[..|audit| - 1], keeps) + if Keeps(e.decision) == keeps then [e.findingId] else []
  }

  ghost function Held(s: State): multiset<Finding> {
    multiset(s.applied) + multiset(s.surfaced)
  }

  /** The audit log has one entry per finding decided so far, in order, and it agrees with the outcome. */
  ghost predicate Ledger(s: State) {
    && LoggedIds(s.audit, true) == FindingIds(s.applied)
    && LoggedIds(s.audit, false) == FindingIds(s.surfaced)
  }

  lemma SurfaceKeeps(s: State, f: Finding, decision: Decision, reason: Option<Reason>, outcome: Outcome, production: bool)
    requires Ledger(s) && !Keeps(decision)
    ensures var t := Surface(s, f, decision, reason, outcome, production);
      Ledger(t) && Held(t) == Held(s) + multiset{f} && t.files == s.files && t.commits == s.commits
      && t.verifyCalls == s.verifyCalls && t.checkCalls == s.checkCalls && t.applied == s.applied
  {
    var t := Surface(s, f, decision, reason, outcome, production);
    assert t.surfaced[..|s.surfaced|] == s.surfaced && t.audit[..|s.audit|] == s.audit;
  }

  lemma AcceptKeeps(s: State, f: Finding, decision: Decision)
    requires Ledger(s) && Keeps(decision)
    ensures var t := Accept(s, f, decision);
      Ledger(t) && Held(t) == Held(s) + multiset{f} && t.files == s.files && t.commits == s.commits
      && t.verifyCalls == s.verifyCalls && t.checkCalls == s.checkCalls && t.applied == s.applied + [f]
  {
    var t := Accept(s, f, decision);
    assert t.applied[..|s.applied|] == s.applied && t.audit[..|s.audit|] == s.audit;
  }

  lemma GateOneKeeps(env: Env, s: State, f: Finding)
    requires Ledger(s)
    ensures var t := GateOne(env, s, f);
      Ledger(t) && t.files == s.files && t.commits == s.commits
      && t.verifyCalls == s.verifyCalls && t.checkCalls >= s.checkCalls
      && Held(t) == Held(s) + if Eligible(env, f) then multiset{} else multiset{f}
  {
    hide Ledger, Surface, Accept, Held;
    var asked := s.(checkCalls := s.checkCalls + 1);
    AskedLedger(s, asked);
    if f.inlineApplied {
      if env.production(f.acceptanceCheck) {
        SurfaceKeeps(s, f, OverriddenToSurface, Some(InlineApplyVerificationFailed), Deferred, true);
      } else if env.accept(s.checkCalls, f.acceptanceCheck, s.files) {
        AcceptKeeps(asked, f, AlreadyAppliedByReviewer);
      } else {
        SurfaceKeeps(asked, f, OverriddenToSurface, Some(InlineApplyVerificationFailed), Failed, false);
      }
    } else {
      var gate := FourKeyGate(env, f);
      if gate == Some(Suppressed) {
        SurfaceKeeps(s, f, SuppressedAdvisory, gate, Deferred, false);
      } else if gate.Some? {
        SurfaceKeeps(s, f, OverriddenToSurface, gate, Deferred, false);
      } else if env.production(f.acceptanceCheck) {
        SurfaceKeeps(s, f, OverriddenToSurface, None, Deferred, true);
      }
    }
  }

  lemma AskedLedger(s: State, t: State)
    requires t.applied == s.applied && t.surfaced == s.surfaced && t.audit == s.audit
    ensures Ledger(s) == Ledger(t) && Held(s) == Held(t)
  {
  }

  lemma {:induction false} GateAllKeeps(env: Env, s: State, fs: seq<Finding>)
    requires Ledger(s)
    ensures var t := GateAll(env, s, fs);
      Ledger(t) && t.files == s.files && t.commits == s.commits
      && t.verifyCalls == s.verifyCalls && t.checkCalls >= s.checkCalls
      && Held(t) + multiset(Filter((f: Finding) => Eligible(env, f), fs)) == Held(s) + multiset(fs)
  {
    hide Ledger, Held, GateOne, Eligible;
    if fs != [] {
      var keep := (f: Finding) => Eligible(env, f);
      assert fs == fs[..|fs| - 1] + [fs[|fs| - 1]];
      assert multiset(Filter(keep, fs)) ==
        multiset(Filter(keep, fs[..|fs| - 1])) + if Eligible(env, fs[|fs| - 1]) then multiset{fs[|fs| - 1]} else multiset{};
      GateAllKeeps(env, s, fs[..|fs| - 1]);
      var before := GateAll(env, s, fs[..|fs| - 1]);
      GateOneKeeps(env, before, fs[|fs| - 1]);
      SumMultisets(Held(before), multiset(Filter(keep, fs[..|fs| - 1])), Held(s), multiset(fs[..|fs| - 1]),
                   fs[|fs| - 1], Eligible(env, fs[|fs| - 1]));
    }
  }

  lemma SumMultisets(a: multiset<Finding>, b: multiset<Finding>, c: multiset<Finding>, d: multiset<Finding>, x: Finding, left: bool)
    requires a + b == c + d
    ensures (a + if left then multiset{} else multiset{x}) + (b + if left then multiset{x} else multiset{}) == c + (d + multiset{x})
  {
    forall y: Finding
      ensures a[y] + b[y] == c[y] + d[y]
    {
      assert (a + b)[y] == (c + d)[y];
    }
  }

  lemma {:induction false} SurfaceAllKeeps(s: State, fs: seq<Finding>, reason: Reason)
    requires Ledger(s)
    ensures var t := SurfaceAll(s, fs, reason);
      Ledger(t) && Held(t) == Held(s) + multiset(fs) && t.files == s.files && t.commits == s.commits
      && t.verifyCalls == s.verifyCalls && t.checkCalls == s.checkCalls && t.applied == s.applied
  {
    hide Ledger, Held, Surface;
    if fs != [] {
      assert fs == fs[..|fs| - 1] + [fs[|fs| - 1]];
      SurfaceAllKeeps(s, fs[..|fs| - 1], reason);
      SurfaceKeeps(SurfaceAll(s, fs[..|fs| - 1], reason), fs[|fs| - 1], OverriddenToSurface, Some(reason), Deferred, false);
    }
  }

  lemma {:induction false} KeptPartition(fs: seq<Finding>)
    ensures multiset(Kept(fs)) + multiset(Overlapping(fs)) == multiset(fs)
  {
    hide SharesFile;
    if fs != [] {
      assert fs == fs[..|fs| - 1] + [fs[|fs| - 1]];
      KeptPartition(fs[..|fs| - 1]);
    }
  }

  /** The findings still in play share no file, and each one left out shares a file with one of them. */
  lemma {:induction false} KeptIsMaximal(fs: seq<Finding>)
    ensures forall i, j :: 0 <= i < j < |Kept(fs)| ==> !SharesFile(Kept(fs)[i], Kept(fs)[j])
    ensures forall f :: f in Overlapping(fs) ==> exists k :: k in Kept(fs) && SharesFile(k, f)
  {
    hide SharesFile;
    if fs != [] {
      KeptIsMaximal(fs[..|fs| - 1]);
      var before := Kept(fs[..|fs| - 1]);
      assert forall k :: k in before ==> k in Kept(fs);
    }
  }

  /** The front end decides every finding it does not hand to the batch. */
  lemma FrontEndKeeps(env: Env, s: State, findings: seq<Finding>, limit: nat)
    requires Ledger(s)
    ensures var t := FrontEnd(env, s, findings, limit);
      Ledger(t) && t.files == s.files && t.commits == s.commits
      && t.verifyCalls == s.verifyCalls && t.checkCalls >= s.checkCalls
      && Held(t) + multiset(BatchOf(env, findings, limit)) == Held(s) + multiset(findings)
  {
    hide Ledger, Held, Surface, Eligible, Kept, Overlapping, Filter, HasFiles;
    var gated := GateAll(env, s, findings);
    var eligible := Filter((f: Finding) => Eligible(env, f), findings);
    var without := Filter((f: Finding) => !HasFiles(f), eligible);
    var manifested := SurfaceAll(gated, without, MissingAffectedFiles);
    var overlapping := Overlapping(Manifest(env, findings));
    var overlapped := SurfaceAll(manifested, overlapping, OverlappingPatchSurface);
    GateAllKeeps(env, s, findings);
    SurfaceAllKeeps(gated, without, MissingAffectedFiles);
    SurfaceAllKeeps(manifested, overlapping, OverlappingPatchSurface);
    SurfaceAllKeeps(overlapped, OverflowOf(env, findings, limit), AutoApplyBatchLimit);
    FilterPartition(HasFiles, (f: Finding) => !HasFiles(f), eligible);
    KeptPartition(Manifest(env, findings));
    BatchAndOverflow(env, findings, limit);
  }

  lemma BatchAndOverflow(env: Env, findings: seq<Finding>, limit: nat)
    ensures multiset(BatchOf(env, findings, limit)) + multiset(OverflowOf(env, findings, limit)) == multiset(Kept(Manifest(env, findings)))
    ensures |BatchOf(env, findings, limit)| <= limit
    ensures BatchOf(env, findings, limit) <= Kept(Manifest(env, findings))
  {
    var keep := Kept(Manifest(env, findings));
    if |keep| > limit {
      assert keep == keep[..limit] + keep[limit..];
    }
  }

  lemma ApplyOneKeeps(env: Env, b: Batch, f: Finding)
    requires Ledger(b.s)
    ensures var c := ApplyOne(env, b, f);
      Ledger(c.s) && c.s.commits == b.s.commits && c.s.applied == b.s.applied
      && Held(c.s) + multiset(c.success) == Held(b.s) + multiset(b.success) + multiset{f}
  {
    hide Surface, FirstRefusal, Written, Restored, Snap, Ledger, Held;
    var s := b.s;
    var snaps := Snap(s.files, AffectedPaths(env, f.affectedFiles));
    var refusal := FirstRefusal(env, s.files, f.edits);
    if refusal.Some? {
      SurfaceKeeps(s, f, AutoApplyFailed, Some(AnchorRefused(refusal.value)), Failed, false);
    } else {
      var written := s.(files := Written(env, s.files, f.edits), verifyCalls := s.verifyCalls + 1);
      var undone := written.(files := Restored(written.files, snaps));
      var checked := written.(checkCalls := s.checkCalls + 1);
      var undone' := checked.(files := Restored(checked.files, snaps));
      AskedLedger(s, undone);
      AskedLedger(s, undone');
      AskedLedger(s, checked);
      SurfaceKeeps(undone, f, AutoApplyFailed, Some(ApplyFailed), Failed, false);
      SurfaceKeeps(undone', f, AutoApplyFailed, Some(ApplyFailed), Failed, false);
    }
  }

  lemma {:induction false} ApplyBatchKeeps(env: Env, s: State, fs: seq<Finding>)
    requires Ledger(s)
    ensures var b := ApplyBatch(env, s, fs);
      Ledger(b.s) && b.s.commits == s.commits && b.s.applied == s.applied
      && Held(b.s) + multiset(b.success) == Held(s) + multiset(fs)
  {
    hide Ledger, Held, ApplyOne;
    if fs != [] {
      assert fs == fs[..|fs| - 1] + [fs[|fs| - 1]];
      ApplyBatchKeeps(env, s, fs[..|fs| - 1]);
      ApplyOneKeeps(env, ApplyBatch(env, s, fs[..|fs| - 1]), fs[|fs| - 1]);
    }
  }

  lemma {:induction false} WalkBackKeeps(env: Env, b: Batch)
    requires Ledger(b.s) && |b.success| == |b.snaps|
    ensures var c := WalkBack(env, b);
      Ledger(c.s) && c.s.commits == b.s.commits && c.s.applied == b.s.applied && c.success <= b.success
      && Held(c.s) + multiset(c.success) == Held(b.s) + multiset(b.success)
    decreases |b.success|
  {
    hide Ledger, Held, Surface, Restored;
    if b.success != [] {
      var n := |b.success| - 1;
      assert b.success == b.success[..n] + [b.success[n]];
      var undone := b.s.(files := Restored(b.s.files, b.snaps[n]), verifyCalls := b.s.verifyCalls + 1);
      AskedLedger(b.s, undone);
      SurfaceKeeps(undone, b.success[n], CumulativeVerifyFailed, Some(CumulativeFailed), Failed, false);
      var s := Surface(undone, b.success[n], CumulativeVerifyFailed, Some(CumulativeFailed), Failed, false);
      var rest := Batch(s, b.success[..n], b.snaps[..n]);
      if !env.verify(b.s.verifyCalls, undone.files) {
        WalkBackKeeps(env, rest);
      }
    }
  }

  lemma SettleKeeps(env: Env, b: Batch)
    requires Ledger(b.s) && |b.success| == |b.snaps|
    ensures var c := Settle(env, b);
      Ledger(c.s) && c.s.commits == b.s.commits && c.s.applied == b.s.applied && c.success <= b.success
      && Held(c.s) + multiset(c.success) == Held(b.s) + multiset(b.success)
  {
    hide Ledger, Held, WalkBack;
    var asked := b.(s := b.s.(verifyCalls := b.s.verifyCalls + 1));
    AskedLedger(b.s, asked.s);
    WalkBackKeeps(env, asked);
  }

  lemma {:induction false} AcceptAllKeeps(s: State, fs: seq<Finding>)
    requires Ledger(s)
    ensures var t := AcceptAll(s, fs);
      Ledger(t) && Held(t) == Held(s) + multiset(fs) && t.files == s.files && t.commits == s.commits
      && t.verifyCalls == s.verifyCalls && t.checkCalls == s.checkCalls && t.applied == s.applied + fs
  {
    hide Ledger, Held, Accept;
    if fs != [] {
      assert fs == fs[..|fs| - 1] + [fs[|fs| - 1]];
      AcceptAllKeeps(s, fs[..|fs| - 1]);
      AcceptKeeps(AcceptAll(s, fs[..|fs| - 1]), fs[|fs| - 1], Applied);
    }
  }

  /** Conservation: a run decides every finding exactly once, keeping it or surfacing it,
      with exactly one audit entry of the matching kind. */
  lemma RunConserves(env: Env, s: State, findings: seq<Finding>, limit: nat)
    requires Ledger(s)
    ensures Held(Run(env, s, findings, limit)) == Held(s) + multiset(findings)
    ensures Ledger(Run(env, s, findings, limit))
  {
    hide Ledger, Held, FrontEnd, BatchOf, Settle, ApplyBatch, AcceptAll;
    var start := FrontEnd(env, s, findings, limit);
    FrontEndKeeps(env, s, findings, limit);
    ApplyBatchKeeps(env, start, BatchOf(env, findings, limit));
    var b := Tried(env, s, findings, limit);
    SettleKeeps(env, b);
    var c := Settle(env, b);
    AcceptAllKeeps(c.s, c.success);
    AskedLedger(AcceptAll(c.s, c.success), Run(env, s, findings, limit));
  }

  // ----- the file map

  /** The batch so far, seen from the file map it started with: the files carry exactly the successful
      findings' edits, each snapshot is of the map before its finding, and each finding's map was verified. */
  ghost predicate Clean(env: Env, since: State, b: Batch) {
    && |b.success| == |b.snaps|
    && since.verifyCalls <= b.s.verifyCalls && since.checkCalls <= b.s.checkCalls
    && b.s.files == AppliedAll(env, since.files, b.success)
    && forall i :: 0 <= i < |b.success| ==> CleanAt(env, since, b, i)
  }

  ghost predicate CleanAt(env: Env, since: State, b: Batch, i: nat)
    requires i < |b.success| == |b.snaps|
  {
    var f, before, after := b.success[i], AppliedAll(env, since.files, b.success[..i]), AppliedAll(env, since.files, b.success[..i + 1]);
    && Covered(env, f) && FirstRefusal(env, before, f.edits).None?
    && b.snaps[i] == Snap(before, AffectedPaths(env, f.affectedFiles))
    && PassedBetween(env, since, b.s, f, after)
  }

  /** One of the verifications made between `since` and `now` passed on `files`, and one of the acceptance commands
      run between them passed there for `f`. */
  ghost predicate PassedBetween(env: Env, since: State, now: State, f: Finding, files: Files) {
    && (exists k: nat :: since.verifyCalls <= k < now.verifyCalls && env.verify(k, files))
    && (exists k: nat :: since.checkCalls <= k < now.checkCalls && env.accept(k, f.acceptanceCheck, files))
  }

  lemma CleanPrefix(env: Env, since: State, b: Batch, c: Batch, n: nat)
    requires |b.success| == |b.snaps| && forall i :: 0 <= i < |b.success| ==> CleanAt(env, since, b, i)
    requires n <= |b.success| && c.success == b.success[..n] && c.snaps == b.snaps[..n]
    requires b.s.verifyCalls <= c.s.verifyCalls && b.s.checkCalls <= c.s.checkCalls
    ensures forall i :: 0 <= i < |c.success| ==> CleanAt(env, since, c, i)
  {
    forall i | 0 <= i < n
      ensures CleanAt(env, since, c, i)
    {
      assert CleanAt(env, since, b, i);
      assert b.success[..i] == c.success[..i] && b.success[..i + 1] == c.success[..i + 1];
    }
  }

  lemma ApplyOneClean(env: Env, since: State, b: Batch, f: Finding)
    requires Clean(env, since, b) && Covered(env, f)
    ensures Clean(env, since, ApplyOne(env, b, f))
  {
    hide Covered, FirstRefusal, Snap, Restored, CleanAt;
    var c := ApplyOne(env, b, f);
    var n := |b.success|;
    if FirstRefusal(env, b.s.files, f.edits).None? {
      RollbackExact(env, b.s.files, f);
    }
    assert b.success[..n] == b.success && b.snaps[..n] == b.snaps;
    if |c.success| == n {
      assert c.success == b.success && c.snaps == b.snaps;
      CleanPrefix(env, since, b, c, n);
    } else {
      assert c.success == b.success + [f];
      AppliedSnoc(env, since.files, b.success, f);
      ApplyOneSucceeds(env, since, b, f);
      assert c.success[..n] == b.success && c.snaps[..n] == b.snaps;
      ExtendClean(env, since, b, c);
    }
  }

  lemma ExtendClean(env: Env, since: State, b: Batch, c: Batch)
    requires |b.success| == |b.snaps| && |c.success| == |c.snaps| == |b.success| + 1
    requires c.success[..|b.success|] == b.success && c.snaps[..|b.success|] == b.snaps
    requires forall i :: 0 <= i < |b.success| ==> CleanAt(env, since, b, i)
    requires CleanAt(env, since, c, |b.success|)
    requires b.s.verifyCalls <= c.s.verifyCalls && b.s.checkCalls <= c.s.checkCalls
    ensures forall i :: 0 <= i < |c.success| ==> CleanAt(env, since, c, i)
  {
    forall i | 0 <= i < |b.success|
      ensures CleanAt(env, since, c, i)
    {
      assert CleanAt(env, since, b, i);
      assert b.success[..i] == c.success[..i] && b.success[..i + 1] == c.success[..i + 1];
      assert b.success[i] == c.success[i] && b.snaps[i] == c.snaps[i];
    }
  }

  lemma ApplyOneSucceeds(env: Env, since: State, b: Batch, f: Finding)
    requires |b.success| == |b.snaps| && b.s.files == AppliedAll(env, since.files, b.success) && Covered(env, f)
    requires |ApplyOne(env, b, f).success| != |b.success|
    requires since.verifyCalls <= b.s.verifyCalls && since.checkCalls <= b.s.checkCalls
    ensures var c := ApplyOne(env, b, f);
      c.success == b.success + [f] && |c.snaps| == |b.snaps| + 1 && CleanAt(env, since, c, |b.success|)
  {
    hide Covered, FirstRefusal, Snap, Restored;
    var c := ApplyOne(env, b, f);
    AppliedSnoc(env, since.files, b.success, f);
    assert c.success[..|b.success|] == b.success && c.success[..|b.success| + 1] == b.success + [f];
    assert env.verify(b.s.verifyCalls, c.s.files);
    assert env.accept(b.s.checkCalls, f.acceptanceCheck, c.s.files);
  }

  lemma {:induction false} ApplyBatchClean(env: Env, s: State, fs: seq<Finding>)
    requires forall f :: f in fs ==> Covered(env, f)
    ensures Clean(env, s, ApplyBatch(env, s, fs))
  {
    hide Covered, ApplyOne, CleanAt;
    if fs == [] {
      assert AppliedAll(env, s.files, []) == s.files;
    } else {
      ApplyBatchClean(env, s, fs[..|fs| - 1]);
      ApplyOneClean(env, s, ApplyBatch(env, s, fs[..|fs| - 1]), fs[|fs| - 1]);
    }
  }

  /** Reverting the last finding of a clean batch gives the clean batch without it. */
  lemma PopClean(env: Env, since: State, b: Batch, c: Batch)
    requires Clean(env, since, b) && b.success != []
    requires c.success == b.success[..|b.success| - 1] && c.snaps == b.snaps[..|b.success| - 1]
    requires c.s.files == Restored(b.s.files, b.snaps[|b.success| - 1])
    requires b.s.verifyCalls <= c.s.verifyCalls && b.s.checkCalls <= c.s.checkCalls
    ensures Clean(env, since, c)
  {
    hide Covered, FirstRefusal, Snap, Restored;
    var n := |b.success| - 1;
    var f := b.success[n];
    assert CleanAt(env, since, b, n);
    assert b.success[..n + 1] == b.success == b.success[..n] + [f];
    AppliedSnoc(env, since.files, b.success[..n], f);
    RollbackExact(env, AppliedAll(env, since.files, b.success[..n]), f);
    CleanPrefix(env, since, b, c, n);
  }

  lemma {:induction false} WalkBackClean(env: Env, since: State, b: Batch)
    requires Clean(env, since, b)
    ensures Clean(env, since, WalkBack(env, b))
    decreases |b.success|
  {
    hide CleanAt, Restored, Surface;
    if b.success != [] {
      var n := |b.success| - 1;
      var undone := b.s.(files := Restored(b.s.files, b.snaps[n]), verifyCalls := b.s.verifyCalls + 1);
      var s := Surface(undone, b.success[n], CumulativeVerifyFailed, Some(CumulativeFailed), Failed, false);
      SurfaceFiles(undone, b.success[n], CumulativeVerifyFailed, Some(CumulativeFailed), Failed, false);
      var rest := Batch(s, b.success[..n], b.snaps[..n]);
      PopClean(env, since, b, rest);
      if !env.verify(b.s.verifyCalls, undone.files) {
        WalkBackClean(env, since, rest);
      }
    }
  }

  lemma SurfaceFiles(s: State, f: Finding, decision: Decision, reason: Option<Reason>, outcome: Outcome, production: bool)
    ensures var t := Surface(s, f, decision, reason, outcome, production);
      t.files == s.files && t.verifyCalls == s.verifyCalls && t.checkCalls == s.checkCalls
  {
  }

  lemma SettleClean(env: Env, since: State, b: Batch)
    requires Clean(env, since, b)
    ensures Clean(env, since, Settle(env, b))
  {
    hide CleanAt, WalkBack;
    var asked := b.(s := b.s.(verifyCalls := b.s.verifyCalls + 1));
    assert b.success[..|b.success|] == b.success && b.snaps[..|b.snaps|] == b.snaps;
    CleanPrefix(env, since, b, asked, |b.success|);
    WalkBackClean(env, since, asked);
  }

  /** The findings a run applies itself. */
  function Survivors(env: Env, s: State, findings: seq<Finding>, limit: nat): seq<Finding> {
    Settle(env, Tried(env, s, findings, limit)).success
  }

  /** `xs` is `ys` with some entries left out. */
  ghost predicate Subsequence<T>(xs: seq<T>, ys: seq<T>) {
    if xs == [] then true
    else if ys == [] then false
    else (xs[|xs| - 1] == ys[|ys| - 1] && Subsequence(xs[..|xs| - 1], ys[..|ys| - 1])) || Subsequence(xs, ys[..|ys| - 1])
  }

  lemma {:induction false} SuccessInOrder(env: Env, s: State, fs: seq<Finding>)
    ensures Subsequence(ApplyBatch(env, s, fs).success, fs)
  {
    hide Surface, FirstRefusal, Written, Restored, Snap;
    if fs != [] {
      SuccessInOrder(env, s, fs[..|fs| - 1]);
      var b := ApplyBatch(env, s, fs[..|fs| - 1]);
      var c := ApplyOne(env, b, fs[|fs| - 1]);
      assert c.success == b.success || c.success == b.success + [fs[|fs| - 1]];
      assert (b.success + [fs[|fs| - 1]])[..|b.success|] == b.success;
    }
  }

  lemma {:induction false} SubsequenceTrans<T>(xs: seq<T>, zs: seq<T>, n: nat)
    requires n <= |xs| && Subsequence(xs, zs)
    ensures Subsequence(xs[..n], zs)
    decreases |zs|
  {
    if n < |xs| && zs != [] && n > 0 {
      if xs[|xs| - 1] == zs[|zs| - 1] && Subsequence(xs[..|xs| - 1], zs[..|zs| - 1]) {
        assert xs[..|xs| - 1][..n] == xs[..n];
        SubsequenceTrans(xs[..|xs| - 1], zs[..|zs| - 1], n);
      } else {
        SubsequenceTrans(xs, zs[..|zs| - 1], n);
      }
    } else {
      assert n == |xs| ==> xs[..n] == xs;
    }
  }

  /** After a run the file map is the initial one with exactly the survivors' edits, in batch order; survivors are
      appended to the applied list, and for each one of the run's own verifications and acceptance commands passed
      on the map right after its edits. */
  lemma RunFiles(env: Env, s: State, findings: seq<Finding>, limit: nat)
    requires Ledger(s)
    requires forall f :: f in BatchOf(env, findings, limit) ==> Covered(env, f)
    ensures var survivors, t := Survivors(env, s, findings, limit), Run(env, s, findings, limit);
      && t.files == AppliedAll(env, s.files, survivors)
      && t.applied == FrontEnd(env, s, findings, limit).applied + survivors
      && Subsequence(survivors, BatchOf(env, findings, limit))
      && s.verifyCalls == FrontEnd(env, s, findings, limit).verifyCalls
      && s.checkCalls <= FrontEnd(env, s, findings, limit).checkCalls
      && forall i :: 0 <= i < |survivors| ==> CheckedAt(env, FrontEnd(env, s, findings, limit), t, survivors, i)
  {
    hide Ledger, Covered, FrontEnd, BatchOf, Settle, ApplyBatch, AcceptAll, Subsequence, AppliedAll, FirstRefusal, Snap, CleanAt, CheckedAt;
    var start, fs := FrontEnd(env, s, findings, limit), BatchOf(env, findings, limit);
    FrontEndKeeps(env, s, findings, limit);
    ApplyBatchKeeps(env, start, fs);
    ApplyBatchClean(env, start, fs);
    SuccessInOrder(env, start, fs);
    var b := Tried(env, s, findings, limit);
    SettleKeeps(env, b);
    SettleClean(env, start, b);
    var c := Settle(env, b);
    assert c.success == b.success[..|c.success|];
    SubsequenceTrans(b.success, fs, |c.success|);
    AcceptAllKeeps(c.s, c.success);
    CleanIsVerified(env, start, c, Run(env, s, findings, limit));
  }

  /** The `i`-th finding was verified and accepted on the file map right after its edits, by calls made since
      `since` and before `now`. */
  ghost predicate CheckedAt(env: Env, since: State, now: State, fs: seq<Finding>, i: nat)
    requires i < |fs|
  {
    PassedBetween(env, since, now, fs[i], AppliedAll(env, since.files, fs[..i + 1]))
  }

  lemma CleanIsVerified(env: Env, since: State, b: Batch, now: State)
    requires Clean(env, since, b) && b.s.verifyCalls == now.verifyCalls && b.s.checkCalls == now.checkCalls
    ensures forall i :: 0 <= i < |b.success| ==> CheckedAt(env, since, now, b.success, i)
  {
    hide Covered, FirstRefusal, AppliedAll;
    forall i | 0 <= i < |b.success|
      ensures CheckedAt(env, since, now, b.success, i)
    {
      assert CleanAt(env, since, b, i);
    }
  }

  // ----- commits

  lemma {:induction false} WalkBackVerified(env: Env, b: Batch)
    requires |b.success| == |b.snaps|
    ensures var c := WalkBack(env, b);
      && c.s.verifyCalls >= b.s.verifyCalls && c.s.checkCalls == b.s.checkCalls
      && (c.success != [] ==>
            b.s.verifyCalls < c.s.verifyCalls && env.verify(c.s.verifyCalls - 1, c.s.files))
    decreases |b.success|
  {
    hide Restored, Surface;
    if b.success != [] {
      var n := |b.success| - 1;
      var undone := b.s.(files := Restored(b.s.files, b.snaps[n]), verifyCalls := b.s.verifyCalls + 1);
      SurfaceFiles(undone, b.success[n], CumulativeVerifyFailed, Some(CumulativeFailed), Failed, false);
      var s := Surface(undone, b.success[n], CumulativeVerifyFailed, Some(CumulativeFailed), Failed, false);
      if !env.verify(b.s.verifyCalls, undone.files) {
        WalkBackVerified(env, Batch(s, b.success[..n], b.snaps[..n]));
      }
    }
  }

  lemma {:induction false} BatchCalls(env: Env, s: State, fs: seq<Finding>)
    ensures ApplyBatch(env, s, fs).s.verifyCalls >= s.verifyCalls
  {
    hide FirstRefusal, Written, Restored, Snap;
    if fs != [] {
      BatchCalls(env, s, fs[..|fs| - 1]);
    }
  }

  /** A run commits exactly when something survived and git works; what it commits is the final
      file map, and the run's last verification passed on that very map. */
  lemma RunCommits(env: Env, s: State, findings: seq<Finding>, limit: nat)
    requires Ledger(s)
    ensures var t, survivors := Run(env, s, findings, limit), Survivors(env, s, findings, limit);
      && t.commits == s.commits + (if survivors != [] && env.commitWorks then [Commit(t.files, survivors)] else [])
      && (survivors != [] ==> t.verifyCalls > s.verifyCalls && env.verify(t.verifyCalls - 1, t.files))
  {
    hide Ledger, Held, FrontEnd, BatchOf, ApplyBatch, AcceptAll, WalkBack;
    FrontEndKeeps(env, s, findings, limit);
    ApplyBatchKeeps(env, FrontEnd(env, s, findings, limit), BatchOf(env, findings, limit));
    var b := Tried(env, s, findings, limit);
    SettleKeeps(env, b);
    BatchCalls(env, FrontEnd(env, s, findings, limit), BatchOf(env, findings, limit));
    WalkBackVerified(env, b.(s := b.s.(verifyCalls := b.s.verifyCalls + 1)));
    var c := Settle(env, b);
    AcceptAllKeeps(c.s, c.success);
  }

  /** Verification depends on the files alone. */
  ghost predicate Steady(env: Env) {
    forall j: nat, k: nat, m: Files :: env.verify(j, m) ==> env.verify(k, m)
  }

  /** With a steady verifier and covered findings the walk-back never starts. */
  lemma SteadyNeverWalksBack(env: Env, s: State, findings: seq<Finding>, limit: nat)
    requires Steady(env)
    requires forall f :: f in BatchOf(env, findings, limit) ==> Covered(env, f)
    ensures Survivors(env, s, findings, limit) == Tried(env, s, findings, limit).success
  {
    hide Covered, FrontEnd, BatchOf, ApplyBatch, WalkBack, FirstRefusal, Snap;
    var start := FrontEnd(env, s, findings, limit);
    ApplyBatchClean(env, start, BatchOf(env, findings, limit));
    var b := Tried(env, s, findings, limit);
    if b.success != [] {
      var n := |b.success| - 1;
      assert CleanAt(env, start, b, n);
      assert b.success[..n + 1] == b.success;
      var k: nat :| env.verify(k, AppliedAll(env, start.files, b.success));
      assert env.verify(b.s.verifyCalls, b.s.files);
    }
  }
}
