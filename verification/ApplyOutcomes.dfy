/** What an apply run records: which entry each finding gets, that nothing outside the project changes, and that a
    batch in which nothing fails is applied and committed whole. */
module ApplyOutcomes {
  import opened Prelude
  import opened Sorting
  import opened TextEdits
  import opened AnchorApply
  import opened ApplySpec
  import opened ApplyProperties
  import opened ApplyGate

  // ----- lists only grow

  ghost predicate Grows(s: State, t: State) {
    s.applied <= t.applied && s.surfaced <= t.surfaced && s.audit <= t.audit && s.commits <= t.commits
  }

  lemma GrowsOn(s: State, t: State, u: State)
    requires Grows(s, t) && Grows(t, u)
    ensures Grows(s, u)
  {
  }

  /** Between `s` and `t` the finding is surfaced under the entry. */
  ghost predicate Surfaced(s: State, t: State, f: Finding, e: Entry) {
    Grows(s, t) && f in t.surfaced[|s.surfaced|..] && e in t.audit[|s.audit|..]
  }

  /** Between `s` and `t` the finding joins the applied ones under the entry. */
  ghost predicate Credited(s: State, t: State, f: Finding, e: Entry) {
    Grows(s, t) && f in t.applied[|s.applied|..] && e in t.audit[|s.audit|..]
  }

  lemma TailKeeps<T>(a: seq<T>, b: seq<T>, c: seq<T>, d: seq<T>, x: T)
    requires a <= b <= c <= d && x in c[|b|..]
    ensures x in d[|a|..]
  {
    var i :| 0 <= i < |c[|b|..]| && c[|b|..][i] == x;
    assert d[|a|..][|b| - |a| + i] == x;
  }

  lemma SurfacedOn(s: State, t: State, u: State, v: State, f: Finding, e: Entry)
    requires Grows(s, t) && Surfaced(t, u, f, e) && Grows(u, v)
    ensures Surfaced(s, v, f, e)
  {
    TailKeeps(s.surfaced, t.surfaced, u.surfaced, v.surfaced, f);
    TailKeeps(s.audit, t.audit, u.audit, v.audit, e);
  }

  lemma CreditedOn(s: State, t: State, u: State, v: State, f: Finding, e: Entry)
    requires Grows(s, t) && Credited(t, u, f, e) && Grows(u, v)
    ensures Credited(s, v, f, e)
  {
    TailKeeps(s.applied, t.applied, u.applied, v.applied, f);
    TailKeeps(s.audit, t.audit, u.audit, v.audit, e);
  }

  lemma SurfaceAdds(s: State, f: Finding, decision: Decision, reason: Option<Reason>, outcome: Outcome, production: bool)
    ensures Surfaced(s, Surface(s, f, decision, reason, outcome, production), f, Entry(f.id, decision, reason, outcome, production))
  {
    var t := Surface(s, f, decision, reason, outcome, production);
    assert t.surfaced[|s.surfaced|..] == [f] && t.audit[|s.audit|..] == [Entry(f.id, decision, reason, outcome, production)];
  }

  lemma AcceptAdds(s: State, f: Finding, decision: Decision)
    ensures Credited(s, Accept(s, f, decision), f, Entry(f.id, decision, None, Passed, false))
  {
    var t := Accept(s, f, decision);
    assert t.applied[|s.applied|..] == [f] && t.audit[|s.audit|..] == [Entry(f.id, decision, None, Passed, false)];
  }

  /** Counting a call or changing a file leaves the lists alone. */
  lemma SameLists(s: State, t: State, u: State)
    requires t.applied == s.applied && t.surfaced == s.surfaced && t.audit == s.audit && t.commits == s.commits
    ensures Grows(s, t) && (Grows(t, u) <==> Grows(s, u))
    ensures forall f, e :: Surfaced(t, u, f, e) <==> Surfaced(s, u, f, e)
    ensures forall f, e :: Credited(t, u, f, e) <==> Credited(s, u, f, e)
  {
  }

  lemma GateOneGrows(env: Env, s: State, f: Finding)
    ensures Grows(s, GateOne(env, s, f))
  {
    hide FourKeyGate;
  }

  lemma {:induction false} GateAllGrows(env: Env, s: State, fs: seq<Finding>, n: nat)
    requires n <= |fs|
    ensures Grows(s, GateAll(env, s, fs)) && Grows(GateAll(env, s, fs[..n]), GateAll(env, s, fs))
    ensures GateAll(env, s, fs).files == s.files
  {
    hide GateOne, Grows;
    if fs == [] {
      assert fs[..n] == [];
      GrowsSelf(s);
    } else {
      var front := fs[..|fs| - 1];
      var before := GateAll(env, s, front);
      GateOneGrows(env, before, fs[|fs| - 1]);
      GateOneFiles(env, before, fs[|fs| - 1]);
      GateAllGrows(env, s, front, if n < |fs| then n else |front|);
      GrowsOn(s, before, GateAll(env, s, fs));
      if n < |fs| {
        assert front[..n] == fs[..n];
        GrowsOn(GateAll(env, s, fs[..n]), before, GateAll(env, s, fs));
      } else {
        assert fs[..n] == fs;
        GrowsSelf(GateAll(env, s, fs));
      }
    }
  }

  lemma GateOneFiles(env: Env, s: State, f: Finding)
    ensures GateOne(env, s, f).files == s.files
  {
    hide FourKeyGate;
  }

  lemma GrowsSelf(s: State)
    ensures Grows(s, s)
  {
  }

  lemma {:induction false} SurfaceAllGrows(s: State, fs: seq<Finding>, reason: Reason)
    ensures Grows(s, SurfaceAll(s, fs, reason))
  {
    if fs != [] {
      SurfaceAllGrows(s, fs[..|fs| - 1], reason);
    }
  }

  lemma {:induction false} SurfaceAllAdds(s: State, fs: seq<Finding>, reason: Reason, f: Finding)
    requires f in fs
    ensures Surfaced(s, SurfaceAll(s, fs, reason), f, Entry(f.id, OverriddenToSurface, Some(reason), Deferred, false))
  {
    hide Surfaced, Grows, Surface;
    var front, last := fs[..|fs| - 1], fs[|fs| - 1];
    var before, after := SurfaceAll(s, front, reason), SurfaceAll(s, fs, reason);
    var e := Entry(f.id, OverriddenToSurface, Some(reason), Deferred, false);
    SurfaceAdds(before, last, OverriddenToSurface, Some(reason), Deferred, false);
    SurfaceAllGrows(s, front, reason);
    GrowsSelf(s);
    GrowsSelf(after);
    if last == f {
      SurfacedOn(s, before, after, after, f, e);
    } else {
      SurfaceAllAdds(s, front, reason, f);
      SurfacedGrows(before, after, last, Entry(last.id, OverriddenToSurface, Some(reason), Deferred, false));
      SurfacedOn(s, s, before, after, f, e);
    }
  }

  lemma SurfacedGrows(s: State, t: State, f: Finding, e: Entry)
    requires Surfaced(s, t, f, e)
    ensures Grows(s, t)
  {
  }

  lemma ApplyOneGrows(env: Env, b: Batch, f: Finding)
    ensures Grows(b.s, ApplyOne(env, b, f).s)
  {
    hide FirstRefusal, Written, Restored, Snap;
  }

  lemma {:induction false} ApplyBatchGrows(env: Env, s: State, fs: seq<Finding>)
    ensures Grows(s, ApplyBatch(env, s, fs).s)
  {
    hide ApplyOne, Grows;
    if fs == [] {
      GrowsSelf(s);
    } else {
      ApplyBatchGrows(env, s, fs[..|fs| - 1]);
      ApplyOneGrows(env, ApplyBatch(env, s, fs[..|fs| - 1]), fs[|fs| - 1]);
      GrowsOn(s, ApplyBatch(env, s, fs[..|fs| - 1]).s, ApplyBatch(env, s, fs).s);
    }
  }

  lemma {:induction false} WalkBackGrows(env: Env, b: Batch)
    requires |b.success| == |b.snaps|
    ensures Grows(b.s, WalkBack(env, b).s)
    decreases |b.success|
  {
    hide Restored;
    if b.success != [] {
      var n := |b.success| - 1;
      var files := Restored(b.s.files, b.snaps[n]);
      var s := Surface(b.s.(files := files, verifyCalls := b.s.verifyCalls + 1),
                       b.success[n], CumulativeVerifyFailed, Some(CumulativeFailed), Failed, false);
      if !env.verify(b.s.verifyCalls, files) {
        WalkBackGrows(env, Batch(s, b.success[..n], b.snaps[..n]));
      }
    }
  }

  lemma {:induction false} AcceptAllGrows(s: State, fs: seq<Finding>)
    ensures Grows(s, AcceptAll(s, fs))
  {
    if fs != [] {
      AcceptAllGrows(s, fs[..|fs| - 1]);
    }
  }

  /** What comes behind the front end only adds. */
  lemma RunGrows(env: Env, s: State, findings: seq<Finding>, limit: nat)
    ensures Grows(FrontEnd(env, s, findings, limit), Run(env, s, findings, limit))
  {
    hide FrontEnd, ApplyBatch, WalkBack, AcceptAll, BatchOf, Grows;
    var start := FrontEnd(env, s, findings, limit);
    ApplyBatchGrows(env, start, BatchOf(env, findings, limit));
    var b := Tried(env, s, findings, limit);
    var asked := b.(s := b.s.(verifyCalls := b.s.verifyCalls + 1));
    SettleGrows(env, b);
    var c := Settle(env, b);
    AcceptAllGrows(c.s, c.success);
    GrowsOn(start, b.s, c.s);
    GrowsOn(start, c.s, AcceptAll(c.s, c.success));
    FinishGrows(env, c);
    GrowsOn(start, AcceptAll(c.s, c.success), Run(env, s, findings, limit));
  }

  lemma SettleGrows(env: Env, b: Batch)
    requires |b.success| == |b.snaps|
    ensures Grows(b.s, Settle(env, b).s)
  {
    hide WalkBack;
    var asked := b.(s := b.s.(verifyCalls := b.s.verifyCalls + 1));
    WalkBackGrows(env, asked);
    SameLists(b.s, asked.s, WalkBack(env, asked).s);
  }

  lemma FinishGrows(env: Env, b: Batch)
    ensures Grows(AcceptAll(b.s, b.success), Finish(env, b))
  {
    hide AcceptAll;
  }

  // ----- the entry of a refused finding

  lemma GateOneSurfaces(env: Env, s: State, f: Finding, e: Entry)
    requires !f.inlineApplied
    requires (exists i: nat :: FailsFirst(env, f, i)
                && e == Entry(f.id, if i == 7 then SuppressedAdvisory else OverriddenToSurface, Some(Objection(i)), Deferred, false))
      || (AllKeys(env, f) && env.production(f.acceptanceCheck) && e == Entry(f.id, OverriddenToSurface, None, Deferred, true))
    ensures Surfaced(s, GateOne(env, s, f), f, e)
  {
    hide FourKeyGate, Key, Surfaced, Surface;
    GateIs(env, f);
    SurfaceAdds(s, f, e.decision, e.reason, e.outcome, e.productionDeferred);
  }

  /** From the gate on: what one finding gains there it keeps to the end of the run. */
  lemma GatedStays(env: Env, s: State, findings: seq<Finding>, limit: nat, n: nat)
    requires n < |findings|
    ensures var before := GateAll(env, s, findings[..n]);
      && Grows(s, before) && before.files == s.files
      && Grows(GateOne(env, before, findings[n]), Run(env, s, findings, limit))
  {
    hide GateAll, GateOne, Grows, FrontEnd, Run;
    assert findings[..n + 1][..n] == findings[..n] && findings[..n + 1][n] == findings[n];
    GateAllStep(env, s, findings, n);
    GateAllGrows(env, s, findings[..n], n);
    assert findings[..n][..n] == findings[..n];
    GateAllGrows(env, s, findings, n + 1);
    FrontEndGrows(env, s, findings, limit);
    RunGrows(env, s, findings, limit);
    GrowsOn(GateAll(env, s, findings[..n + 1]), GateAll(env, s, findings), FrontEnd(env, s, findings, limit));
    GrowsOn(GateAll(env, s, findings[..n + 1]), FrontEnd(env, s, findings, limit), Run(env, s, findings, limit));
  }

  lemma GateAllStep(env: Env, s: State, findings: seq<Finding>, n: nat)
    requires n < |findings|
    ensures GateAll(env, s, findings[..n + 1]) == GateOne(env, GateAll(env, s, findings[..n]), findings[n])
  {
    hide GateOne;
    assert findings[..n + 1][..n] == findings[..n] && findings[..n + 1][n] == findings[n];
  }

  lemma FrontEndGrows(env: Env, s: State, findings: seq<Finding>, limit: nat)
    ensures Grows(GateAll(env, s, findings), FrontEnd(env, s, findings, limit))
  {
    hide GateAll, SurfaceAll, Grows, Overlapping, Manifest, OverflowOf, Eligible, Filter;
    var gated := GateAll(env, s, findings);
    var without := Filter((f: Finding) => !HasFiles(f), Filter((f: Finding) => Eligible(env, f), findings));
    var manifested := SurfaceAll(gated, without, MissingAffectedFiles);
    var overlapped := SurfaceAll(manifested, Overlapping(Manifest(env, findings)), OverlappingPatchSurface);
    SurfaceAllGrows(gated, without, MissingAffectedFiles);
    SurfaceAllGrows(manifested, Overlapping(Manifest(env, findings)), OverlappingPatchSurface);
    SurfaceAllGrows(overlapped, OverflowOf(env, findings, limit), AutoApplyBatchLimit);
    GrowsOn(gated, manifested, overlapped);
    GrowsOn(gated, overlapped, FrontEnd(env, s, findings, limit));
  }

  /** A finding not applied inline whose first failing key is `i` ends surfaced under that key's
      reason; the last key is that of advisory suppression. */
  lemma RefusedUnderFirstReason(env: Env, s: State, findings: seq<Finding>, limit: nat, f: Finding, i: nat)
    requires f in findings && !f.inlineApplied && FailsFirst(env, f, i)
    ensures Surfaced(s, Run(env, s, findings, limit), f,
      Entry(f.id, if i == 7 then SuppressedAdvisory else OverriddenToSurface, Some(Objection(i)), Deferred, false))
  {
    hide FailsFirst, Surfaced, Grows, GateAll, GateOne, Run;
    var n :| 0 <= n < |findings| && findings[n] == f;
    var before := GateAll(env, s, findings[..n]);
    var e := Entry(f.id, if i == 7 then SuppressedAdvisory else OverriddenToSurface, Some(Objection(i)), Deferred, false);
    GatedStays(env, s, findings, limit, n);
    GateOneSurfaces(env, before, f, e);
    SurfacedOn(s, before, GateOne(env, before, f), Run(env, s, findings, limit), f, e);
  }

  /** One that passes all keys but would check against production is deferred, and marked so. */
  lemma ProductionDeferred(env: Env, s: State, findings: seq<Finding>, limit: nat, f: Finding)
    requires f in findings && !f.inlineApplied && AllKeys(env, f) && env.production(f.acceptanceCheck)
    ensures Surfaced(s, Run(env, s, findings, limit), f, Entry(f.id, OverriddenToSurface, None, Deferred, true))
  {
    hide AllKeys, Surfaced, Grows, GateAll, GateOne, Run;
    var n :| 0 <= n < |findings| && findings[n] == f;
    var before := GateAll(env, s, findings[..n]);
    var e := Entry(f.id, OverriddenToSurface, None, Deferred, true);
    GatedStays(env, s, findings, limit, n);
    GateOneSurfaces(env, before, f, e);
    SurfacedOn(s, before, GateOne(env, before, f), Run(env, s, findings, limit), f, e);
  }

  /** So every finding is cleared, or was applied inline, or ends surfaced by the gate. */
  lemma NotClearedIsSurfaced(env: Env, s: State, findings: seq<Finding>, limit: nat, f: Finding) returns (e: Entry)
    requires f in findings && !f.inlineApplied && !Cleared(env, f)
    ensures Surfaced(s, Run(env, s, findings, limit), f, e) && e.findingId == f.id
  {
    hide Key, Surfaced, Run;
    if AllKeys(env, f) {
      ProductionDeferred(env, s, findings, limit, f);
      e := Entry(f.id, OverriddenToSurface, None, Deferred, true);
    } else {
      var i := SomeKeyFails(env, f, 8);
      RefusedUnderFirstReason(env, s, findings, limit, f, i);
      e := Entry(f.id, if i == 7 then SuppressedAdvisory else OverriddenToSurface, Some(Objection(i)), Deferred, false);
    }
  }

  /** What was applied inline is credited if its check passes on the files as they are, and surfaced if it
      fails or would touch production; the check is asked once, in its turn. */
  lemma InlineChecked(env: Env, s: State, findings: seq<Finding>, limit: nat, f: Finding) returns (k: nat)
    requires f in findings && f.inlineApplied
    ensures var t := Run(env, s, findings, limit);
      if env.production(f.acceptanceCheck) then
        Surfaced(s, t, f, Entry(f.id, OverriddenToSurface, Some(InlineApplyVerificationFailed), Deferred, true))
      else if env.accept(k, f.acceptanceCheck, s.files) then
        Credited(s, t, f, Entry(f.id, AlreadyAppliedByReviewer, None, Passed, false))
      else
        Surfaced(s, t, f, Entry(f.id, OverriddenToSurface, Some(InlineApplyVerificationFailed), Failed, false))
  {
    hide Surfaced, Credited, Grows, GateAll, Run, FourKeyGate, Surface, Accept;
    var n :| 0 <= n < |findings| && findings[n] == f;
    var before, t := GateAll(env, s, findings[..n]), Run(env, s, findings, limit);
    GatedStays(env, s, findings, limit, n);
    k := before.checkCalls;
    var after := GateOne(env, before, f);
    var asked := before.(checkCalls := k + 1);
    SameLists(before, asked, after);
    if env.production(f.acceptanceCheck) {
      SurfaceAdds(before, f, OverriddenToSurface, Some(InlineApplyVerificationFailed), Deferred, true);
      SurfacedOn(s, before, after, t, f, Entry(f.id, OverriddenToSurface, Some(InlineApplyVerificationFailed), Deferred, true));
    } else if env.accept(k, f.acceptanceCheck, s.files) {
      AcceptAdds(asked, f, AlreadyAppliedByReviewer);
      CreditedOn(s, before, after, t, f, Entry(f.id, AlreadyAppliedByReviewer, None, Passed, false));
    } else {
      SurfaceAdds(asked, f, OverriddenToSurface, Some(InlineApplyVerificationFailed), Failed, false);
      SurfacedOn(s, before, after, t, f, Entry(f.id, OverriddenToSurface, Some(InlineApplyVerificationFailed), Failed, false));
    }
  }

  // ----- cleared, but not tried

  /** A cleared finding without files is surfaced for that. */
  lemma WithoutFiles(env: Env, s: State, findings: seq<Finding>, limit: nat, f: Finding)
    requires f in findings && Cleared(env, f) && f.affectedFiles == []
    ensures Surfaced(s, Run(env, s, findings, limit), f, Entry(f.id, OverriddenToSurface, Some(MissingAffectedFiles), Deferred, false))
  {
    hide Cleared, Eligible, Surfaced, Grows, GateAll, SurfaceAll, Run, Filter, Overlapping, Manifest, OverflowOf;
    var eligible := (g: Finding) => Eligible(env, g);
    var unlisted := (g: Finding) => !HasFiles(g);
    ClearedIsEligible(env, f);
    FilterMembers(eligible, findings);
    FilterMembers(unlisted, Filter(eligible, findings));
    var gated, without := GateAll(env, s, findings), Filter(unlisted, Filter(eligible, findings));
    var manifested := SurfaceAll(gated, without, MissingAffectedFiles);
    SurfaceAllAdds(gated, without, MissingAffectedFiles, f);
    GrowsSelf(gated);
    var overlapped := SurfaceAll(manifested, Overlapping(Manifest(env, findings)), OverlappingPatchSurface);
    SurfaceAllGrows(manifested, Overlapping(Manifest(env, findings)), OverlappingPatchSurface);
    SurfaceAllGrows(overlapped, OverflowOf(env, findings, limit), AutoApplyBatchLimit);
    GrowsOn(manifested, overlapped, FrontEnd(env, s, findings, limit));
    FromFrontEnd(env, s, findings, limit, gated, manifested, f, Entry(f.id, OverriddenToSurface, Some(MissingAffectedFiles), Deferred, false));
  }

  lemma FromFrontEnd(env: Env, s: State, findings: seq<Finding>, limit: nat, a: State, b: State, f: Finding, e: Entry)
    requires Grows(GateAll(env, s, findings), a) && Surfaced(a, b, f, e) && Grows(b, FrontEnd(env, s, findings, limit))
    ensures Surfaced(s, Run(env, s, findings, limit), f, e)
  {
    hide Surfaced, Grows, GateAll, FrontEnd, Run;
    GateAllGrows(env, s, findings, |findings|);
    GrowsOn(s, GateAll(env, s, findings), a);
    RunGrows(env, s, findings, limit);
    GrowsOn(b, FrontEnd(env, s, findings, limit), Run(env, s, findings, limit));
    SurfacedOn(s, a, b, Run(env, s, findings, limit), f, e);
  }

  /** One of the manifest that is not tried was left out for a finding kept before it, or came after the limit. */
  lemma NotTried(env: Env, s: State, findings: seq<Finding>, limit: nat, f: Finding) returns (e: Entry)
    requires f in Manifest(env, findings) && f !in BatchOf(env, findings, limit)
    ensures Surfaced(s, Run(env, s, findings, limit), f, e)
    ensures || (f in Overlapping(Manifest(env, findings))
                && e == Entry(f.id, OverriddenToSurface, Some(OverlappingPatchSurface), Deferred, false))
            || (f in Kept(Manifest(env, findings)) && |Kept(Manifest(env, findings))| > limit
                && e == Entry(f.id, OverriddenToSurface, Some(AutoApplyBatchLimit), Deferred, false))
  {
    hide Eligible, Surfaced, Grows, GateAll, SurfaceAll, Run, Filter, Overlapping, Kept, Manifest;
    var manifest := Manifest(env, findings);
    KeptPartition(manifest);
    assert f in multiset(Kept(manifest)) + multiset(Overlapping(manifest)) by {
      assert f in multiset(manifest);
    }
    var gated := GateAll(env, s, findings);
    var without := Filter((g: Finding) => !HasFiles(g), Filter((g: Finding) => Eligible(env, g), findings));
    var manifested := SurfaceAll(gated, without, MissingAffectedFiles);
    var overlapped := SurfaceAll(manifested, Overlapping(manifest), OverlappingPatchSurface);
    var start := FrontEnd(env, s, findings, limit);
    SurfaceAllGrows(gated, without, MissingAffectedFiles);
    SurfaceAllGrows(manifested, Overlapping(manifest), OverlappingPatchSurface);
    SurfaceAllGrows(overlapped, OverflowOf(env, findings, limit), AutoApplyBatchLimit);
    if f in Overlapping(manifest) {
      e := Entry(f.id, OverriddenToSurface, Some(OverlappingPatchSurface), Deferred, false);
      SurfaceAllAdds(manifested, Overlapping(manifest), OverlappingPatchSurface, f);
      FromFrontEnd(env, s, findings, limit, manifested, overlapped, f, e);
    } else {
      e := Entry(f.id, OverriddenToSurface, Some(AutoApplyBatchLimit), Deferred, false);
      InOverflow(env, findings, limit, f);
      GrowsOn(gated, manifested, overlapped);
      SurfaceAllAdds(overlapped, OverflowOf(env, findings, limit), AutoApplyBatchLimit, f);
      GrowsSelf(start);
      FromFrontEnd(env, s, findings, limit, overlapped, start, f, e);
    }
  }

  lemma InOverflow(env: Env, findings: seq<Finding>, limit: nat, f: Finding)
    requires f in Kept(Manifest(env, findings)) && f !in BatchOf(env, findings, limit)
    ensures f in OverflowOf(env, findings, limit) && |Kept(Manifest(env, findings))| > limit
  {
    hide Kept, Manifest;
    var keep := Kept(Manifest(env, findings));
    if |keep| > limit {
      assert keep == keep[..limit] + keep[limit..];
    }
  }

  // ----- tried

  /** How one try ends: with the finding applied if its edits are accepted and both checks pass, otherwise with the
      reason, the first refused edit if there is one. */
  lemma TryEnds(env: Env, b: Batch, f: Finding) returns (e: Entry)
    ensures var c, refusal := ApplyOne(env, b, f), FirstRefusal(env, b.s.files, f.edits);
      var written := Written(env, b.s.files, f.edits);
      if refusal == None && env.verify(b.s.verifyCalls, written) && env.accept(b.s.checkCalls, f.acceptanceCheck, written) then
        c.success == b.success + [f] && c.s.files == written && c.s.audit == b.s.audit
      else
        && c.success == b.success && Surfaced(b.s, c.s, f, e)
        && e == Entry(f.id, AutoApplyFailed,
                      Some(if refusal.Some? then AnchorRefused(refusal.value) else ApplyFailed), Failed, false)
  {
    hide FirstRefusal, Written, Restored, Snap, Surfaced, Surface;
    var s := b.s;
    var refusal := FirstRefusal(env, s.files, f.edits);
    var c := ApplyOne(env, b, f);
    e := Entry(f.id, AutoApplyFailed, Some(if refusal.Some? then AnchorRefused(refusal.value) else ApplyFailed), Failed, false);
    if c.success != b.success + [f] {
      SurfaceAdds(s, f, AutoApplyFailed, e.reason, Failed, false);
      FailedTry(env, b, f, e);
    }
  }

  lemma FailedTry(env: Env, b: Batch, f: Finding, e: Entry)
    requires |ApplyOne(env, b, f).success| == |b.success|
    requires var refusal := FirstRefusal(env, b.s.files, f.edits);
      e == Entry(f.id, AutoApplyFailed, Some(if refusal.Some? then AnchorRefused(refusal.value) else ApplyFailed), Failed, false)
    ensures Surfaced(b.s, ApplyOne(env, b, f).s, f, e)
  {
    hide FirstRefusal, Written, Restored, Snap;
    var t := ApplyOne(env, b, f).s;
    assert t.surfaced[|b.s.surfaced|..] == [f] && t.audit[|b.s.audit|..] == [e];
  }

  /** A finding a run walks back is surfaced as that; one that survives is credited. */
  lemma {:induction false} WalkedBack(env: Env, b: Batch, n: nat)
    requires |b.success| == |b.snaps| && |WalkBack(env, b).success| <= n < |b.success|
    ensures var f := b.success[n];
      Surfaced(b.s, WalkBack(env, b).s, f, Entry(f.id, CumulativeVerifyFailed, Some(CumulativeFailed), Failed, false))
    decreases |b.success|
  {
    hide Restored, Surfaced, Surface, Grows;
    var last := |b.success| - 1;
    var files := Restored(b.s.files, b.snaps[last]);
    var asked := b.s.(files := files, verifyCalls := b.s.verifyCalls + 1);
    var s := Surface(asked, b.success[last], CumulativeVerifyFailed, Some(CumulativeFailed), Failed, false);
    var rest := Batch(s, b.success[..last], b.snaps[..last]);
    var f := b.success[n];
    var e := Entry(f.id, CumulativeVerifyFailed, Some(CumulativeFailed), Failed, false);
    var end := WalkBack(env, b).s;
    SurfaceAdds(asked, b.success[last], CumulativeVerifyFailed, Some(CumulativeFailed), Failed, false);
    SurfacedGrows(asked, s, b.success[last], Entry(b.success[last].id, CumulativeVerifyFailed, Some(CumulativeFailed), Failed, false));
    SameLists(b.s, asked, s);
    GrowsSelf(s);
    GrowsSelf(end);
    if env.verify(b.s.verifyCalls, files) {
      assert n == last;
    } else {
      WalkBackGrows(env, rest);
      if n == last {
        GrowsSelf(b.s);
        SurfacedOn(b.s, b.s, s, end, f, e);
      } else {
        WalkedBack(env, rest, n);
        SurfacedOn(b.s, s, end, end, f, e);
      }
    }
  }

  lemma {:induction false} AcceptAllAdds(s: State, fs: seq<Finding>, f: Finding)
    requires f in fs
    ensures Credited(s, AcceptAll(s, fs), f, Entry(f.id, Applied, None, Passed, false))
  {
    hide Credited, Grows, Accept;
    var front, last := fs[..|fs| - 1], fs[|fs| - 1];
    var before, after := AcceptAll(s, front), AcceptAll(s, fs);
    AcceptAdds(before, last, Applied);
    AcceptAllGrows(s, front);
    GrowsSelf(s);
    GrowsSelf(after);
    if last == f {
      CreditedOn(s, before, after, after, f, Entry(f.id, Applied, None, Passed, false));
    } else {
      AcceptAllAdds(s, front, f);
      CreditedGrows(before, after, last, Entry(last.id, Applied, None, Passed, false));
      CreditedOn(s, s, before, after, f, Entry(f.id, Applied, None, Passed, false));
    }
  }

  lemma CreditedGrows(s: State, t: State, f: Finding, e: Entry)
    requires Credited(s, t, f, e)
    ensures Grows(s, t)
  {
  }

  /** A survivor is credited to the run. */
  lemma SurvivorCredited(env: Env, s: State, findings: seq<Finding>, limit: nat, f: Finding)
    requires f in Survivors(env, s, findings, limit)
    ensures Credited(s, Run(env, s, findings, limit), f, Entry(f.id, Applied, None, Passed, false))
  {
    hide Credited, Grows, GateAll, FrontEnd, ApplyBatch, Settle, AcceptAll, Finish, BatchOf;
    var start, b := FrontEnd(env, s, findings, limit), Tried(env, s, findings, limit);
    var c := Settle(env, b);
    GateAllGrows(env, s, findings, |findings|);
    FrontEndGrows(env, s, findings, limit);
    GrowsOn(s, GateAll(env, s, findings), start);
    ApplyBatchGrows(env, start, BatchOf(env, findings, limit));
    GrowsOn(s, start, b.s);
    SettleGrows(env, b);
    GrowsOn(s, b.s, c.s);
    AcceptAllAdds(c.s, c.success, f);
    FinishGrows(env, c);
    CreditedOn(s, c.s, AcceptAll(c.s, c.success), Run(env, s, findings, limit), f, Entry(f.id, Applied, None, Passed, false));
  }

  // ----- the project's boundary

  /** An edit is accepted exactly when its file is inside the project and readable, and its anchor, not empty, is
      counted once in it. */
  lemma AcceptedIff(env: Env, files: Files, e: Edit)
    ensures Refusal(env, files, e).None? <==>
      && env.inside(env.resolve(e.file)) && env.resolve(e.file) in files
      && e.anchor != "" && CountedOnce(files[env.resolve(e.file)], e.anchor)
  {
  }

  ghost predicate SameOutside(env: Env, a: Files, b: Files) {
    forall p :: !env.inside(p) ==> (p in a <==> p in b) && (p in a ==> a[p] == b[p])
  }

  lemma WrittenInside(env: Env, files: Files, edits: seq<Edit>)
    requires FirstRefusal(env, files, edits).None?
    ensures SameOutside(env, files, Written(env, files, edits))
  {
    hide NewContent, Written, FirstRefusal;
    NoRefusal(env, files, edits);
    LastEditWins(env, files, edits);
    forall p | !env.inside(p)
      ensures !Touched(env, edits, p)
    {
      if i :| 0 <= i < |edits| && env.resolve(edits[i].file) == p {
        AcceptedIff(env, files, edits[i]);
      }
    }
  }

  ghost predicate SnapsInside(env: Env, snaps: seq<Snapshot>) {
    forall i :: 0 <= i < |snaps| ==> env.inside(snaps[i].path)
  }

  lemma AffectedInside(env: Env, files: Files, listed: seq<string>)
    ensures SnapsInside(env, Snap(files, AffectedPaths(env, listed)))
  {
    hide Snap, AffectedPaths;
    PathsInside(env, listed);
    SnapsOf(env, files, AffectedPaths(env, listed));
  }

  lemma {:induction false} PathsInside(env: Env, listed: seq<string>)
    ensures forall p :: p in AffectedPaths(env, listed) ==> env.inside(p)
  {
    if listed != [] {
      PathsInside(env, listed[..|listed| - 1]);
    }
  }

  lemma {:induction false} SnapsOf(env: Env, files: Files, paths: seq<Path>)
    requires forall p :: p in paths ==> env.inside(p)
    ensures SnapsInside(env, Snap(files, paths))
  {
    if paths != [] {
      SnapsOf(env, files, paths[..|paths| - 1]);
    }
  }

  lemma {:induction false} RestoredInside(env: Env, files: Files, snaps: seq<Snapshot>)
    requires SnapsInside(env, snaps)
    ensures SameOutside(env, files, Restored(files, snaps))
  {
    if snaps != [] {
      RestoredInside(env, files, snaps[..|snaps| - 1]);
    }
  }

  lemma OutsideOn(env: Env, a: Files, b: Files, c: Files)
    requires SameOutside(env, a, b) && SameOutside(env, b, c)
    ensures SameOutside(env, a, c)
  {
  }

  ghost predicate BatchInside(env: Env, start: Files, b: Batch) {
    SameOutside(env, start, b.s.files) && |b.success| == |b.snaps| && forall i :: 0 <= i < |b.snaps| ==> SnapsInside(env, b.snaps[i])
  }

  lemma ApplyOneInside(env: Env, start: Files, b: Batch, f: Finding)
    requires BatchInside(env, start, b)
    ensures BatchInside(env, start, ApplyOne(env, b, f))
  {
    hide FirstRefusal, Written, Restored, Snap, SameOutside, SnapsInside;
    var snaps := Snap(b.s.files, AffectedPaths(env, f.affectedFiles));
    AffectedInside(env, b.s.files, f.affectedFiles);
    if FirstRefusal(env, b.s.files, f.edits).None? {
      var written := Written(env, b.s.files, f.edits);
      WrittenInside(env, b.s.files, f.edits);
      OutsideOn(env, start, b.s.files, written);
      RestoredInside(env, written, snaps);
      OutsideOn(env, start, written, Restored(written, snaps));
    }
  }

  lemma {:induction false} ApplyBatchInside(env: Env, s: State, fs: seq<Finding>)
    ensures BatchInside(env, s.files, ApplyBatch(env, s, fs))
  {
    hide ApplyOne;
    if fs != [] {
      ApplyBatchInside(env, s, fs[..|fs| - 1]);
      ApplyOneInside(env, s.files, ApplyBatch(env, s, fs[..|fs| - 1]), fs[|fs| - 1]);
    }
  }

  lemma {:induction false} WalkBackInside(env: Env, start: Files, b: Batch)
    requires BatchInside(env, start, b)
    ensures BatchInside(env, start, WalkBack(env, b))
    decreases |b.success|
  {
    hide Restored, SameOutside, SnapsInside;
    if b.success != [] {
      var n := |b.success| - 1;
      var files := Restored(b.s.files, b.snaps[n]);
      RestoredInside(env, b.s.files, b.snaps[n]);
      OutsideOn(env, start, b.s.files, files);
      var s := Surface(b.s.(files := files, verifyCalls := b.s.verifyCalls + 1),
                       b.success[n], CumulativeVerifyFailed, Some(CumulativeFailed), Failed, false);
      if !env.verify(b.s.verifyCalls, files) {
        WalkBackInside(env, start, Batch(s, b.success[..n], b.snaps[..n]));
      }
    }
  }

  /** A run leaves every file outside the project as it was, whatever its findings name. */
  lemma OutsideUntouched(env: Env, s: State, findings: seq<Finding>, limit: nat)
    requires Ledger(s)
    ensures SameOutside(env, s.files, Run(env, s, findings, limit).files)
  {
    hide Ledger, Held, FrontEnd, ApplyBatch, WalkBack, AcceptAll, BatchOf, SameOutside, SnapsInside;
    var start := FrontEnd(env, s, findings, limit);
    FrontEndKeeps(env, s, findings, limit);
    ApplyBatchInside(env, start, BatchOf(env, findings, limit));
    ApplyBatchKeeps(env, start, BatchOf(env, findings, limit));
    var b := Tried(env, s, findings, limit);
    WalkBackInside(env, s.files, b.(s := b.s.(verifyCalls := b.s.verifyCalls + 1)));
    var c := Settle(env, b);
    SettleKeeps(env, b);
    AcceptAllKeeps(c.s, c.success);
  }

  // ----- a run in which nothing fails

  ghost predicate AlwaysPasses(env: Env) {
    && (forall k: nat, m: Files :: env.verify(k, m))
    && (forall k: nat, c: string, m: Files :: env.accept(k, c, m))
  }

  /** Each finding's edits are accepted on the files as the ones before it leave them. */
  ghost predicate AllFit(env: Env, files: Files, fs: seq<Finding>) {
    forall i :: 0 <= i < |fs| ==> FirstRefusal(env, AppliedAll(env, files, fs[..i]), fs[i].edits).None?
  }

  lemma OneSucceeds(env: Env, b: Batch, f: Finding)
    requires AlwaysPasses(env) && FirstRefusal(env, b.s.files, f.edits).None?
    ensures ApplyOne(env, b, f).success == b.success + [f] && ApplyOne(env, b, f).s.files == Written(env, b.s.files, f.edits)
  {
    hide FirstRefusal, Written, Restored, Snap;
  }

  lemma {:induction false} AllSucceed(env: Env, s: State, fs: seq<Finding>)
    requires AlwaysPasses(env) && AllFit(env, s.files, fs)
    ensures ApplyBatch(env, s, fs).success == fs && ApplyBatch(env, s, fs).s.files == AppliedAll(env, s.files, fs)
  {
    hide FirstRefusal, ApplyOne, Written;
    if fs == [] {
      assert AppliedAll(env, s.files, []) == s.files;
    } else {
      var n := |fs| - 1;
      var front := fs[..n];
      assert fs[..n] == front;
      forall i | 0 <= i < |front|
        ensures FirstRefusal(env, AppliedAll(env, s.files, front[..i]), front[i].edits).None?
      {
        assert front[..i] == fs[..i];
      }
      AllSucceed(env, s, front);
      assert fs == front + [fs[n]];
      OneSucceeds(env, ApplyBatch(env, s, front), fs[n]);
    }
  }

  /** When every verification and acceptance passes and all edits fit, the whole batch survives, is credited and, git
      permitting, committed as one. */
  lemma NothingFails(env: Env, s: State, findings: seq<Finding>, limit: nat)
    requires Ledger(s) && AlwaysPasses(env) && AllFit(env, s.files, BatchOf(env, findings, limit))
    ensures var batch, t := BatchOf(env, findings, limit), Run(env, s, findings, limit);
      && t.files == AppliedAll(env, s.files, batch) && t.applied == FrontEnd(env, s, findings, limit).applied + batch
      && t.commits == s.commits + (if batch != [] && env.commitWorks then [Commit(t.files, batch)] else [])
  {
    hide Ledger, Held, FrontEnd, ApplyBatch, WalkBack, AcceptAll, BatchOf, AllFit, AppliedAll;
    var start, batch := FrontEnd(env, s, findings, limit), BatchOf(env, findings, limit);
    FrontEndKeeps(env, s, findings, limit);
    AllSucceed(env, start, batch);
    ApplyBatchKeeps(env, start, batch);
    var b := Tried(env, s, findings, limit);
    var c := Settle(env, b);
    SettleKeeps(env, b);
    AcceptAllKeeps(c.s, c.success);
  }
}
