/** The coordinator's apply run as a function from state to state, stage by stage. */
module ApplySpec {
  import opened Prelude
  import opened Sorting
  import opened AnchorApply

  datatype Decision =
    | Applied | OverriddenToSurface | AutoApplyFailed
    | AlreadyAppliedByReviewer | SuppressedAdvisory | CumulativeVerifyFailed

  datatype Reason =
    | InvalidAcceptanceCheck | RecommendationNotImplement | AutoApplyNotEligible | CarveOutRiskDomain
    | Architectural | UserFacing | TechnicalEscalated | Suppressed
    | OverlappingPatchSurface | AutoApplyBatchLimit | MissingAffectedFiles
    | AnchorRefused(error: ApplyError) | ApplyFailed | InlineApplyVerificationFailed | CumulativeFailed

  datatype Outcome = Passed | Failed | Deferred

  datatype Entry = Entry(findingId: string, decision: Decision, reason: Option<Reason>, outcome: Outcome,
                         productionDeferred: bool)

  datatype Commit = Commit(files: Files, findings: seq<Finding>)

  datatype State = State(
    files: Files,
    applied: seq<Finding>,
    surfaced: seq<Finding>,
    audit: seq<Entry>,
    verifyCalls: nat,
    checkCalls: nat,
    commits: seq<Commit>)

  const CARVE_OUT_RISK_DOMAINS: set<string> :=
    {"tenant_isolation", "security", "auth_authorisation", "idempotency", "data_integrity", "compliance"}

  /** The four-key gate: the first reason against applying, if any. */
  function FourKeyGate(env: Env, f: Finding): Option<Reason> {
    if !env.knownCheck(f.acceptanceCheck) then Some(InvalidAcceptanceCheck)
    else if f.recommendation != "implement" then Some(RecommendationNotImplement)
    else if !f.autoApplyEligible || f.autoApplyReason != "local_one_obvious_fix" then Some(AutoApplyNotEligible)
    else if f.riskDomain in CARVE_OUT_RISK_DOMAINS then Some(CarveOutRiskDomain)
    else if f.scopeSignal != "local" then Some(Architectural)
    else if f.triageHint == "user-facing" then Some(UserFacing)
    else if f.triageHint == "technical-escalated" then Some(TechnicalEscalated)
    else if env.suppressed(f) then Some(Suppressed)
    else None
  }

  predicate Eligible(env: Env, f: Finding) {
    !f.inlineApplied && FourKeyGate(env, f).None? && !env.production(f.acceptanceCheck)
  }

  predicate HasFiles(f: Finding) {
    |f.affectedFiles| > 0
  }

  /** Log a decision against a finding and surface it. */
  function Surface(s: State, f: Finding, decision: Decision, reason: Option<Reason>, outcome: Outcome, production: bool): State {
    s.(surfaced := s.surfaced + [f], audit := s.audit + [Entry(f.id, decision, reason, outcome, production)])
  }

  /** Log a finding as applied and keep it. */
  function Accept(s: State, f: Finding, decision: Decision): State {
    s.(applied := s.applied + [f], audit := s.audit + [Entry(f.id, decision, None, Passed, false)])
  }

  // ----- gate and manifest

  function GateOne(env: Env, s: State, f: Finding): State {
    if f.inlineApplied then
      if env.production(f.acceptanceCheck) then
        Surface(s, f, OverriddenToSurface, Some(InlineApplyVerificationFailed), Deferred, true)
      else
        var asked := s.(checkCalls := s.checkCalls + 1);
        if env.accept(s.checkCalls, f.acceptanceCheck, s.files) then Accept(asked, f, AlreadyAppliedByReviewer)
        else Surface(asked, f, OverriddenToSurface, Some(InlineApplyVerificationFailed), Failed, false)
    else
      var gate := FourKeyGate(env, f);
      if gate == Some(Suppressed) then Surface(s, f, SuppressedAdvisory, gate, Deferred, false)
      else if gate.Some? then Surface(s, f, OverriddenToSurface, gate, Deferred, false)
      else if env.production(f.acceptanceCheck) then Surface(s, f, OverriddenToSurface, None, Deferred, true)
      else s
  }

  function GateAll(env: Env, s: State, fs: seq<Finding>): State {
    if fs == [] then s else GateOne(env, GateAll(env, s, fs[..|fs| - 1]), fs[|fs| - 1])
  }

  /** Surface every finding of `fs`, for one and the same reason. */
  function SurfaceAll(s: State, fs: seq<Finding>, reason: Reason): State {
    if fs == [] then s
    else Surface(SurfaceAll(s, fs[..|fs| - 1], reason), fs[|fs| - 1], OverriddenToSurface, Some(reason), Deferred, false)
  }

  // ----- overlap

  predicate SharesFile(a: Finding, b: Finding) {
    exists p :: p in a.affectedFiles && p in b.affectedFiles
  }

  /** The findings that keep their eligibility: those sharing no file with one kept before. */
  function Kept(fs: seq<Finding>): seq<Finding> {
    if fs == [] then []
    else
      var keep, f := Kept(fs[..|fs| - 1]), fs[|fs| - 1];
      if exists k :: k in keep && SharesFile(k, f) then keep else keep + [f]
  }

  function Overlapping(fs: seq<Finding>): seq<Finding> {
    if fs == [] then []
    else
      var f := fs[|fs| - 1];
      Overlapping(fs[..|fs| - 1]) + if exists k :: k in Kept(fs[..|fs| - 1]) && SharesFile(k, f) then [f] else []
  }

  // ----- the batch

  /** A running batch: the findings applied so far, each with the snapshot taken before it. */
  datatype Batch = Batch(s: State, success: seq<Finding>, snaps: seq<seq<Snapshot>>)

  function ApplyOne(env: Env, b: Batch, f: Finding): Batch {
    var s := b.s;
    var snaps := Snap(s.files, AffectedPaths(env, f.affectedFiles));
    var refusal := FirstRefusal(env, s.files, f.edits);
    if refusal.Some? then
      b.(s := Surface(s, f, AutoApplyFailed, Some(AnchorRefused(refusal.value)), Failed, false))
    else
      var written := s.(files := Written(env, s.files, f.edits), verifyCalls := s.verifyCalls + 1);
      if !env.verify(s.verifyCalls, written.files) then
        b.(s := Surface(written.(files := Restored(written.files, snaps)), f, AutoApplyFailed, Some(ApplyFailed), Failed, false))
      else
        var checked := written.(checkCalls := s.checkCalls + 1);
        if !env.accept(s.checkCalls, f.acceptanceCheck, checked.files) then
          b.(s := Surface(checked.(files := Restored(checked.files, snaps)), f, AutoApplyFailed, Some(ApplyFailed), Failed, false))
        else
          Batch(checked, b.success + [f], b.snaps + [snaps])
  }

  function ApplyBatch(env: Env, s: State, fs: seq<Finding>): Batch {
    if fs == [] then Batch(s, [], []) else ApplyOne(env, ApplyBatch(env, s, fs[..|fs| - 1]), fs[|fs| - 1])
  }

  /** Revert the last applied finding, re-verify, and go on while verification fails. */
  function WalkBack(env: Env, b: Batch): Batch
    requires |b.success| == |b.snaps|
    decreases |b.success|
  {
    if b.success == [] then b
    else
      var n := |b.success| - 1;
      var files := Restored(b.s.files, b.snaps[n]);
      var s := Surface(b.s.(files := files, verifyCalls := b.s.verifyCalls + 1),
                       b.success[n], CumulativeVerifyFailed, Some(CumulativeFailed), Failed, false);
      var rest := Batch(s, b.success[..n], b.snaps[..n]);
      if env.verify(b.s.verifyCalls, files) then rest else WalkBack(env, rest)
  }

  /** The cumulative verification and, if it fails, the walk-back. */
  function Settle(env: Env, b: Batch): Batch
    requires |b.success| == |b.snaps|
  {
    if b.success == [] then b
    else
      var asked := b.(s := b.s.(verifyCalls := b.s.verifyCalls + 1));
      if env.verify(b.s.verifyCalls, b.s.files) then asked else WalkBack(env, asked)
  }

  function AcceptAll(s: State, fs: seq<Finding>): State {
    if fs == [] then s else Accept(AcceptAll(s, fs[..|fs| - 1]), fs[|fs| - 1], Applied)
  }

  function Finish(env: Env, b: Batch): State {
    var s := AcceptAll(b.s, b.success);
    if b.success != [] && env.commitWorks then s.(commits := s.commits + [Commit(s.files, b.success)]) else s
  }

  // ----- the run

  function Manifest(env: Env, findings: seq<Finding>): seq<Finding> {
    Filter(HasFiles, Filter((f: Finding) => Eligible(env, f), findings))
  }

  function BatchOf(env: Env, findings: seq<Finding>, limit: nat): seq<Finding> {
    var keep := Kept(Manifest(env, findings));
    if |keep| <= limit then keep else keep[..limit]
  }

  function OverflowOf(env: Env, findings: seq<Finding>, limit: nat): seq<Finding> {
    var keep := Kept(Manifest(env, findings));
    if |keep| <= limit then [] else keep[limit..]
  }

  /** The state once the front end has surfaced everything that will not be tried. */
  function FrontEnd(env: Env, s: State, findings: seq<Finding>, limit: nat): State {
    var gated := GateAll(env, s, findings);
    var eligible := Filter((f: Finding) => Eligible(env, f), findings);
    var manifested := SurfaceAll(gated, Filter((f: Finding) => !HasFiles(f), eligible), MissingAffectedFiles);
    var overlapped := SurfaceAll(manifested, Overlapping(Manifest(env, findings)), OverlappingPatchSurface);
    SurfaceAll(overlapped, OverflowOf(env, findings, limit), AutoApplyBatchLimit)
  }

  lemma {:induction false} SnapsMatch(env: Env, s: State, fs: seq<Finding>)
    ensures |ApplyBatch(env, s, fs).success| == |ApplyBatch(env, s, fs).snaps|
  {
    if fs != [] {
      SnapsMatch(env, s, fs[..|fs| - 1]);
    }
  }

  function Tried(env: Env, s: State, findings: seq<Finding>, limit: nat): (b: Batch)
    ensures |b.success| == |b.snaps|
  {
    var b := ApplyBatch(env, FrontEnd(env, s, findings, limit), BatchOf(env, findings, limit));
    assert |b.success| == |b.snaps| by {
      SnapsMatch(env, FrontEnd(env, s, findings, limit), BatchOf(env, findings, limit));
    }
    b
  }

  function Run(env: Env, s: State, findings: seq<Finding>, limit: nat): State {
    Finish(env, Settle(env, Tried(env, s, findings, limit)))
  }
}
