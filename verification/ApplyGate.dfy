/** What the gate of an apply run lets through, and what becomes of everything else: the keys written out, and each
    refusal under the reason of the first key that fails. */
module ApplyGate {
  import opened Prelude
  import opened Sorting
  import opened AnchorApply
  import opened ApplySpec
  import opened ApplyProperties

  // ----- the keys

  /** The sub-checks of the gate, in their order. */
  ghost predicate Key(env: Env, f: Finding, i: nat) {
    if i == 0 then env.knownCheck(f.acceptanceCheck)
    else if i == 1 then f.recommendation == "implement"
    else if i == 2 then f.autoApplyEligible && f.autoApplyReason == "local_one_obvious_fix"
    else if i == 3 then
      && f.riskDomain != "tenant_isolation" && f.riskDomain != "security" && f.riskDomain != "auth_authorisation"
      && f.riskDomain != "idempotency" && f.riskDomain != "data_integrity" && f.riskDomain != "compliance"
    else if i == 4 then f.scopeSignal == "local"
    else if i == 5 then f.triageHint != "user-facing"
    else if i == 6 then f.triageHint != "technical-escalated"
    else !env.suppressed(f)
  }

  /** The reason a failing sub-check gives. */
  function Objection(i: nat): Reason {
    if i == 0 then InvalidAcceptanceCheck
    else if i == 1 then RecommendationNotImplement
    else if i == 2 then AutoApplyNotEligible
    else if i == 3 then CarveOutRiskDomain
    else if i == 4 then Architectural
    else if i == 5 then UserFacing
    else if i == 6 then TechnicalEscalated
    else Suppressed
  }

  ghost predicate AllKeys(env: Env, f: Finding) {
    forall i: nat :: i < 8 ==> Key(env, f, i)
  }

  /** `i` is the first sub-check that fails. */
  ghost predicate FailsFirst(env: Env, f: Finding, i: nat) {
    i < 8 && !Key(env, f, i) && forall j: nat :: j < i ==> Key(env, f, j)
  }

  /** It has not been applied inline, all keys fit, and its check does not touch production. */
  ghost predicate Cleared(env: Env, f: Finding) {
    !f.inlineApplied && AllKeys(env, f) && !env.production(f.acceptanceCheck)
  }

  lemma GateIs(env: Env, f: Finding)
    ensures AllKeys(env, f) ==> FourKeyGate(env, f) == None
    ensures forall i: nat :: FailsFirst(env, f, i) ==> FourKeyGate(env, f) == Some(Objection(i))
  {
    if AllKeys(env, f) {
      assert Key(env, f, 0) && Key(env, f, 1) && Key(env, f, 2) && Key(env, f, 3);
      assert Key(env, f, 4) && Key(env, f, 5) && Key(env, f, 6) && Key(env, f, 7);
    }
    forall i: nat | FailsFirst(env, f, i)
      ensures FourKeyGate(env, f) == Some(Objection(i))
    {
      FailureIs(env, f, i);
    }
  }

  lemma FailureIs(env: Env, f: Finding, i: nat)
    requires FailsFirst(env, f, i)
    ensures FourKeyGate(env, f) == Some(Objection(i))
  {
    assert i > 0 ==> Key(env, f, 0);
    assert i > 1 ==> Key(env, f, 1);
    assert i > 2 ==> Key(env, f, 2);
    assert i > 3 ==> Key(env, f, 3);
    assert i > 4 ==> Key(env, f, 4);
    assert i > 5 ==> Key(env, f, 5);
    assert i > 6 ==> Key(env, f, 6);
  }

  lemma {:induction false} SomeKeyFails(env: Env, f: Finding, n: nat) returns (i: nat)
    requires n <= 8 && exists j: nat :: j < n && !Key(env, f, j)
    ensures FailsFirst(env, f, i) && i < n
  {
    hide Key;
    if j: nat :| j < n - 1 && !Key(env, f, j) {
      i := SomeKeyFails(env, f, n - 1);
    } else {
      i := n - 1;
    }
  }

  lemma ClearedIsEligible(env: Env, f: Finding)
    ensures Cleared(env, f) <==> Eligible(env, f)
  {
    hide Key, FourKeyGate;
    GateIs(env, f);
    if !AllKeys(env, f) {
      var i := SomeKeyFails(env, f, 8);
    }
  }

  /** The gate's text wants a triage hint of "technical". Its code refuses two others, so that any further hint, or
      none, passes: the text holds of a finding that fails no other key exactly when its hint is one of the three. */
  lemma TriageTextIff(env: Env, f: Finding)
    requires forall i: nat :: i < 8 && i != 5 && i != 6 ==> Key(env, f, i)
    ensures (AllKeys(env, f) <==> f.triageHint == "technical")
      <==> f.triageHint == "technical" || f.triageHint == "user-facing" || f.triageHint == "technical-escalated"
  {
    if AllKeys(env, f) {
      assert Key(env, f, 5) && Key(env, f, 6);
    }
    forall i: nat | i < 8 && i != 5 && i != 6
      ensures Key(env, f, i)
    {
    }
  }

  // ----- what the run tries

  /** The manifest holds exactly the cleared findings that list a file. */
  lemma ManifestIff(env: Env, findings: seq<Finding>, f: Finding)
    ensures f in Manifest(env, findings) <==> f in findings && Cleared(env, f) && f.affectedFiles != []
  {
    hide Cleared, Eligible, Filter;
    var eligible := (g: Finding) => Eligible(env, g);
    ClearedIsEligible(env, f);
    FilterMembers(eligible, findings);
    FilterMembers(HasFiles, Filter(eligible, findings));
  }

  lemma {:induction false} KeptFrom(fs: seq<Finding>)
    ensures forall f :: f in Kept(fs) ==> f in fs
  {
    hide SharesFile;
    if fs != [] {
      KeptFrom(fs[..|fs| - 1]);
    }
  }

  /** Every finding of a batch is cleared and lists a file; the batch takes as many of the kept ones as it may. */
  lemma BatchCleared(env: Env, findings: seq<Finding>, limit: nat)
    ensures forall f :: f in BatchOf(env, findings, limit) ==> f in findings && Cleared(env, f) && f.affectedFiles != []
    ensures var kept := |Kept(Manifest(env, findings))|;
      |BatchOf(env, findings, limit)| == if kept <= limit then kept else limit
  {
    hide Cleared, Manifest, Kept;
    var manifest := Manifest(env, findings);
    KeptFrom(manifest);
    forall f | f in BatchOf(env, findings, limit)
      ensures f in findings && Cleared(env, f) && f.affectedFiles != []
    {
      assert f in Kept(manifest);
      ManifestIff(env, findings, f);
    }
  }

  /** Of findings that share a file the first in the list is kept: what is kept of a list does not depend on what
      comes behind it, and a finding is left out only for one kept before it. */
  lemma {:induction false} FirstIsKept(fs: seq<Finding>, n: nat)
    requires n < |fs|
    ensures Kept(fs[..n]) <= Kept(fs[..n + 1]) <= Kept(fs)
    ensures if exists k, p :: k in Kept(fs[..n]) && p in k.affectedFiles && p in fs[n].affectedFiles
      then Kept(fs[..n + 1]) == Kept(fs[..n])
      else Kept(fs[..n + 1]) == Kept(fs[..n]) + [fs[n]]
    decreases |fs|
  {
    hide SharesFile;
    SharedMeans(Kept(fs[..n]), fs[n]);
    assert fs[..n + 1][..n] == fs[..n] && fs[..n + 1][n] == fs[n];
    if n + 1 < |fs| {
      var front := fs[..|fs| - 1];
      FirstIsKept(front, n);
      assert front[..n + 1] == fs[..n + 1] && front[..n] == fs[..n];
    } else {
      assert fs[..n + 1] == fs;
    }
  }

  lemma SharedMeans(keep: seq<Finding>, f: Finding)
    ensures (exists k :: k in keep && SharesFile(k, f)) <==> exists k, p :: k in keep && p in k.affectedFiles && p in f.affectedFiles
  {
    if k, p :| k in keep && p in k.affectedFiles && p in f.affectedFiles {
      assert SharesFile(k, f);
    }
  }

  /** No file is listed by two kept findings, and what is left out lists a file of a kept one. */
  lemma KeptShareNothing(fs: seq<Finding>)
    ensures forall i, j, p :: 0 <= i < j < |Kept(fs)| ==> !(p in Kept(fs)[i].affectedFiles && p in Kept(fs)[j].affectedFiles)
    ensures forall f :: f in Overlapping(fs) ==> exists k, p :: k in Kept(fs) && p in k.affectedFiles && p in f.affectedFiles
  {
    hide Kept, Overlapping;
    KeptIsMaximal(fs);
    forall i, j, p | 0 <= i < j < |Kept(fs)|
      ensures !(p in Kept(fs)[i].affectedFiles && p in Kept(fs)[j].affectedFiles)
    {
      assert !SharesFile(Kept(fs)[i], Kept(fs)[j]);
    }
    forall f | f in Overlapping(fs)
      ensures exists k, p :: k in Kept(fs) && p in k.affectedFiles && p in f.affectedFiles
    {
      SharedMeans(Kept(fs), f);
    }
  }

  lemma {:induction false} SubsequenceMembers(xs: seq<Finding>, ys: seq<Finding>, f: Finding)
    requires Subsequence(xs, ys) && f in xs
    ensures f in ys
    decreases |ys|
  {
    if xs[|xs| - 1] == ys[|ys| - 1] && Subsequence(xs[..|xs| - 1], ys[..|ys| - 1]) {
      if f != xs[|xs| - 1] {
        SubsequenceMembers(xs[..|xs| - 1], ys[..|ys| - 1], f);
      }
    } else {
      SubsequenceMembers(xs, ys[..|ys| - 1], f);
    }
  }

  lemma {:induction false} WalkBackPrefix(env: Env, b: Batch)
    requires |b.success| == |b.snaps|
    ensures WalkBack(env, b).success <= b.success
    decreases |b.success|
  {
    hide Restored, Surface;
    if b.success != [] {
      var n := |b.success| - 1;
      var files := Restored(b.s.files, b.snaps[n]);
      var s := Surface(b.s.(files := files, verifyCalls := b.s.verifyCalls + 1),
                       b.success[n], CumulativeVerifyFailed, Some(CumulativeFailed), Failed, false);
      var rest := Batch(s, b.success[..n], b.snaps[..n]);
      if !env.verify(b.s.verifyCalls, files) {
        WalkBackPrefix(env, rest);
      }
    }
  }

  /** Whatever a run commits was cleared. */
  lemma CommitsCleared(env: Env, s: State, findings: seq<Finding>, limit: nat)
    requires Ledger(s)
    ensures s.commits <= Run(env, s, findings, limit).commits
    ensures forall c, f :: c in Run(env, s, findings, limit).commits[|s.commits|..] && f in c.findings ==>
      f in findings && Cleared(env, f) && f.affectedFiles != []
  {
    hide Ledger, Cleared, Run, BatchOf, Survivors;
    RunCommits(env, s, findings, limit);
    forall f | f in Survivors(env, s, findings, limit)
      ensures f in findings && Cleared(env, f) && f.affectedFiles != []
    {
      SurvivorInBatch(env, s, findings, limit, f);
      BatchCleared(env, findings, limit);
    }
  }

  lemma SurvivorInBatch(env: Env, s: State, findings: seq<Finding>, limit: nat, f: Finding)
    requires f in Survivors(env, s, findings, limit)
    ensures f in BatchOf(env, findings, limit)
  {
    hide WalkBack, FrontEnd, ApplyBatch, BatchOf;
    var b := Tried(env, s, findings, limit);
    WalkBackPrefix(env, b.(s := b.s.(verifyCalls := b.s.verifyCalls + 1)));
    assert Survivors(env, s, findings, limit) <= b.success;
    SuccessInOrder(env, FrontEnd(env, s, findings, limit), BatchOf(env, findings, limit));
    SubsequenceMembers(b.success, BatchOf(env, findings, limit), f);
  }
}
