/** One finding's edits against the file map: applying them, snapshotting, rolling back. */
module AnchorApply {
  import opened Prelude
  import opened TextEdits

  type Path = string
  type Files = map<Path, string>

  datatype Edit = Edit(file: string, anchor: string, replacement: string)

  datatype Finding = Finding(
    id: string,
    acceptanceCheck: string,
    inlineApplied: bool,
    recommendation: string,
    autoApplyEligible: bool,
    autoApplyReason: string,
    riskDomain: string,
    scopeSignal: string,
    triageHint: string,
    affectedFiles: seq<string>,
    edits: seq<Edit>)

  /** What the coordinator asks its surroundings. `verify` and `accept` also see how often they
      were asked before, so that a check may change its mind; neither changes the files. */
  datatype Env = Env(
    resolve: string -> Path,
    inside: Path -> bool,
    verify: (nat, Files) -> bool,
    accept: (nat, string, Files) -> bool,
    production: string -> bool,
    knownCheck: string -> bool,
    suppressed: Finding -> bool,
    commitWorks: bool)

  datatype ApplyError = AnchorNotFound | AnchorNotUnique

  /** Why an edit cannot be applied, if it cannot. */
  function Refusal(env: Env, files: Files, e: Edit): Option<ApplyError> {
    var p := env.resolve(e.file);
    if !env.inside(p) || p !in files then Some(AnchorNotFound)
    else if e.anchor == "" || Occurrences(files[p], e.anchor, 0) == 0 then Some(AnchorNotFound)
    else if Occurrences(files[p], e.anchor, 0) > 1 then Some(AnchorNotUnique)
    else None
  }

  function FirstRefusal(env: Env, files: Files, edits: seq<Edit>): Option<ApplyError> {
    if edits == [] then None
    else
      var earlier := FirstRefusal(env, files, edits[..|edits| - 1]);
      if earlier.Some? then earlier else Refusal(env, files, edits[|edits| - 1])
  }

  /** The new content an edit writes, computed from the files as they were before the finding. */
  function NewContent(env: Env, files: Files, e: Edit): string {
    var p := env.resolve(e.file);
    if p in files then Replace(files[p], e.anchor, e.replacement) else ""
  }

  /** The file map after the writes of `edits`, in order. */
  function Written(env: Env, files: Files, edits: seq<Edit>): Files {
    if edits == [] then files
    else
      var e := edits[|edits| - 1];
      Written(env, files, edits[..|edits| - 1])[env.resolve(e.file) := NewContent(env, files, e)]
  }

  /** No later edit of the list names the file of the `i`-th. */
  ghost predicate LastFor(env: Env, edits: seq<Edit>, i: nat)
    requires i < |edits|
  {
    forall j :: i < j < |edits| ==> env.resolve(edits[j].file) != env.resolve(edits[i].file)
  }

  ghost predicate Touched(env: Env, edits: seq<Edit>, p: Path) {
    exists i :: 0 <= i < |edits| && env.resolve(edits[i].file) == p
  }

  /** The last edit of a file wins, and it was computed from the original content. */
  lemma {:induction false} LastEditWins(env: Env, files: Files, edits: seq<Edit>)
    ensures forall i :: 0 <= i < |edits| && LastFor(env, edits, i) ==>
      env.resolve(edits[i].file) in Written(env, files, edits)
      && Written(env, files, edits)[env.resolve(edits[i].file)] == NewContent(env, files, edits[i])
    ensures forall p :: !Touched(env, edits, p) ==>
      (p in Written(env, files, edits) <==> p in files) && (p in files ==> Written(env, files, edits)[p] == files[p])
  {
    hide Touched, NewContent;
    if edits == [] {
      assert forall p :: p in Written(env, files, edits) <==> p in files;
    } else {
      var front, e := edits[..|edits| - 1], edits[|edits| - 1];
      LastEditWins(env, files, front);
      forall i | 0 <= i < |edits| - 1 && LastFor(env, edits, i)
        ensures env.resolve(edits[i].file) in Written(env, files, edits)
        ensures Written(env, files, edits)[env.resolve(edits[i].file)] == NewContent(env, files, edits[i])
      {
        assert edits[|edits| - 1] == e;
        assert front[i] == edits[i] && LastFor(env, front, i);
      }
      forall p | !Touched(env, edits, p)
        ensures !Touched(env, front, p) && p != env.resolve(e.file)
      {
        TouchedFront(env, edits, p);
      }
    }
  }

  lemma TouchedFront(env: Env, edits: seq<Edit>, p: Path)
    requires edits != []
    ensures Touched(env, edits, p) <==> Touched(env, edits[..|edits| - 1], p) || p == env.resolve(edits[|edits| - 1].file)
  {
    var front := edits[..|edits| - 1];
    if i :| 0 <= i < |front| && env.resolve(front[i].file) == p {
      assert env.resolve(edits[i].file) == p;
    }
    assert env.resolve(edits[|edits| - 1].file) == p ==> Touched(env, edits, p);
  }

  lemma {:induction false} LastForExists(env: Env, edits: seq<Edit>, p: Path) returns (i: nat)
    requires Touched(env, edits, p)
    ensures i < |edits| && env.resolve(edits[i].file) == p && LastFor(env, edits, i)
  {
    i := |edits| - 1;
    while env.resolve(edits[i].file) != p
      invariant i < |edits|
      invariant exists k :: 0 <= k <= i && env.resolve(edits[k].file) == p
      invariant forall j :: i < j < |edits| ==> env.resolve(edits[j].file) != p
      decreases i
    {
      i := i - 1;
    }
  }

  /** After the writes, the file of the `i`-th edit is what that edit makes of the original. */
  ghost predicate Lands(env: Env, files: Files, edits: seq<Edit>, i: nat)
    requires i < |edits|
  {
    var p := env.resolve(edits[i].file);
    p in Written(env, files, edits) && Written(env, files, edits)[p] == NewContent(env, files, edits[i])
  }

  /** Two edits of one file make the same of it. */
  ghost predicate Agree(env: Env, files: Files, a: Edit, b: Edit) {
    env.resolve(a.file) == env.resolve(b.file) ==> NewContent(env, files, a) == NewContent(env, files, b)
  }

  /** The edit that decides about the file of the `i`-th. */
  lemma Decider(env: Env, files: Files, edits: seq<Edit>, i: nat) returns (j: nat)
    requires i < |edits|
    ensures j < |edits| && env.resolve(edits[j].file) == env.resolve(edits[i].file)
    ensures Lands(env, files, edits, i) <==> NewContent(env, files, edits[i]) == NewContent(env, files, edits[j])
  {
    hide NewContent, Written;
    var p := env.resolve(edits[i].file);
    assert Touched(env, edits, p);
    j := LastForExists(env, edits, p);
    LastEditWins(env, files, edits);
  }

  /** Every edit of a finding lands if and only if no two of them make different things of one file. */
  lemma EveryEditLandsIff(env: Env, files: Files, edits: seq<Edit>)
    ensures (forall i :: 0 <= i < |edits| ==> Lands(env, files, edits, i))
      <==> (forall i, j :: 0 <= i < j < |edits| ==> Agree(env, files, edits[i], edits[j]))
  {
    hide NewContent, Written, Lands;
    if forall i, j :: 0 <= i < j < |edits| ==> Agree(env, files, edits[i], edits[j]) {
      forall i | 0 <= i < |edits|
        ensures Lands(env, files, edits, i)
      {
        var k := Decider(env, files, edits, i);
        assert i < k ==> Agree(env, files, edits[i], edits[k]);
        assert k < i ==> Agree(env, files, edits[k], edits[i]);
      }
    }
    if forall i :: 0 <= i < |edits| ==> Lands(env, files, edits, i) {
      forall i, j | 0 <= i < j < |edits|
        ensures Agree(env, files, edits[i], edits[j])
      {
        LandingAgrees(env, files, edits, i, j);
      }
    }
  }

  lemma LandingAgrees(env: Env, files: Files, edits: seq<Edit>, i: nat, j: nat)
    requires i < |edits| && j < |edits| && Lands(env, files, edits, i) && Lands(env, files, edits, j)
    ensures Agree(env, files, edits[i], edits[j])
  {
    hide NewContent, Written;
  }

  /** In particular when they edit distinct files. */
  lemma DistinctFilesLand(env: Env, files: Files, edits: seq<Edit>)
    requires forall i, j :: 0 <= i < j < |edits| ==> env.resolve(edits[i].file) != env.resolve(edits[j].file)
    ensures forall i :: 0 <= i < |edits| ==> Lands(env, files, edits, i)
  {
    hide NewContent, Written, Lands;
    EveryEditLandsIff(env, files, edits);
  }

  /** Two edits of one file that are both accepted, the first of which is lost. */
  lemma EarlierEditLost(env: Env)
    requires env.resolve("f.ts") == "f.ts" && env.inside("f.ts")
    ensures var files, edits := map["f.ts" := "ab"], [Edit("f.ts", "a", "x"), Edit("f.ts", "b", "y")];
      && FirstRefusal(env, files, edits).None?
      && Written(env, files, edits) == map["f.ts" := "ay"]
      && !Lands(env, files, edits, 0)
  {
    var files: Files, edits := map["f.ts" := "ab"], [Edit("f.ts", "a", "x"), Edit("f.ts", "b", "y")];
    OneAndOne();
    hide Occurrences, Replace;
    NoRefusal(env, files, edits);
    assert edits[..1] == [edits[0]] && edits[..1][..0] == [];
    assert Written(env, files, []) == files;
    assert Written(env, files, edits[..1]) == map["f.ts" := "xb"];
    assert NewContent(env, files, edits[0]) == "xb";
  }

  lemma OneAndOne()
    ensures Occurrences("ab", "a", 0) == 1 && Replace("ab", "a", "x") == "xb"
    ensures Occurrences("ab", "b", 0) == 1 && Replace("ab", "b", "y") == "ay"
  {
    assert "ab"[0..1] == "a" && "ab"[1..2] == "b";
    assert OccursAt("ab", "a", 0) && !OccursAt("ab", "a", 1);
    assert IndexOf("ab", "a", 0) == Some(0) && IndexOf("ab", "a", 1).None?;
    assert !OccursAt("ab", "b", 0) && OccursAt("ab", "b", 1);
    assert IndexOf("ab", "b", 0) == Some(1) && IndexOf("ab", "b", 2).None?;
  }

  lemma {:induction false} NoRefusal(env: Env, files: Files, edits: seq<Edit>)
    ensures FirstRefusal(env, files, edits).None? <==> forall i :: 0 <= i < |edits| ==> Refusal(env, files, edits[i]).None?
  {
    hide Refusal;
    if edits != [] {
      NoRefusal(env, files, edits[..|edits| - 1]);
    }
  }

  // ----- snapshots

  /** `None` records a file that was not there. */
  datatype Snapshot = Snapshot(path: Path, original: Option<string>)

  function Snap(files: Files, paths: seq<Path>): seq<Snapshot> {
    if paths == [] then []
    else
      var p := paths[|paths| - 1];
      Snap(files, paths[..|paths| - 1]) + [Snapshot(p, if p in files then Some(files[p]) else None)]
  }

  function Restored(files: Files, snaps: seq<Snapshot>): Files {
    if snaps == [] then files
    else
      var s := snaps[|snaps| - 1];
      var before := Restored(files, snaps[..|snaps| - 1]);
      if s.original.Some? then before[s.path := s.original.value] else before
  }

  /** The affected paths a finding has snapshotted: resolved, and inside the project. */
  function AffectedPaths(env: Env, listed: seq<string>): seq<Path> {
    if listed == [] then []
    else
      var p := env.resolve(listed[|listed| - 1]);
      AffectedPaths(env, listed[..|listed| - 1]) + if env.inside(p) then [p] else []
  }

  lemma {:induction false} RestoredAt(before: Files, now: Files, paths: seq<Path>)
    ensures var r := Restored(now, Snap(before, paths)); forall p ::
      && (p in r <==> p in now || (p in paths && p in before))
      && (p in r ==> r[p] == if p in paths && p in before then before[p] else now[p])
  {
    if paths != [] {
      var front, q := paths[..|paths| - 1], paths[|paths| - 1];
      assert paths == front + [q];
      RestoredAt(before, now, front);
      assert Snap(before, paths)[..|paths| - 1] == Snap(before, front) by {
        SnapLength(before, front);
      }
      SnapLength(before, paths);
    }
  }

  lemma {:induction false} SnapLength(files: Files, paths: seq<Path>)
    ensures |Snap(files, paths)| == |paths|
  {
    if paths != [] {
      SnapLength(files, paths[..|paths| - 1]);
    }
  }

  /** Every file the edits really change is snapshotted: a file is changed when the last edit
      naming it replaces its anchor by something else. */
  ghost predicate Covered(env: Env, f: Finding) {
    forall i :: 0 <= i < |f.edits| && LastFor(env, f.edits, i) && f.edits[i].anchor != f.edits[i].replacement
      ==> env.resolve(f.edits[i].file) in AffectedPaths(env, f.affectedFiles)
  }

  lemma AppliedAnchor(env: Env, files: Files, e: Edit)
    requires Refusal(env, files, e).None?
    ensures env.resolve(e.file) in files
    ensures NewContent(env, files, e) == files[env.resolve(e.file)] <==> e.anchor == e.replacement
  {
    var text := files[env.resolve(e.file)];
    assert IndexOf(text, e.anchor, 0).Some?;
    ReplaceChanges(text, e.anchor, e.replacement);
  }

  /** Rolling a finding back gives the file map before it, exactly when its changed files are all covered. */
  lemma RollbackExact(env: Env, files: Files, f: Finding)
    requires FirstRefusal(env, files, f.edits).None?
    ensures Restored(Written(env, files, f.edits), Snap(files, AffectedPaths(env, f.affectedFiles))) == files
            <==> Covered(env, f)
  {
    hide Refusal, NewContent, LastFor;
    var now, paths := Written(env, files, f.edits), AffectedPaths(env, f.affectedFiles);
    var back := Restored(now, Snap(files, paths));
    NoRefusal(env, files, f.edits);
    RestoredAt(files, now, paths);
    LastEditWins(env, files, f.edits);
    forall i | 0 <= i < |f.edits|
      ensures env.resolve(f.edits[i].file) in files
      ensures NewContent(env, files, f.edits[i]) == files[env.resolve(f.edits[i].file)] <==> f.edits[i].anchor == f.edits[i].replacement
    {
      AppliedAnchor(env, files, f.edits[i]);
    }
    if Covered(env, f) {
      forall p
        ensures (p in back <==> p in files) && (p in files ==> back[p] == files[p])
      {
        if Touched(env, f.edits, p) {
          var i := LastForExists(env, f.edits, p);
        }
      }
      assert back == files;
    }
    if back == files {
      forall i | 0 <= i < |f.edits| && LastFor(env, f.edits, i) && f.edits[i].anchor != f.edits[i].replacement
        ensures env.resolve(f.edits[i].file) in paths
      {
        assert now[env.resolve(f.edits[i].file)] != files[env.resolve(f.edits[i].file)];
      }
    }
  }

  /** A finding that edits a file it does not list is not rolled back. */
  lemma UncoveredLeavesEdits(env: Env, f: Finding)
    requires env.resolve("a.ts") == "a.ts" && env.inside("a.ts") && env.resolve("b.ts") == "b.ts"
    requires f.affectedFiles == ["b.ts"] && f.edits == [Edit("a.ts", "x", "y")]
    ensures var files := map["a.ts" := "x"];
      && FirstRefusal(env, files, f.edits).None?
      && Restored(Written(env, files, f.edits), Snap(files, AffectedPaths(env, f.affectedFiles))) == map["a.ts" := "y"]
  {
    var files: Files := map["a.ts" := "x"];
    assert OccursAt("x", "x", 0);
    assert IndexOf("x", "x", 0) == Some(0);
    assert IndexOf("x", "x", 1).None?;
    assert Occurrences("x", "x", 0) == 1 + Occurrences("x", "x", 1);
    assert f.edits[..0] == [];
    assert Replace("x", "x", "y") == "y";
    hide Occurrences, IndexOf, OccursAt, Replace;
    assert Written(env, files, f.edits[..0]) == files;
    assert FirstRefusal(env, files, f.edits[..0]).None?;
    assert f.affectedFiles[..0] == [];
    RestoredAt(files, Written(env, files, f.edits), AffectedPaths(env, f.affectedFiles));
  }

  // ----- a batch

  /** The file map after the edits of several findings, in order. */
  function AppliedAll(env: Env, files: Files, fs: seq<Finding>): Files {
    if fs == [] then files
    else Written(env, AppliedAll(env, files, fs[..|fs| - 1]), fs[|fs| - 1].edits)
  }

  lemma AppliedSnoc(env: Env, files: Files, fs: seq<Finding>, f: Finding)
    ensures AppliedAll(env, files, fs + [f]) == Written(env, AppliedAll(env, files, fs), f.edits)
  {
    assert (fs + [f])[..|fs|] == fs;
  }
}
