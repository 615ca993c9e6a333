/** The anchor generator (`generateArchitectureAnchors`): what it inserts, and that it inserts nothing twice. */
module Generator {
  import opened Markdown
  import opened Slugs

  /** `flags` marks the lines of `out` that were inserted; `added` lists their ids. */
  datatype Generated = Generated(out: seq<Line>, flags: seq<bool>, used: set<string>, added: seq<string>, already: nat)

  /** The line carries an explicit anchor outside code, so a heading right below is anchored. */
  predicate Anchors(before: seq<Line>) {
    before != [] && !Mask(before)[|before| - 1] && LineIds(before[|before| - 1]) != []
  }

  /** A level-two heading outside code. */
  predicate IsLevel2(before: seq<Line>, line: Line) {
    !Hit(StateAfter(before), line) && line.Heading? && line.level == 2
  }

  predicate WantsAnchor(before: seq<Line>, line: Line) {
    IsLevel2(before, line) && !Anchors(before) && line.slug != ""
  }

  /** The id a heading is given: its slug with the least free number. */
  ghost predicate IdFor(slug: string, used: set<string>, id: string) {
    exists k: nat :: LeastFree(slug, used, k) && id == Suffixed(slug, k)
  }

  /** A level-two heading that is anchored as it stands. */
  ghost function Anchored(before: seq<Line>, line: Line): nat {
    if IsLevel2(before, line) && Anchors(before) then 1 else 0
  }

  /** `g` ends in a new anchor and the heading `line`. */
  ghost predicate EndsInserted(line: Line, g: Generated) {
    && line.Heading? && g.added != [] && |g.out| == |g.flags| >= 2
    && var id, n := g.added[|g.added| - 1], |g.out|;
    && id in g.used && IdFor(line.slug, g.used - {id}, id)
    && g.out[n - 2..] == [Anchor(id), line] && g.flags[n - 2..] == [true, false]
  }

  function BeforeInserted(g: Generated): Generated
    requires g.added != [] && |g.out| == |g.flags| >= 2
  {
    var id, n := g.added[|g.added| - 1], |g.out|;
    Generated(g.out[..n - 2], g.flags[..n - 2], g.used - {id}, g.added[..|g.added| - 1], g.already)
  }

  /** `g` ends in `line` as it stood, `anchored` of them counted. */
  predicate EndsCopied(line: Line, g: Generated, anchored: nat) {
    && |g.out| == |g.flags| >= 1 && g.already >= anchored
    && g.out[|g.out| - 1] == line && !g.flags[|g.out| - 1]
  }

  function BeforeCopied(g: Generated, anchored: nat): Generated
    requires |g.out| == |g.flags| >= 1 && g.already >= anchored
  {
    var n := |g.out|;
    Generated(g.out[..n - 1], g.flags[..n - 1], g.used, g.added, g.already - anchored)
  }

  /** `g` is what the generator makes of `lines`, `seed` being the ids it may not use. */
  ghost predicate Generates(lines: seq<Line>, seed: set<string>, g: Generated) {
    |g.out| == |g.flags| &&
    if lines == [] then g == Generated([], [], seed, [], 0)
    else
      var before, line := lines[..|lines| - 1], lines[|lines| - 1];
      if WantsAnchor(before, line) then EndsInserted(line, g) && Generates(before, seed, BeforeInserted(g))
      else EndsCopied(line, g, Anchored(before, line)) && Generates(before, seed, BeforeCopied(g, Anchored(before, line)))
  }

  /** One line unfolded. */
  lemma GeneratesSnoc(before: seq<Line>, line: Line, seed: set<string>, g: Generated)
    ensures WantsAnchor(before, line) ==> (Generates(before + [line], seed, g) <==>
      EndsInserted(line, g) && Generates(before, seed, BeforeInserted(g)))
    ensures !WantsAnchor(before, line) ==> (Generates(before + [line], seed, g) <==>
      EndsCopied(line, g, Anchored(before, line)) && Generates(before, seed, BeforeCopied(g, Anchored(before, line))))
  {
    hide WantsAnchor, Anchored, IdFor;
    assert (before + [line])[..|before|] == before;
  }

  lemma GeneratesInsert(before: seq<Line>, line: Line, seed: set<string>, g: Generated, id: string)
    requires Generates(before, seed, g) && WantsAnchor(before, line) && IdFor(line.slug, g.used, id)
    ensures Generates(before + [line], seed,
      Generated(g.out + [Anchor(id), line], g.flags + [true, false], g.used + {id}, g.added + [id], g.already))
  {
    var now := Generated(g.out + [Anchor(id), line], g.flags + [true, false], g.used + {id}, g.added + [id], g.already);
    Lengths(before, seed, g);
    FreeId(line.slug, g.used, id);
    GeneratesSnoc(before, line, seed, now);
    hide Generates, WantsAnchor, IdFor;
    assert now.used - {id} == g.used;
    assert BeforeInserted(now) == g;
  }

  lemma FreeId(slug: string, used: set<string>, id: string)
    requires IdFor(slug, used, id)
    ensures id !in used
  {
  }

  lemma Lengths(lines: seq<Line>, seed: set<string>, g: Generated)
    requires Generates(lines, seed, g)
    ensures |g.out| == |g.flags|
  {
  }

  lemma GeneratesKeep(before: seq<Line>, line: Line, seed: set<string>, g: Generated)
    requires Generates(before, seed, g) && !WantsAnchor(before, line)
    ensures Generates(before + [line], seed,
      Generated(g.out + [line], g.flags + [false], g.used, g.added, g.already + Anchored(before, line)))
  {
    var now := Generated(g.out + [line], g.flags + [false], g.used, g.added, g.already + Anchored(before, line));
    Lengths(before, seed, g);
    GeneratesSnoc(before, line, seed, now);
    hide Generates, WantsAnchor, Anchored;
    assert BeforeCopied(now, Anchored(before, line)) == g;
  }

  /** The loop body: what is emitted for one line, and by how much the counters grow. */
  method PlaceLine(line: Line, level2: bool, anchored: bool, used: set<string>,
                   ghost before: seq<Line>, ghost seed: set<string>, ghost g: Generated)
    returns (emitted: seq<Line>, used': set<string>, added: nat, already: nat, ghost g': Generated)
    requires Generates(before, seed, g) && used == g.used
    requires level2 == IsLevel2(before, line) && anchored == Anchors(before)
    ensures Generates(before + [line], seed, g')
    ensures g'.out == g.out + emitted && g'.used == used'
    ensures |g'.added| == |g.added| + added && g'.already == g.already + already
  {
    hide Generates, Suffixed, IdFor, IsLevel2, Anchors;
    if level2 && !anchored && line.Heading? && line.slug != "" {
      var k := SearchFree(line.slug, used, 0);
      IdForLeast(line.slug, used, k);
      var candidate := Suffixed(line.slug, k);
      GeneratesInsert(before, line, seed, g, candidate);
      g' := Generated(g.out + [Anchor(candidate), line], g.flags + [true, false], g.used + {candidate}, g.added + [candidate], g.already);
      return [Anchor(candidate), line], used + {candidate}, 1, 0, g';
    }
    HeadingIfLevel2(before, line);
    GeneratesKeep(before, line, seed, g);
    already := if level2 && anchored then 1 else 0;
    g' := Generated(g.out + [line], g.flags + [false], g.used, g.added, g.already + already);
    return [line], used, 0, already, g';
  }

  lemma HeadingIfLevel2(before: seq<Line>, line: Line)
    ensures IsLevel2(before, line) ==> line.Heading?
  {
  }

  method GenerateArchitectureAnchors(lines: seq<Line>) returns (content: seq<Line>, added: nat, alreadyAnchored: nat)
    ensures exists g ::
      && Generates(lines, ExplicitAnchors(lines, Mask(lines)), g)
      && content == g.out && added == |g.added| && alreadyAnchored == g.already
  {
    var masked := BuildCodeBlockMask(lines);
    var used := CollectExplicit(lines, masked);
    ghost var seed := used;
    content := [];
    added, alreadyAnchored := 0, 0;
    ghost var g := Generated([], [], used, [], 0);
    StartsEmpty(lines, seed);
    hide Generates, IsLevel2, Anchors, ExplicitAnchors, Mask;
    for i := 0 to |lines|
      invariant Generates(lines[..i], seed, g)
      invariant content == g.out && used == g.used && added == |g.added| && alreadyAnchored == g.already
    {
      Tests(lines, i);
      assert lines[..i + 1] == lines[..i] + [lines[i]];
      var level2 := !masked[i] && lines[i].Heading? && lines[i].level == 2;
      var anchored := i > 0 && !masked[i - 1] && |LineIds(lines[i - 1])| > 0;
      var emitted, more, already;
      emitted, used, more, already, g := PlaceLine(lines[i], level2, anchored, used, lines[..i], seed, g);
      content, added, alreadyAnchored := content + emitted, added + more, alreadyAnchored + already;
    }
    assert lines[..|lines|] == lines;
  }

  lemma StartsEmpty(lines: seq<Line>, seed: set<string>)
    ensures Generates(lines[..0], seed, Generated([], [], seed, [], 0))
  {
    assert lines[..0] == [];
  }

  /** The loop's tests on the mask decide the same as the specification's on the prefix. */
  lemma Tests(lines: seq<Line>, i: nat)
    requires i < |lines|
    ensures IsLevel2(lines[..i], lines[i]) <==> !Mask(lines)[i] && lines[i].Heading? && lines[i].level == 2
    ensures Anchors(lines[..i]) <==> i > 0 && !Mask(lines)[i - 1] && |LineIds(lines[i - 1])| > 0
  {
    MaskAt(lines, i);
    PreviousMask(lines, i);
  }

  lemma IdForLeast(slug: string, used: set<string>, k: nat)
    requires LeastFree(slug, used, k)
    ensures IdFor(slug, used, Suffixed(slug, k))
  {
  }

  lemma PreviousMask(lines: seq<Line>, i: nat)
    requires 0 < i < |lines| || i == 0
    requires i <= |lines|
    ensures i > 0 ==> Mask(lines[..i])[i - 1] == Mask(lines)[i - 1]
  {
    if i > 0 {
      MaskAt(lines, i - 1);
      MaskAt(lines[..i], i - 1);
      assert lines[..i][..i - 1] == lines[..i - 1];
    }
  }

  // ----- what the output is

  /** The lines that were not inserted. */
  function Stripped(out: seq<Line>, flags: seq<bool>): seq<Line>
    requires |out| == |flags|
  {
    if out == [] then []
    else
      var n := |out| - 1;
      Stripped(out[..n], flags[..n]) + if flags[n] then [] else [out[n]]
  }

  /** The lines that were. */
  function Inserted(out: seq<Line>, flags: seq<bool>): seq<Line>
    requires |out| == |flags|
  {
    if out == [] then []
    else
      var n := |out| - 1;
      Inserted(out[..n], flags[..n]) + if flags[n] then [out[n]] else []
  }

  function AnchorLines(ids: seq<string>): seq<Line> {
    if ids == [] then [] else AnchorLines(ids[..|ids| - 1]) + [Anchor(ids[|ids| - 1])]
  }

  lemma NoSplit()
    ensures Stripped([], []) == [] && Inserted([], []) == []
  {
  }

  lemma SplitSnoc(out: seq<Line>, flags: seq<bool>, line: Line, flag: bool)
    requires |out| == |flags|
    ensures Stripped(out + [line], flags + [flag]) == Stripped(out, flags) + if flag then [] else [line]
    ensures Inserted(out + [line], flags + [flag]) == Inserted(out, flags) + if flag then [line] else []
  {
    assert (out + [line])[..|out|] == out && (flags + [flag])[..|out|] == flags;
  }

  lemma LastTwo<T>(s: seq<T>, a: T, b: T)
    requires |s| >= 2 && s[|s| - 2..] == [a, b]
    ensures s == s[..|s| - 2] + [a] + [b]
  {
    assert s == s[..|s| - 2] + s[|s| - 2..];
  }

  lemma LastOne<T>(s: seq<T>)
    requires s != []
    ensures s == s[..|s| - 1] + [s[|s| - 1]]
  {
  }

  /** What the generator's state was before an inserted anchor and its heading. */
  lemma LastInserted(before: seq<Line>, line: Line, seed: set<string>, g: Generated) returns (rest: Generated)
    requires Generates(before + [line], seed, g) && WantsAnchor(before, line)
    ensures Generates(before, seed, rest) && |rest.out| == |rest.flags| && rest.already == g.already
    ensures g.added != [] && g.added == rest.added + [g.added[|g.added| - 1]]
    ensures g.added[|g.added| - 1] !in rest.used && g.used == rest.used + {g.added[|g.added| - 1]}
    ensures g.out == rest.out + [Anchor(g.added[|g.added| - 1])] + [line] && g.flags == rest.flags + [true] + [false]
  {
    GeneratesSnoc(before, line, seed, g);
    hide Generates, IdFor, WantsAnchor;
    rest := BeforeInserted(g);
    LastTwo(g.out, Anchor(g.added[|g.added| - 1]), line);
    LastTwo(g.flags, true, false);
    LastOne(g.added);
  }

  /** And before any other line. */
  lemma LastCopied(before: seq<Line>, line: Line, seed: set<string>, g: Generated) returns (rest: Generated)
    requires Generates(before + [line], seed, g) && !WantsAnchor(before, line)
    ensures Generates(before, seed, rest) && |rest.out| == |rest.flags|
    ensures g.added == rest.added && g.used == rest.used && g.out == rest.out + [line] && g.flags == rest.flags + [false]
    ensures g.already == rest.already + Anchored(before, line)
  {
    GeneratesSnoc(before, line, seed, g);
    hide Generates, WantsAnchor, Anchored;
    rest := BeforeCopied(g, Anchored(before, line));
    LastOne(g.out);
    LastOne(g.flags);
  }

  /** Unfolds one line of `Generates`. */
  lemma LastStep(lines: seq<Line>, seed: set<string>, g: Generated) returns (rest: Generated)
    requires lines != [] && Generates(lines, seed, g)
    ensures var before, line := lines[..|lines| - 1], lines[|lines| - 1];
      && Generates(before, seed, rest)
      && (WantsAnchor(before, line) ==>
            && g.added != [] && g.added == rest.added + [g.added[|g.added| - 1]]
            && g.added[|g.added| - 1] !in rest.used && g.used == rest.used + {g.added[|g.added| - 1]}
            && g.out == rest.out + [Anchor(g.added[|g.added| - 1])] + [line] && g.flags == rest.flags + [true] + [false]
            && g.already == rest.already)
      && (!WantsAnchor(before, line) ==>
            && g.added == rest.added && g.used == rest.used && g.out == rest.out + [line] && g.flags == rest.flags + [false]
            && g.already == rest.already + Anchored(before, line))
      && |rest.out| == |rest.flags|
  {
    hide Generates, WantsAnchor, Anchored;
    var before, line := lines[..|lines| - 1], lines[|lines| - 1];
    assert lines == before + [line];
    if WantsAnchor(before, line) {
      rest := LastInserted(before, line, seed, g);
    } else {
      rest := LastCopied(before, line, seed, g);
    }
  }

  lemma NoLines(seed: set<string>, g: Generated)
    requires Generates([], seed, g)
    ensures g == Generated([], [], seed, [], 0)
  {
  }

  /** Deleting the inserted lines gives back the document, and the inserted lines are the new anchors, in order. */
  lemma {:induction false} OnlyInserts(lines: seq<Line>, seed: set<string>, g: Generated)
    requires Generates(lines, seed, g)
    ensures |g.out| == |g.flags| && Stripped(g.out, g.flags) == lines && Inserted(g.out, g.flags) == AnchorLines(g.added)
  {
    hide Generates, Stripped, Inserted, WantsAnchor;
    if lines == [] {
      NoLines(seed, g);
      NoSplit();
    } else {
      var before, line := lines[..|lines| - 1], lines[|lines| - 1];
      var rest := LastStep(lines, seed, g);
      OnlyInserts(before, seed, rest);
      if WantsAnchor(before, line) {
        var id := g.added[|g.added| - 1];
        SplitSnoc(rest.out, rest.flags, Anchor(id), true);
        SplitSnoc(rest.out + [Anchor(id)], rest.flags + [true], line, false);
        assert g.added[..|g.added| - 1] == rest.added;
      } else {
        SplitSnoc(rest.out, rest.flags, line, false);
      }
    }
  }

  /** The new ids are pairwise distinct and none was declared before. */
  lemma {:induction false} NewIdsFresh(lines: seq<Line>, seed: set<string>, g: Generated)
    requires Generates(lines, seed, g)
    ensures forall i, j :: 0 <= i < j < |g.added| ==> g.added[i] != g.added[j]
    ensures forall i :: 0 <= i < |g.added| ==> g.added[i] in g.used && g.added[i] !in seed
    ensures seed <= g.used
  {
    hide Generates, WantsAnchor;
    if lines == [] {
      NoLines(seed, g);
    } else {
      var before, line := lines[..|lines| - 1], lines[|lines| - 1];
      var rest := LastStep(lines, seed, g);
      NewIdsFresh(before, seed, rest);
    }
  }

  // ----- the mask of the output

  /** The mask machine does not notice the inserted lines. */
  lemma {:induction false} SameState(lines: seq<Line>, seed: set<string>, g: Generated)
    requires Generates(lines, seed, g)
    ensures StateAfter(g.out) == StateAfter(lines)
    ensures |Mask(g.out)| == |g.flags| && Unspread(Mask(g.out), g.flags) == Mask(lines)
    ensures forall i :: 0 <= i < |g.out| && g.flags[i] ==> !Mask(g.out)[i]
    ensures lines != [] ==> g.out != [] && g.out[|g.out| - 1] == lines[|lines| - 1] && Mask(g.out)[|g.out| - 1] == Mask(lines)[|lines| - 1]
  {
    hide Generates, Mask, StateAfter, Hit, Next, Unspread, WantsAnchor;
    if lines == [] {
      NoLines(seed, g);
      NoMask();
    } else {
      var before, line := lines[..|lines| - 1], lines[|lines| - 1];
      assert lines == before + [line];
      var rest := LastStep(lines, seed, g);
      SameState(before, seed, rest);
      if WantsAnchor(before, line) {
        SameAfterInsert(before, line, rest.out, rest.flags, g.added[|g.added| - 1]);
      } else {
        SameAfterCopy(before, line, rest.out, rest.flags);
      }
    }
  }

  lemma SameAfterInsert(before: seq<Line>, line: Line, out: seq<Line>, flags: seq<bool>, id: string)
    requires WantsAnchor(before, line) && |out| == |flags| && StateAfter(out) == StateAfter(before)
    requires Unspread(Mask(out), flags) == Mask(before) && forall i :: 0 <= i < |out| && flags[i] ==> !Mask(out)[i]
    ensures var now, marks := out + [Anchor(id)] + [line], flags + [true] + [false];
      && StateAfter(now) == StateAfter(before + [line])
      && Unspread(Mask(now), marks) == Mask(before + [line])
      && (forall i :: 0 <= i < |now| && marks[i] ==> !Mask(now)[i])
      && Mask(now)[|now| - 1] == Mask(before + [line])[|before|]
  {
    hide Mask, StateAfter, Hit, Next, Unspread, WantsAnchor;
    MaskSnoc(before, line);
    AnchorInvisible(before, line, id);
    MaskSnoc(out, Anchor(id));
    MaskSnoc(out + [Anchor(id)], line);
    UnspreadSnoc(Mask(out), flags, false, true);
    UnspreadSnoc(Mask(out) + [false], flags + [true], false, false);
  }

  lemma SameAfterCopy(before: seq<Line>, line: Line, out: seq<Line>, flags: seq<bool>)
    requires |out| == |flags| && StateAfter(out) == StateAfter(before)
    requires Unspread(Mask(out), flags) == Mask(before) && forall i :: 0 <= i < |out| && flags[i] ==> !Mask(out)[i]
    ensures var now, marks := out + [line], flags + [false];
      && StateAfter(now) == StateAfter(before + [line])
      && Unspread(Mask(now), marks) == Mask(before + [line])
      && (forall i :: 0 <= i < |now| && marks[i] ==> !Mask(now)[i])
      && Mask(now)[|now| - 1] == Mask(before + [line])[|before|]
  {
    hide Mask, StateAfter, Hit, Next, Unspread;
    MaskSnoc(before, line);
    MaskSnoc(out, line);
    UnspreadSnoc(Mask(out), flags, Hit(StateAfter(before), line), false);
  }

  lemma NoMask()
    ensures Mask([]) == [] && Unspread([], []) == []
  {
  }

  /** In front of a heading outside code, an anchor line is not code and leaves the state as the heading does. */
  lemma AnchorInvisible(before: seq<Line>, line: Line, id: string)
    requires WantsAnchor(before, line)
    ensures var s := StateAfter(before);
      && !Hit(s, Anchor(id)) && !Hit(s, line) && !Hit(Next(s, Anchor(id)), line)
      && Next(Next(s, Anchor(id)), line) == Next(s, line)
  {
  }

  /** The mask at the lines that were not inserted. */
  function Unspread(mask: seq<bool>, flags: seq<bool>): seq<bool>
    requires |mask| == |flags|
  {
    if mask == [] then []
    else
      var n := |mask| - 1;
      Unspread(mask[..n], flags[..n]) + if flags[n] then [] else [mask[n]]
  }

  lemma UnspreadSnoc(mask: seq<bool>, flags: seq<bool>, m: bool, flag: bool)
    requires |mask| == |flags|
    ensures Unspread(mask + [m], flags + [flag]) == Unspread(mask, flags) + if flag then [] else [m]
  {
    assert (mask + [m])[..|mask|] == mask && (flags + [flag])[..|mask|] == flags;
  }

  // ----- idempotence

  lemma {:induction false} NothingWantedUnchanged(lines: seq<Line>, seed: set<string>, g: Generated)
    requires Generates(lines, seed, g)
    requires forall i :: 0 <= i < |lines| ==> !WantsAnchor(lines[..i], lines[i])
    ensures g.out == lines && g.added == []
  {
    hide Generates, WantsAnchor;
    if lines == [] {
      NoLines(seed, g);
    } else {
      var before, line := lines[..|lines| - 1], lines[|lines| - 1];
      var rest := LastStep(lines, seed, g);
      forall i | 0 <= i < |before|
        ensures !WantsAnchor(before[..i], before[i])
      {
        assert before[..i] == lines[..i];
      }
      NothingWantedUnchanged(before, seed, rest);
      assert lines[..|lines| - 1] == before;
    }
  }

  lemma {:induction false} OutputWantsNothing(lines: seq<Line>, seed: set<string>, g: Generated)
    requires Generates(lines, seed, g)
    ensures forall i :: 0 <= i < |g.out| ==> !WantsAnchor(g.out[..i], g.out[i])
  {
    hide Generates, WantsAnchor, Unspread;
    if lines == [] {
      NoLines(seed, g);
    } else {
      var before, line := lines[..|lines| - 1], lines[|lines| - 1];
      var rest := LastStep(lines, seed, g);
      OutputWantsNothing(before, seed, rest);
      SameState(before, seed, rest);
      if before == [] {
        NoLines(seed, rest);
      }
      forall i | 0 <= i < |g.out|
        ensures !WantsAnchor(g.out[..i], g.out[i])
      {
        if i < |rest.out| {
          assert g.out[..i] == rest.out[..i] && g.out[i] == rest.out[i];
        } else {
          LastWantsNothing(before, line, rest, g, i);
        }
      }
    }
  }

  lemma LastWantsNothing(before: seq<Line>, line: Line, rest: Generated, g: Generated, i: nat)
    requires |rest.out| <= i < |g.out|
    requires StateAfter(rest.out) == StateAfter(before)
    requires before != [] ==> rest.out != [] && rest.out[|rest.out| - 1] == before[|before| - 1]
    requires before != [] ==> Mask(rest.out)[|rest.out| - 1] == Mask(before)[|before| - 1]
    requires before == [] ==> rest.out == []
    requires if WantsAnchor(before, line)
      then g.added != [] && g.out == rest.out + [Anchor(g.added[|g.added| - 1])] + [line]
      else g.out == rest.out + [line]
    ensures !WantsAnchor(g.out[..i], g.out[i])
  {
    if WantsAnchor(before, line) {
      var a := Anchor(g.added[|g.added| - 1]);
      if i == |rest.out| + 1 {
        assert g.out[..i] == rest.out + [a] && g.out[i] == line;
        MaskSnoc(rest.out, a);
      }
    } else {
      assert g.out[..i] == rest.out && g.out[i] == line;
    }
  }

  /** A second run adds nothing and changes nothing. */
  lemma Idempotent(lines: seq<Line>, g: Generated, h: Generated)
    requires Generates(lines, ExplicitAnchors(lines, Mask(lines)), g)
    requires Generates(g.out, ExplicitAnchors(g.out, Mask(g.out)), h)
    ensures h.out == g.out && h.added == []
  {
    hide Generates, ExplicitAnchors;
    OutputWantsNothing(lines, ExplicitAnchors(lines, Mask(lines)), g);
    NothingWantedUnchanged(g.out, ExplicitAnchors(g.out, Mask(g.out)), h);
  }
}
