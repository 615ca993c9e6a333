/** Lines of a Markdown document by what the tools look at, and the code-block mask
    (`buildCodeBlockMask`). How it compares with CommonMark is the subject of module `CommonMark`. */
module Markdown {
  import opened Prelude

  /** `ids` are the explicit anchors in a line. `Fence` is a run of `len` marks at most three spaces in,
      `bare` when only white space follows. `Indented` starts with four spaces or a tab; it and `Anchor` may
      be lines that hold an anchor tag and nothing else. `spaced` headings have a space behind the marks, and
      text behind it; a `BareHeading` has none. `Lone` lines are of no concern to the tools, but not part of a
      paragraph either: thematic breaks, setext underlines, headings set in by spaces. */
  datatype Line =
    | Blank
    | Fence(mark: char, len: nat, bare: bool)
    | Indented(ids: seq<string>, sole: bool)
    | Anchor(id: string)
    | Heading(level: nat, slug: string, spaced: bool, ids: seq<string>)
    | BareHeading(level: nat, spaced: bool)
    | Lone(ids: seq<string>)
    | Text(ids: seq<string>)

  datatype MaskState = MaskState(fence: Option<(char, nat)>, indented: bool, prevBlank: bool)

  /** The start of the file counts as a blank line. */
  const START := MaskState(None, false, true)

  /** A fence of the same mark, at least as long and bare, ends the block. */
  predicate Closes(mark: char, len: nat, line: Line) {
    line.Fence? && line.mark == mark && line.len >= len && line.bare
  }

  function Next(s: MaskState, line: Line): MaskState {
    if s.fence.Some? then
      MaskState(if Closes(s.fence.value.0, s.fence.value.1, line) then None else s.fence, s.indented, false)
    else if line.Fence? then MaskState(Some((line.mark, line.len)), false, false)
    else if line.Blank? then s.(prevBlank := true)
    else if line.Indented? && (s.prevBlank || s.indented) then MaskState(None, true, false)
    else MaskState(None, false, false)
  }

  predicate Hit(s: MaskState, line: Line) {
    s.fence.Some? || line.Fence? || (line.Blank? && s.indented) || (line.Indented? && (s.prevBlank || s.indented))
  }

  function StateAfter(lines: seq<Line>): MaskState {
    if lines == [] then START else Next(StateAfter(lines[..|lines| - 1]), lines[|lines| - 1])
  }

  function Mask(lines: seq<Line>): (m: seq<bool>)
    ensures |m| == |lines|
  {
    if lines == [] then []
    else Mask(lines[..|lines| - 1]) + [Hit(StateAfter(lines[..|lines| - 1]), lines[|lines| - 1])]
  }

  lemma MaskSnoc(lines: seq<Line>, line: Line)
    ensures Mask(lines + [line]) == Mask(lines) + [Hit(StateAfter(lines), line)]
    ensures StateAfter(lines + [line]) == Next(StateAfter(lines), line)
  {
    assert (lines + [line])[..|lines|] == lines;
  }

  lemma {:induction false} MaskAt(lines: seq<Line>, i: nat)
    requires i < |lines|
    ensures Mask(lines)[i] == Hit(StateAfter(lines[..i]), lines[i])
  {
    if i < |lines| - 1 {
      assert lines[..|lines| - 1][..i] == lines[..i];
      MaskAt(lines[..|lines| - 1], i);
    } else {
      assert lines[..|lines| - 1] == lines[..i];
    }
  }

  /** The loop body: the three state variables in, the same out, and whether the line is masked. */
  method MaskLine(fence: Option<(char, nat)>, indented: bool, prevBlank: bool, line: Line)
    returns (fence': Option<(char, nat)>, indented': bool, prevBlank': bool, hit: bool)
    ensures MaskState(fence', indented', prevBlank') == Next(MaskState(fence, indented, prevBlank), line)
    ensures hit == Hit(MaskState(fence, indented, prevBlank), line)
  {
    fence', indented', prevBlank', hit := fence, indented, prevBlank, false;
    if fence.Some? {
      hit := true;
      if Closes(fence.value.0, fence.value.1, line) {
        fence' := None;
      }
      prevBlank' := false;
    } else if line.Fence? {
      fence' := Some((line.mark, line.len));
      hit := true;
      indented', prevBlank' := false, false;
    } else if line.Blank? {
      if indented {
        hit := true;
      }
      prevBlank' := true;
    } else if line.Indented? && (prevBlank || indented) {
      hit := true;
      indented', prevBlank' := true, false;
    } else {
      indented', prevBlank' := false, false;
    }
  }

  method BuildCodeBlockMask(lines: seq<Line>) returns (r: seq<bool>)
    ensures r == Mask(lines)
  {
    hide Next, Hit;
    var mask := new bool[|lines|](_ => false);
    var fence, inIndentedBlock, prevLineBlank := None, false, true;
    assert lines[..0] == [];
    for i := 0 to |lines|
      invariant mask[..i] == Mask(lines[..i])
      invariant forall k :: i <= k < |lines| ==> !mask[k]
      invariant StateAfter(lines[..i]) == MaskState(fence, inIndentedBlock, prevLineBlank)
    {
      assert lines[..i + 1] == lines[..i] + [lines[i]];
      MaskSnoc(lines[..i], lines[i]);
      var hit;
      fence, inIndentedBlock, prevLineBlank, hit := MaskLine(fence, inIndentedBlock, prevLineBlank, lines[i]);
      if hit {
        mask[i] := true;
      }
      assert mask[..i + 1] == mask[..i] + [mask[i]];
    }
    assert lines[..|lines|] == lines && mask[..|lines|] == mask[..];
    return mask[..];
  }

  // ----- what the mask means

  /** No line strictly between the fence at `o` and line `i` closes it. */
  ghost predicate Reaches(lines: seq<Line>, o: nat, i: nat)
    requires o <= i <= |lines|
  {
    o < |lines| && lines[o].Fence? && forall j :: o < j < i ==> !Closes(lines[o].mark, lines[o].len, lines[j])
  }

  /** A fence opens a block unless it lies in, or ends, an earlier one. */
  ghost predicate Opens(lines: seq<Line>, o: nat)
    requires o <= |lines|
    decreases o
  {
    o < |lines| && lines[o].Fence? && forall p: nat :: p < o ==> !(Opens(lines, p) && Reaches(lines, p, o))
  }

  /** Line `i` is the opening, the content or the closing of a fenced block. */
  ghost predicate InFencedBlock(lines: seq<Line>, i: nat)
    requires i < |lines|
  {
    exists o: nat :: o <= i && Opens(lines, o) && Reaches(lines, o, i)
  }

  ghost predicate Chunk(lines: seq<Line>, s: nat, i: nat)
    requires s <= i <= |lines|
  {
    && s < |lines| && lines[s].Indented? && (s == 0 || lines[s - 1].Blank?)
    && forall j :: s <= j < i ==> lines[j].Blank? || lines[j].Indented?
  }

  /** The `n` lines so far end in an indented run. */
  ghost predicate EndsInRun(lines: seq<Line>, n: nat)
    requires n <= |lines|
  {
    exists s: nat :: s < n && Chunk(lines, s, n)
  }

  /** Line `i` belongs to a run of blank and indented lines whose first line is indented and follows a blank
      line or the start of the file. */
  ghost predicate InIndentedBlock(lines: seq<Line>, i: nat)
    requires i < |lines|
  {
    EndsInRun(lines, i + 1)
  }

  /** Before line `n`, inside a fenced block that is still open. */
  ghost predicate FenceOpen(lines: seq<Line>, n: nat, mark: char, len: nat)
    requires n <= |lines|
  {
    exists o: nat :: o < n && Opens(lines, o) && Reaches(lines, o, n) && lines[o].mark == mark && lines[o].len == len
  }

  /** The machine's fence is the block still open. */
  ghost predicate FenceState(lines: seq<Line>, n: nat)
    requires n <= |lines|
  {
    var s := StateAfter(lines[..n]);
    && (s.fence.Some? ==> FenceOpen(lines, n, s.fence.value.0, s.fence.value.1))
    && (s.fence.None? ==> forall o: nat :: o < n ==> !(Opens(lines, o) && Reaches(lines, o, n)))
  }

  lemma OneOpener(lines: seq<Line>, o: nat, p: nat, n: nat)
    requires o < n <= |lines| && p < n && Opens(lines, o) && Reaches(lines, o, n) && Opens(lines, p) && Reaches(lines, p, n)
    ensures o == p
  {
    if o < p {
      ReachesEarlier(lines, o, p, n);
    } else if p < o {
      ReachesEarlier(lines, p, o, n);
    }
  }

  lemma ReachesEarlier(lines: seq<Line>, o: nat, p: nat, n: nat)
    requires o <= p <= n <= |lines| && Reaches(lines, o, n)
    ensures Reaches(lines, o, p)
  {
  }

  lemma StateSnoc(lines: seq<Line>, n: nat)
    requires n < |lines|
    ensures StateAfter(lines[..n + 1]) == Next(StateAfter(lines[..n]), lines[n])
  {
    assert lines[..n + 1][..n] == lines[..n];
  }

  lemma ReachesStep(lines: seq<Line>, o: nat, n: nat)
    requires o < n < |lines|
    ensures Reaches(lines, o, n + 1) <==> Reaches(lines, o, n) && !Closes(lines[o].mark, lines[o].len, lines[n])
  {
  }

  lemma {:induction false} FenceStateHolds(lines: seq<Line>, n: nat)
    requires n <= |lines|
    ensures FenceState(lines, n)
  {
    if n > 0 {
      FenceStateHolds(lines, n - 1);
      StateSnoc(lines, n - 1);
      FenceStateStep(lines, n - 1);
    }
  }

  lemma FenceStateStep(lines: seq<Line>, n: nat)
    requires n < |lines| && FenceState(lines, n) && StateAfter(lines[..n + 1]) == Next(StateAfter(lines[..n]), lines[n])
    ensures FenceState(lines, n + 1)
  {
    hide StateAfter, Opens;
    var s, t := StateAfter(lines[..n]), StateAfter(lines[..n + 1]);
    if s.fence.Some? {
      var o: nat :| o < n && Opens(lines, o) && Reaches(lines, o, n) && lines[o].mark == s.fence.value.0 && lines[o].len == s.fence.value.1;
      ReachesStep(lines, o, n);
      NotOpener(lines, o, n);
      forall p: nat | p < n && Opens(lines, p) && Reaches(lines, p, n)
        ensures p == o
      {
        OneOpener(lines, o, p, n);
      }
      if t.fence.Some? {
        assert FenceOpen(lines, n + 1, t.fence.value.0, t.fence.value.1);
      } else {
        forall p: nat | p < n + 1 && Opens(lines, p)
          ensures !Reaches(lines, p, n + 1)
        {
          if p < n {
            ReachesStep(lines, p, n);
          }
        }
      }
    } else {
      OpensIff(lines, n);
      forall p: nat | p < n && Opens(lines, p)
        ensures !Reaches(lines, p, n + 1)
      {
        ReachesStep(lines, p, n);
      }
      assert Opens(lines, n) ==> Reaches(lines, n, n + 1);
    }
  }

  lemma NotOpener(lines: seq<Line>, o: nat, n: nat)
    requires o < n < |lines| && Opens(lines, o) && Reaches(lines, o, n)
    ensures !Opens(lines, n)
  {
  }

  lemma OpensIff(lines: seq<Line>, n: nat)
    requires n < |lines| && forall o: nat :: o < n ==> !(Opens(lines, o) && Reaches(lines, o, n))
    ensures Opens(lines, n) <==> lines[n].Fence?
  {
  }

  /** The machine's block flags, outside fences: the last line was blank, an indented run is still going on. */
  ghost predicate BlockState(lines: seq<Line>, n: nat)
    requires n <= |lines|
  {
    var s := StateAfter(lines[..n]);
    s.fence.None? ==>
      && (s.prevBlank <==> n == 0 || lines[n - 1].Blank?)
      && (s.indented <==> EndsInRun(lines, n))
  }

  lemma ChunkStep(lines: seq<Line>, b: nat, n: nat)
    requires b < n < |lines|
    ensures Chunk(lines, b, n + 1) <==> Chunk(lines, b, n) && (lines[n].Blank? || lines[n].Indented?)
  {
  }

  /** A fence just closed is no part of an indented run. */
  lemma {:induction false} BlockStateHolds(lines: seq<Line>, n: nat)
    requires n <= |lines|
    ensures BlockState(lines, n)
    ensures StateAfter(lines[..n]).fence.Some? ==> !StateAfter(lines[..n]).indented
  {
    if n > 0 {
      BlockStateHolds(lines, n - 1);
      StateSnoc(lines, n - 1);
      BlockStateStep(lines, n - 1);
    }
  }

  lemma BlockStateStep(lines: seq<Line>, n: nat)
    requires n < |lines| && BlockState(lines, n) && StateAfter(lines[..n + 1]) == Next(StateAfter(lines[..n]), lines[n])
    requires StateAfter(lines[..n]).fence.Some? ==> !StateAfter(lines[..n]).indented
    ensures BlockState(lines, n + 1)
    ensures StateAfter(lines[..n + 1]).fence.Some? ==> !StateAfter(lines[..n + 1]).indented
  {
    hide StateAfter;
    var s, t := StateAfter(lines[..n]), StateAfter(lines[..n + 1]);
    if t.fence.None? {
      RunStep(lines, n);
    }
  }

  /** A run goes on over blank and indented lines, and starts at an indented line after a blank one. */
  lemma RunStep(lines: seq<Line>, n: nat)
    requires n < |lines|
    ensures EndsInRun(lines, n + 1) <==>
      (EndsInRun(lines, n) && (lines[n].Blank? || lines[n].Indented?)) || (lines[n].Indented? && (n == 0 || lines[n - 1].Blank?))
  {
    hide Chunk;
    ChunkStart(lines, n);
    if b: nat :| b < n && Chunk(lines, b, n) {
      ChunkStep(lines, b, n);
    }
    var m := n + 1;
    if b: nat :| b < m && Chunk(lines, b, m) {
      if b < n {
        ChunkStep(lines, b, n);
      }
    }
  }

  lemma ChunkStart(lines: seq<Line>, n: nat)
    requires n < |lines|
    ensures Chunk(lines, n, n + 1) <==> lines[n].Indented? && (n == 0 || lines[n - 1].Blank?)
  {
  }

  /** The mask marks exactly the lines of fenced and of indented code blocks. */
  lemma MaskMeaning(lines: seq<Line>, i: nat)
    requires i < |lines|
    ensures Mask(lines)[i] <==> InFencedBlock(lines, i) || InIndentedBlock(lines, i)
  {
    hide StateAfter, Opens, Mask, EndsInRun;
    MaskAt(lines, i);
    FenceStateHolds(lines, i);
    BlockStateHolds(lines, i);
    RunStep(lines, i);
    var s := StateAfter(lines[..i]);
    if s.fence.None? {
      OpensIff(lines, i);
      assert lines[i].Fence? ==> Reaches(lines, i, i);
    }
  }
}
