/** The code lines of sections 4.4 and 4.5 of CommonMark on the line classes of `Markdown`, and exactly when the
    mask agrees with them. A `Text` or `Anchor` line stands for a line of a paragraph. */
module CommonMark {
  import opened Markdown

  /** The lines an indented line below them continues as a paragraph. */
  predicate ParagraphLine(line: Line) {
    line.Text? || line.Anchor?
  }

  /** Non-blank lines that are neither indented nor part of a paragraph: headings, breaks and fences. */
  predicate StandsAlone(line: Line) {
    line.Heading? || line.BareHeading? || line.Lone? || line.Fence?
  }

  /** Where the run of indented lines that ends at `i` begins. */
  function RunStart(lines: seq<Line>, i: nat): (t: nat)
    requires i < |lines|
    ensures t <= i && forall j :: t <= j < i ==> lines[j].Indented?
    ensures t == 0 || !lines[t - 1].Indented?
  {
    if i > 0 && lines[i - 1].Indented? then RunStart(lines, i - 1) else i
  }

  /** A non-blank line of an indented code block: indented, outside fences, and not continuing a paragraph. */
  ghost predicate CodeLine(lines: seq<Line>, i: nat) {
    && i < |lines| && lines[i].Indented? && !InFencedBlock(lines, i)
    && (RunStart(lines, i) == 0 || !ParagraphLine(lines[RunStart(lines, i) - 1]))
  }

  predicate BlanksBetween(lines: seq<Line>, a: nat, b: nat) {
    a < b <= |lines| && forall j :: a < j < b ==> lines[j].Blank?
  }

  /** A blank line between two chunks of one indented code block. */
  ghost predicate BetweenCode(lines: seq<Line>, i: nat) {
    && i < |lines| && lines[i].Blank? && !InFencedBlock(lines, i)
    && exists a: nat, b: nat :: a < i < b && CodeLine(lines, a) && CodeLine(lines, b) && BlanksBetween(lines, a, b)
  }

  /** Line `i` belongs to a fenced or an indented code block; neither kind includes blank lines at its edges. */
  ghost predicate IsCode(lines: seq<Line>, i: nat)
    requires i < |lines|
  {
    InFencedBlock(lines, i) || CodeLine(lines, i) || BetweenCode(lines, i)
  }

  // ----- where the two can differ

  /** An indented line directly below a heading, a break or a closing fence. */
  ghost predicate UnderMark(lines: seq<Line>, i: nat) {
    0 < i < |lines| && lines[i].Indented? && StandsAlone(lines[i - 1]) && !InFencedBlock(lines, i)
  }

  /** A blank line behind the last chunk of an indented code block. */
  ghost predicate TrailsCode(lines: seq<Line>, i: nat) {
    && i < |lines| && lines[i].Blank? && !InFencedBlock(lines, i) && !BetweenCode(lines, i)
    && exists a: nat :: a < i && CodeLine(lines, a) && BlanksBetween(lines, a, i)
  }

  // ----- the mask in these terms

  /** No fence in between: both lines are in a fenced block, or neither is. */
  lemma SameFence(lines: seq<Line>, i: nat, j: nat)
    requires i <= j < |lines| && forall k :: i <= k <= j ==> !lines[k].Fence?
    ensures InFencedBlock(lines, i) <==> InFencedBlock(lines, j)
  {
    hide Opens;
    if o: nat :| o <= i && Opens(lines, o) && Reaches(lines, o, i) {
      assert Reaches(lines, o, j);
    }
    if o: nat :| o <= j && Opens(lines, o) && Reaches(lines, o, j) {
      assert o < i && Reaches(lines, o, i);
    }
  }

  /** An indented line is in one of the mask's indented blocks if its run starts the document or follows a blank. */
  lemma MaskedRun(lines: seq<Line>, i: nat)
    requires i < |lines| && lines[i].Indented?
    ensures InIndentedBlock(lines, i) <==> RunStart(lines, i) == 0 || lines[RunStart(lines, i) - 1].Blank?
  {
    var t := RunStart(lines, i);
    assert lines[t].Indented?;
    if t == 0 || lines[t - 1].Blank? {
      assert Chunk(lines, t, i + 1);
    }
    var n := i + 1;
    if s: nat :| s < n && Chunk(lines, s, n) {
      if s < t {
        InChunk(lines, s, n, t - 1);
      }
    }
  }

  lemma InChunk(lines: seq<Line>, s: nat, n: nat, j: nat)
    requires s <= j < n <= |lines| && Chunk(lines, s, n)
    ensures lines[j].Blank? || lines[j].Indented?
  {
  }

  /** A mask's block runs on through blank lines. */
  lemma MaskedOn(lines: seq<Line>, a: nat, i: nat)
    requires a < i < |lines| && lines[i].Blank? && BlanksBetween(lines, a, i) && InIndentedBlock(lines, a)
    ensures InIndentedBlock(lines, i)
  {
    var s: nat :| s < a + 1 && Chunk(lines, s, a + 1);
    assert Chunk(lines, s, i + 1);
  }

  /** And only from an indented line before them. */
  lemma {:induction false} MaskedFrom(lines: seq<Line>, i: nat) returns (a: nat)
    requires i < |lines| && lines[i].Blank? && InIndentedBlock(lines, i)
    ensures a < i && lines[a].Indented? && InIndentedBlock(lines, a) && BlanksBetween(lines, a, i)
  {
    var s: nat :| s < i + 1 && Chunk(lines, s, i + 1);
    assert s < i && Chunk(lines, s, i);
    if lines[i - 1].Blank? {
      a := MaskedFrom(lines, i - 1);
    } else {
      a := i - 1;
    }
  }

  /** Apart from lines under a heading, a break or a fence, the mask and CommonMark agree on indented lines. */
  lemma IndentedAgrees(lines: seq<Line>, i: nat)
    requires i < |lines| && lines[i].Indented? && !InFencedBlock(lines, i)
    requires !UnderMark(lines, RunStart(lines, i))
    ensures InIndentedBlock(lines, i) <==> CodeLine(lines, i)
  {
    hide InFencedBlock, InIndentedBlock;
    var t := RunStart(lines, i);
    MaskedRun(lines, i);
    assert lines[t].Indented?;
    SameFence(lines, t, i);
  }

  /** A blank line of one of the mask's blocks lies between two chunks, or trails the last. */
  lemma BlankAgrees(lines: seq<Line>, i: nat)
    requires i < |lines| && lines[i].Blank? && !InFencedBlock(lines, i)
    requires forall j :: !UnderMark(lines, j)
    ensures InIndentedBlock(lines, i) <==> BetweenCode(lines, i) || TrailsCode(lines, i)
  {
    hide InFencedBlock, InIndentedBlock, CodeLine, UnderMark;
    if InIndentedBlock(lines, i) {
      var a := MaskedFrom(lines, i);
      SameFence(lines, a, i);
      IndentedAgrees(lines, a);
      assert CodeLine(lines, a) && BlanksBetween(lines, a, i);
    }
    if BetweenCode(lines, i) || TrailsCode(lines, i) {
      var a: nat :| a < i && CodeLine(lines, a) && BlanksBetween(lines, a, i);
      CodeIsIndented(lines, a);
      IndentedAgrees(lines, a);
      MaskedOn(lines, a, i);
    }
  }

  lemma CodeIsIndented(lines: seq<Line>, a: nat)
    requires CodeLine(lines, a)
    ensures a < |lines| && lines[a].Indented? && !InFencedBlock(lines, a)
  {
  }

  lemma LineAgrees(lines: seq<Line>, i: nat)
    requires i < |lines| && (forall j :: !UnderMark(lines, j)) && !TrailsCode(lines, i)
    ensures Mask(lines)[i] <==> IsCode(lines, i)
  {
    hide Mask, InFencedBlock, UnderMark, TrailsCode, BetweenCode, CodeLine;
    MaskMeaning(lines, i);
    if !InFencedBlock(lines, i) {
      if lines[i].Indented? {
        IndentedAgrees(lines, i);
        NotBetween(lines, i);
      } else if lines[i].Blank? {
        BlankAgrees(lines, i);
        NotIndented(lines, i);
      } else {
        NotBetween(lines, i);
        NotIndented(lines, i);
      }
    }
  }

  lemma NotBetween(lines: seq<Line>, i: nat)
    requires i < |lines| && !lines[i].Blank?
    ensures !BetweenCode(lines, i) && (!lines[i].Indented? ==> !InIndentedBlock(lines, i))
  {
    hide InFencedBlock, CodeLine;
  }

  lemma NotIndented(lines: seq<Line>, i: nat)
    requires i < |lines| && !lines[i].Indented?
    ensures !CodeLine(lines, i)
  {
  }

  /** A line under a heading, a break or a closing fence is code that the mask leaves out. */
  lemma UnderMarkDiffers(lines: seq<Line>, i: nat)
    requires UnderMark(lines, i)
    ensures IsCode(lines, i) && !Mask(lines)[i]
  {
    hide Mask, InFencedBlock, InIndentedBlock;
    MaskMeaning(lines, i);
    MaskedRun(lines, i);
    assert RunStart(lines, i) == i;
  }

  /** If the mask takes in the code line before it, it takes in a blank line behind the block. */
  lemma TrailDiffers(lines: seq<Line>, i: nat)
    requires TrailsCode(lines, i) && forall j :: 0 <= j < i ==> (Mask(lines)[j] <==> IsCode(lines, j))
    ensures !IsCode(lines, i) && Mask(lines)[i]
  {
    hide Mask, InFencedBlock, InIndentedBlock;
    var a: nat :| a < i && CodeLine(lines, a) && BlanksBetween(lines, a, i);
    MaskMeaning(lines, a);
    MaskMeaning(lines, i);
    MaskedOn(lines, a, i);
  }

  /** On every document: the mask marks exactly the code lines of CommonMark if and only if no indented line stands
      directly below a heading, a break or a closing fence and no blank line trails an indented code block. */
  lemma AgreesIff(lines: seq<Line>)
    ensures (forall i :: 0 <= i < |lines| ==> (Mask(lines)[i] <==> IsCode(lines, i)))
      <==> (forall i: nat :: !UnderMark(lines, i) && !TrailsCode(lines, i))
  {
    hide Mask, IsCode, UnderMark, TrailsCode;
    if forall i: nat :: !UnderMark(lines, i) && !TrailsCode(lines, i) {
      forall i | 0 <= i < |lines|
        ensures Mask(lines)[i] <==> IsCode(lines, i)
      {
        LineAgrees(lines, i);
      }
    }
    if forall i :: 0 <= i < |lines| ==> (Mask(lines)[i] <==> IsCode(lines, i)) {
      forall i: nat
        ensures !UnderMark(lines, i) && !TrailsCode(lines, i)
      {
        InDocument(lines, i);
        if UnderMark(lines, i) {
          UnderMarkDiffers(lines, i);
        } else if TrailsCode(lines, i) {
          TrailDiffers(lines, i);
        }
      }
    }
  }

  lemma InDocument(lines: seq<Line>, i: nat)
    ensures UnderMark(lines, i) || TrailsCode(lines, i) ==> i < |lines|
  {
  }

  /** One departure of each kind. */
  lemma MaskDeparts()
    ensures var lines := [Heading(1, "a", true, []), Indented([], false)]; UnderMark(lines, 1)
    ensures var lines := [Fence('`', 3, true), Fence('`', 3, true), Indented([], false)]; UnderMark(lines, 2)
    ensures var lines := [Indented([], false), Blank, Text([])]; TrailsCode(lines, 1)
  {
    var fence, code := Fence('`', 3, true), Indented([], false);
    var fenced := [fence, fence, code];
    assert Closes('`', 3, fence);
    forall o: nat | o <= 2 && Opens(fenced, o)
      ensures !Reaches(fenced, o, 2)
    {
      FirstOpens(fenced);
      assert Reaches(fenced, 0, 1);
      assert Closes(fenced[0].mark, fenced[0].len, fenced[1]);
      assert o == 0 ==> !Reaches(fenced, o, 2);
    }
    var block := [code, Blank, Text([])];
    assert RunStart(block, 0) == 0 && CodeLine(block, 0) && BlanksBetween(block, 0, 1);
  }

  lemma FirstOpens(lines: seq<Line>)
    requires lines != [] && lines[0].Fence?
    ensures Opens(lines, 0)
  {
  }
}
