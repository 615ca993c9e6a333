/** Sections in plain terms: the heading, the anchor and the text of each, and that generating anchors and parsing gives
    back the headings of a document with the text between them. */
module SectionMeaning {
  import opened Markdown
  import opened Slugs
  import opened Generator
  import opened Sections
  import opened AnchorMeaning

  // ----- any document

  /** A line that is nothing but the tag with this id. */
  predicate OnlyTag(line: Line, id: string) {
    line == Anchor(id) || (line.Indented? && line.sole && line.ids == [id])
  }

  /** Two marks and a space at the start of a line outside code. */
  ghost predicate SecondLevelTitle(lines: seq<Line>, h: nat) {
    h < |lines| && !Mask(lines)[h] && (lines[h].Heading? || lines[h].BareHeading?) && lines[h].level == 2 && lines[h].spaced
  }

  /** A line outside code that is nothing but a tag. */
  ghost predicate TagLine(lines: seq<Line>, i: nat) {
    i < |lines| && !Mask(lines)[i] && exists id :: OnlyTag(lines[i], id)
  }

  /** Only code and tags stand between the tag at `a` and the title at `h`. */
  ghost predicate LeadsTo(lines: seq<Line>, a: nat, h: nat) {
    && a < h && TagLine(lines, a) && SecondLevelTitle(lines, h)
    && forall x: nat :: a < x < h ==> Mask(lines)[x] || TagLine(lines, x)
  }

  lemma SoleIsTag(line: Line)
    ensures Sole(line) <==> exists id :: OnlyTag(line, id)
    ensures Sole(line) ==> OnlyTag(line, SoleId(line))
  {
    if line.Indented? && line.sole && |line.ids| == 1 {
      assert line.ids == [line.ids[0]];
      assert OnlyTag(line, line.ids[0]);
    }
    if line.Anchor? {
      assert OnlyTag(line, line.id);
    }
  }

  lemma AnchorIsTag(lines: seq<Line>, i: nat)
    ensures IsAnchor(lines, Mask(lines), i) <==> TagLine(lines, i)
  {
    hide Mask;
    if i < |lines| {
      SoleIsTag(lines[i]);
    }
  }

  lemma PassesIs(lines: seq<Line>, i: nat)
    ensures PassesOver(lines, Mask(lines), i) <==> i < |lines| && (Mask(lines)[i] || TagLine(lines, i))
  {
    hide Mask, IsAnchor, TagLine;
    AnchorIsTag(lines, i);
    TagInside(lines, i);
  }

  lemma TagInside(lines: seq<Line>, i: nat)
    ensures TagLine(lines, i) ==> i < |lines| && !Mask(lines)[i] && !lines[i].Heading? && !lines[i].BareHeading?
  {
  }

  lemma IntroducesIs(lines: seq<Line>, a: nat, h: nat)
    ensures Introduces(lines, Mask(lines), a, h) <==> LeadsTo(lines, a, h)
  {
    hide Mask, IsAnchor, TagLine, PassesOver;
    AnchorIsTag(lines, a);
    PassesIs(lines, h);
    TagInside(lines, h);
    forall x: nat
      ensures PassesOver(lines, Mask(lines), x) <==> x < |lines| && (Mask(lines)[x] || TagLine(lines, x))
    {
      PassesIs(lines, x);
    }
  }

  /** What a section says, in terms of the lines: its title is a second-level title at `h`, its text is what stands
      behind it up to the end line, it starts at the first tag that leads to the title, and its anchor is the last of
      the tags that stand there without a gap. */
  ghost predicate Reads(lines: seq<Line>, s: Section, h: nat) {
    && 1 <= s.startLine <= h < s.endLine <= |lines| && s.title == lines[h] && s.body == lines[h + 1..s.endLine]
    && LeadsTo(lines, s.startLine - 1, h) && (forall a: nat :: LeadsTo(lines, a, h) ==> s.startLine - 1 <= a)
    && exists a: nat :: s.startLine - 1 <= a < h && OnlyTag(lines[a], s.anchor) && !TagLine(lines, a + 1)
         && forall x: nat :: s.startLine - 1 <= x <= a ==> TagLine(lines, x)
  }

  lemma SectionReads(lines: seq<Line>, starts: seq<Start>, sections: seq<Section>, k: nat)
    requires AreStarts(lines, Mask(lines), starts) && AreSections(lines, starts, sections) && k < |sections|
    ensures Reads(lines, sections[k], starts[k].headingIdx)
  {
    hide Mask, LeadsTo, Introduces, OnlyTag, TagLine, IsAnchor, AreStarts;
    StartInRange(lines, Mask(lines), starts, k);
    StartIs(lines, Mask(lines), starts, k);
    var s, t := sections[k], starts[k];
    assert IsSection(lines, starts, k, s);
    IntroducesIs(lines, t.startIdx, t.headingIdx);
    forall a: nat | LeadsTo(lines, a, t.headingIdx)
      ensures t.startIdx <= a
    {
      IntroducesIs(lines, a, t.headingIdx);
    }
    forall x: nat
      ensures IsAnchor(lines, Mask(lines), x) <==> TagLine(lines, x)
    {
      AnchorIsTag(lines, x);
    }
    SoleIsTag(lines[t.anchorIdx]);
    var a := t.anchorIdx;
    assert OnlyTag(lines[a], s.anchor) && !TagLine(lines, a + 1);
  }

  /** Every document, parsed: each section reads as above, sections follow one another without a gap up to the last
      line, and every title that some tag leads to is the title of exactly one of them. */
  lemma ParseMeans(lines: seq<Line>, starts: seq<Start>, sections: seq<Section>) returns (at: seq<nat>)
    requires AreStarts(lines, Mask(lines), starts) && AreSections(lines, starts, sections)
    ensures |at| == |sections| && forall j, k :: 0 <= j < k < |at| ==> at[j] < at[k]
    ensures forall k :: 0 <= k < |sections| ==> Reads(lines, sections[k], at[k])
    ensures forall k :: 0 <= k < |sections| - 1 ==> sections[k + 1].startLine == sections[k].endLine + 1
    ensures sections != [] ==> sections[|sections| - 1].endLine == |lines|
    ensures forall a: nat, h: nat :: LeadsTo(lines, a, h) ==> h in at
  {
    hide Mask, Reads, AreStarts, IsSection, LeadsTo, Introduces;
    SectionsTile(lines, starts, sections);
    StartsOrdered(lines, Mask(lines), starts);
    at := HeadingIndexes(starts);
    forall k | 0 <= k < |sections|
      ensures Reads(lines, sections[k], at[k])
    {
      SectionReads(lines, starts, sections, k);
    }
    forall a: nat, h: nat | LeadsTo(lines, a, h)
      ensures h in at
    {
      IntroducesIs(lines, a, h);
      IntroducedIsStart(lines, Mask(lines), starts, a, h);
      var k :| 0 <= k < |starts| && starts[k].headingIdx == h;
      assert at[k] == h;
    }
  }

  function HeadingIndexes(starts: seq<Start>): (at: seq<nat>)
    ensures |at| == |starts| && forall k :: 0 <= k < |starts| ==> at[k] == starts[k].headingIdx
  {
    if starts == [] then [] else HeadingIndexes(starts[..|starts| - 1]) + [starts[|starts| - 1].headingIdx]
  }

  // ----- generate, then parse

  /** How many of the first `x` lines were there before. */
  function Kept(flags: seq<bool>, x: nat): (k: nat)
    requires x <= |flags|
    ensures k <= x
  {
    if x == 0 then 0 else Kept(flags, x - 1) + if flags[x - 1] then 0 else 1
  }

  lemma {:induction false} KeptGrows(flags: seq<bool>, x: nat, y: nat)
    requires x <= y <= |flags|
    ensures Kept(flags, x) <= Kept(flags, y)
    ensures x < y && !flags[x] ==> Kept(flags, x) < Kept(flags, y)
    decreases y
  {
    if x < y {
      KeptGrows(flags, x, y - 1);
    }
  }

  lemma {:induction false} KeptPrefix(flags: seq<bool>, n: nat, x: nat)
    requires x <= n <= |flags|
    ensures Kept(flags[..n], x) == Kept(flags, x)
  {
    if x > 0 {
      KeptPrefix(flags, n, x - 1);
    }
  }

  lemma {:induction false} StrippedLength(out: seq<Line>, flags: seq<bool>)
    requires |out| == |flags|
    ensures |Stripped(out, flags)| == Kept(flags, |flags|)
  {
    if out != [] {
      var n := |out| - 1;
      StrippedLength(out[..n], flags[..n]);
      KeptPrefix(flags, n, n);
    }
  }

  lemma {:induction false} StrippedConcat(a: seq<Line>, fa: seq<bool>, b: seq<Line>, fb: seq<bool>)
    requires |a| == |fa| && |b| == |fb|
    ensures Stripped(a + b, fa + fb) == Stripped(a, fa) + Stripped(b, fb)
  {
    if b == [] {
      assert a + b == a && fa + fb == fa;
    } else {
      var n := |b| - 1;
      StrippedConcat(a, fa, b[..n], fb[..n]);
      var whole, marks := a + b, fa + fb;
      assert whole[..|whole| - 1] == a + b[..n] && marks[..|whole| - 1] == fa + fb[..n];
    }
  }

  /** Taking the inserted lines out of a stretch leaves the stretch of the document between the counts. */
  lemma StrippedSlice(out: seq<Line>, flags: seq<bool>, x: nat, y: nat)
    requires |out| == |flags| && x <= y <= |out|
    ensures Kept(flags, x) <= Kept(flags, y) <= |Stripped(out, flags)|
    ensures Stripped(out[x..y], flags[x..y]) == Stripped(out, flags)[Kept(flags, x)..Kept(flags, y)]
  {
    hide Stripped, Kept;
    StrippedConcat(out[..x], flags[..x], out[x..], flags[x..]);
    StrippedConcat(out[..x], flags[..x], out[x..y], flags[x..y]);
    StrippedConcat(out[..y], flags[..y], out[y..], flags[y..]);
    assert out == out[..x] + out[x..] && flags == flags[..x] + flags[x..];
    assert out[..y] == out[..x] + out[x..y] && flags[..y] == flags[..x] + flags[x..y];
    assert out == out[..y] + out[y..] && flags == flags[..y] + flags[y..];
    StrippedLength(out[..x], flags[..x]);
    StrippedLength(out[..y], flags[..y]);
    KeptPrefix(flags, x, x);
    KeptPrefix(flags, y, y);
    KeptGrows(flags, x, y);
  }

  /** A line that was there before is where the count says. */
  lemma StrippedAt(out: seq<Line>, flags: seq<bool>, x: nat)
    requires |out| == |flags| && x < |out| && !flags[x]
    ensures Kept(flags, x + 1) == Kept(flags, x) + 1
    ensures Kept(flags, x) < |Stripped(out, flags)| && Stripped(out, flags)[Kept(flags, x)] == out[x]
  {
    StrippedSlice(out, flags, x, x + 1);
    assert out[x..x + 1][..0] == [] && flags[x..x + 1][..0] == [];
    assert Stripped(out[x..x + 1], flags[x..x + 1]) == [out[x]];
  }

  lemma {:induction false} UnspreadAt(mask: seq<bool>, flags: seq<bool>, x: nat)
    requires |mask| == |flags| && x < |mask| && !flags[x]
    ensures Kept(flags, x) < |Unspread(mask, flags)| && Unspread(mask, flags)[Kept(flags, x)] == mask[x]
  {
    var n := |mask| - 1;
    UnspreadLength(mask[..n], flags[..n]);
    KeptPrefix(flags, n, n);
    if x < n {
      UnspreadAt(mask[..n], flags[..n], x);
      KeptPrefix(flags, n, x);
    }
  }

  lemma {:induction false} UnspreadLength(mask: seq<bool>, flags: seq<bool>)
    requires |mask| == |flags|
    ensures |Unspread(mask, flags)| == Kept(flags, |flags|)
  {
    if mask != [] {
      var n := |mask| - 1;
      UnspreadLength(mask[..n], flags[..n]);
      KeptPrefix(flags, n, n);
    }
  }

  /** Every line of the document is still there. */
  lemma {:induction false} WhereKept(flags: seq<bool>, n: nat, i: nat) returns (x: nat)
    requires n <= |flags| && i < Kept(flags, n)
    ensures x < n && !flags[x] && Kept(flags, x) == i
    decreases n
  {
    if !flags[n - 1] && Kept(flags, n - 1) == i {
      x := n - 1;
    } else {
      x := WhereKept(flags, n - 1, i);
    }
  }

  /** A heading of level two outside code, written with a space, with something to make an anchor of. */
  ghost predicate TitledHeading(lines: seq<Line>, i: nat) {
    i < |lines| && !Mask(lines)[i] && lines[i].Heading? && lines[i].level == 2 && lines[i].spaced && lines[i].slug != ""
  }

  ghost function TitledIn(lines: seq<Line>): nat -> bool {
    (i: nat) => TitledHeading(lines, i)
  }

  /** The same line, in the document and in the output. */
  lemma SameLine(lines: seq<Line>, seed: set<string>, g: Generated, x: nat)
    requires Generates(lines, seed, g) && x < |g.out| && |g.out| == |g.flags| && !g.flags[x]
    ensures Kept(g.flags, x + 1) == Kept(g.flags, x) + 1 <= |lines|
    ensures lines[Kept(g.flags, x)] == g.out[x]
    ensures SectionHeading(g.out, Mask(g.out), x) <==> TitledHeading(lines, Kept(g.flags, x))
  {
    hide Generates, Mask, Stripped, Unspread, Kept;
    OnlyInserts(lines, seed, g);
    SameState(lines, seed, g);
    StrippedAt(g.out, g.flags, x);
    UnspreadAt(Mask(g.out), g.flags, x);
  }

  lemma PlaceOfHeading(out: seq<Line>, mask: seq<bool>, flags: seq<bool>, used: set<string>, starts: seq<Start>, k: nat)
    requires |mask| == |out| == |flags| && Shaped(out, mask, flags, used) && AreStarts(out, mask, starts) && k < |starts|
    ensures var s := starts[k];
      && s.anchorIdx == s.startIdx && s.headingIdx == s.startIdx + 1 && s.headingIdx < |out|
      && flags[s.startIdx] && !flags[s.headingIdx] && SectionHeading(out, mask, s.headingIdx)
  {
    hide Shaped, AreStarts;
    SectionsAreHeadings(out, mask, flags, used, starts);
    HeadingNotInserted(out, mask, flags, used, starts[k].headingIdx);
  }

  function Places(flags: seq<bool>, starts: seq<Start>): (at: seq<nat>)
    requires forall k :: 0 <= k < |starts| ==> starts[k].headingIdx <= |flags|
    ensures |at| == |starts| && forall k :: 0 <= k < |starts| ==> at[k] == Kept(flags, starts[k].headingIdx)
  {
    if starts == [] then [] else Places(flags, starts[..|starts| - 1]) + [Kept(flags, starts[|starts| - 1].headingIdx)]
  }

  /** What the output's starts say of the document. */
  ghost predicate Placed(lines: seq<Line>, g: Generated, starts: seq<Start>, at: seq<nat>) {
    && |at| == |starts| && |g.out| == |g.flags|
    && forall k :: 0 <= k < |starts| ==> var s := starts[k];
      && s.headingIdx == s.startIdx + 1 && s.headingIdx < |g.out| && g.flags[s.startIdx] && !g.flags[s.headingIdx]
      && at[k] == Kept(g.flags, s.headingIdx) && at[k] < |lines| && lines[at[k]] == g.out[s.headingIdx]
      && TitledHeading(lines, at[k])
  }

  lemma PlacedHolds(lines: seq<Line>, seed: set<string>, g: Generated, starts: seq<Start>) returns (at: seq<nat>)
    requires AnchorFree(lines, Mask(lines)) && Generates(lines, seed, g) && AreStarts(g.out, Mask(g.out), starts)
    ensures Placed(lines, g, starts, at)
  {
    hide Generates, Mask, AnchorFree, AreStarts, Shaped, TitledHeading, SectionHeading, Kept;
    OutputShaped(lines, seed, g);
    forall k | 0 <= k < |starts|
      ensures var s := starts[k];
        && s.headingIdx == s.startIdx + 1 && s.headingIdx < |g.out| && g.flags[s.startIdx] && !g.flags[s.headingIdx]
        && Kept(g.flags, s.headingIdx) < |lines| && lines[Kept(g.flags, s.headingIdx)] == g.out[s.headingIdx]
        && TitledHeading(lines, Kept(g.flags, s.headingIdx))
    {
      PlaceOfHeading(g.out, Mask(g.out), g.flags, g.used, starts, k);
      SameLine(lines, seed, g, starts[k].headingIdx);
    }
    at := Places(g.flags, starts);
  }

  /** The places are exactly the titled headings of the document, in order. */
  lemma PlacesAreTitled(lines: seq<Line>, seed: set<string>, g: Generated, starts: seq<Start>, at: seq<nat>)
    requires AnchorFree(lines, Mask(lines)) && Generates(lines, seed, g) && AreStarts(g.out, Mask(g.out), starts)
    requires Placed(lines, g, starts, at)
    ensures Lists(at, TitledIn(lines), |lines|)
  {
    hide Generates, Mask, AnchorFree, AreStarts, Shaped, TitledHeading, SectionHeading, Kept;
    StartsOrdered(g.out, Mask(g.out), starts);
    forall j, k | 0 <= j < k < |at|
      ensures at[j] < at[k]
    {
      KeptGrows(g.flags, starts[j].headingIdx, starts[k].headingIdx);
    }
    forall i: nat | i < |lines| && TitledIn(lines)(i)
      ensures i in at
    {
      TitledIsPlaced(lines, seed, g, starts, at, i);
    }
  }

  lemma TitledIsPlaced(lines: seq<Line>, seed: set<string>, g: Generated, starts: seq<Start>, at: seq<nat>, i: nat)
    requires AnchorFree(lines, Mask(lines)) && Generates(lines, seed, g) && AreStarts(g.out, Mask(g.out), starts)
    requires Placed(lines, g, starts, at) && TitledHeading(lines, i) && i < |lines|
    ensures i in at
  {
    hide Generates, Mask, AnchorFree, AreStarts, Shaped, TitledHeading, SectionHeading, Kept, Stripped;
    OnlyInserts(lines, seed, g);
    StrippedLength(g.out, g.flags);
    var x := WhereKept(g.flags, |g.flags|, i);
    SameLine(lines, seed, g, x);
    OutputShaped(lines, seed, g);
    SectionsAreHeadings(g.out, Mask(g.out), g.flags, g.used, starts);
    var k :| 0 <= k < |starts| && starts[k].headingIdx == x;
    assert at[k] == i;
  }

  /** The text of a section, without the inserted lines. */
  ghost predicate TextIs(lines: seq<Line>, g: Generated, s: Section, from: nat, to: nat) {
    && |s.body| <= s.endLine <= |g.flags| && from <= to <= |lines|
    && Stripped(s.body, g.flags[s.endLine - |s.body|..s.endLine]) == lines[from..to]
  }

  lemma SectionText(lines: seq<Line>, seed: set<string>, g: Generated, starts: seq<Start>, at: seq<nat>, s: Section, k: nat)
    requires Generates(lines, seed, g) && Placed(lines, g, starts, at) && k < |starts| && IsSection(g.out, starts, k, s)
    ensures s.title == lines[at[k]] && TextIs(lines, g, s, at[k] + 1, if k + 1 < |at| then at[k + 1] else |lines|)
  {
    hide Generates, TitledHeading, Stripped, Kept;
    OnlyInserts(lines, seed, g);
    var h, end := starts[k].headingIdx, s.endLine;
    SameLine(lines, seed, g, h);
    StrippedSlice(g.out, g.flags, h + 1, end);
    if k + 1 < |at| {
      KeptOver(g.flags, end);
    } else {
      StrippedLength(g.out, g.flags);
    }
  }

  lemma KeptOver(flags: seq<bool>, x: nat)
    requires x < |flags| && flags[x]
    ensures Kept(flags, x + 1) == Kept(flags, x)
  {
  }

  /** On a document without tags outside code: generating and parsing gives one section for every titled heading, in
      order, with the heading as its title, an anchor no other section has, and, the inserted lines taken out,
      exactly the lines of the document up to the next titled heading as its text. */
  lemma GeneratedTextComesBack(lines: seq<Line>, g: Generated, starts: seq<Start>, sections: seq<Section>) returns (at: seq<nat>)
    requires AnchorFree(lines, Mask(lines)) && Generates(lines, ExplicitAnchors(lines, Mask(lines)), g)
    requires AreStarts(g.out, Mask(g.out), starts) && AreSections(g.out, starts, sections)
    ensures |at| == |sections| && Lists(at, TitledIn(lines), |lines|)
    ensures forall k :: 0 <= k < |sections| ==>
      && at[k] < |lines| && sections[k].title == lines[at[k]]
      && TextIs(lines, g, sections[k], at[k] + 1, if k + 1 < |at| then at[k + 1] else |lines|)
    ensures forall j, k :: 0 <= j < k < |sections| ==> sections[j].anchor != sections[k].anchor
  {
    hide Generates, Mask, AnchorFree, AreStarts, ExplicitAnchors, TitledHeading, Lists, TextIs, IsSection;
    var seed := ExplicitAnchors(lines, Mask(lines));
    at := PlacedHolds(lines, seed, g, starts);
    PlacesAreTitled(lines, seed, g, starts, at);
    forall k | 0 <= k < |sections|
      ensures at[k] < |lines| && sections[k].title == lines[at[k]]
      ensures TextIs(lines, g, sections[k], at[k] + 1, if k + 1 < |at| then at[k + 1] else |lines|)
    {
      SectionText(lines, seed, g, starts, at, sections[k], k);
    }
    GenerateThenParse(lines, g, starts, sections);
  }
}
