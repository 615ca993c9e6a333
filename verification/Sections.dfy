/** The section parser (`parseArchitectureSections`), and its composition with the anchor generator. */
module Sections {
  import opened Markdown
  import opened Slugs
  import opened Generator

  /** An anchor tag and nothing else. */
  predicate Sole(line: Line) {
    line.Anchor? || (line.Indented? && line.sole && |line.ids| == 1)
  }

  /** The line begins with two marks and a space. */
  predicate StartsLevel2(line: Line) {
    (line.Heading? || line.BareHeading?) && line.level == 2 && line.spaced
  }

  predicate IsAnchor(lines: seq<Line>, mask: seq<bool>, i: nat)
    requires |mask| == |lines|
  {
    i < |lines| && !mask[i] && Sole(lines[i])
  }

  /** Lines the search for a heading passes over. */
  predicate PassesOver(lines: seq<Line>, mask: seq<bool>, i: nat)
    requires |mask| == |lines|
  {
    i < |lines| && (IsAnchor(lines, mask, i) || mask[i])
  }

  /** From the anchor at `a` only anchors and code separate the section heading at `h`. */
  ghost predicate Introduces(lines: seq<Line>, mask: seq<bool>, a: nat, h: nat)
    requires |mask| == |lines|
  {
    && a < h < |lines| && IsAnchor(lines, mask, a)
    && (forall x: nat :: a < x < h ==> PassesOver(lines, mask, x))
    && !PassesOver(lines, mask, h) && StartsLevel2(lines[h])
  }

  datatype Start = Start(startIdx: nat, anchorIdx: nat, headingIdx: nat)

  /** A section starts at the first anchor that introduces its heading, with the last of that anchor's stack as its anchor. */
  ghost predicate IsStart(lines: seq<Line>, mask: seq<bool>, s: Start)
    requires |mask| == |lines|
  {
    && s.startIdx <= s.anchorIdx && Introduces(lines, mask, s.startIdx, s.headingIdx)
    && (forall a: nat :: Introduces(lines, mask, a, s.headingIdx) ==> s.startIdx <= a)
    && (forall x: nat :: s.startIdx <= x <= s.anchorIdx ==> IsAnchor(lines, mask, x))
    && s.anchorIdx < s.headingIdx && !IsAnchor(lines, mask, s.anchorIdx + 1)
  }

  /** The starts of a document: one per introduced heading, in order, the sections not overlapping. */
  ghost predicate AreStarts(lines: seq<Line>, mask: seq<bool>, starts: seq<Start>)
    requires |mask| == |lines|
  {
    && (forall k :: 0 <= k < |starts| ==> IsStart(lines, mask, starts[k]))
    && (forall j, k :: 0 <= j < k < |starts| ==> starts[j].headingIdx < starts[k].startIdx)
    && (forall a: nat, h: nat :: Introduces(lines, mask, a, h) ==> exists k :: 0 <= k < |starts| && starts[k].headingIdx == h)
  }

  ghost predicate FoundBefore(lines: seq<Line>, mask: seq<bool>, starts: seq<Start>, i: nat)
    requires |mask| == |lines|
  {
    forall a: nat, h: nat :: a < i && Introduces(lines, mask, a, h) ==> exists k :: 0 <= k < |starts| && starts[k].headingIdx == h
  }

  /** One anchor stack: where it ends, and the first line behind it that is neither anchor nor code. */
  method ScanStack(lines: seq<Line>, mask: seq<bool>, i: nat) returns (j: nat, k: nat)
    requires |mask| == |lines| && IsAnchor(lines, mask, i)
    ensures i <= j < k <= |lines|
    ensures forall x: nat :: i <= x <= j ==> IsAnchor(lines, mask, x)
    ensures !IsAnchor(lines, mask, j + 1)
    ensures forall x: nat :: i < x < k ==> PassesOver(lines, mask, x)
    ensures !PassesOver(lines, mask, k)
  {
    j := i;
    while j + 1 < |lines| && IsAnchor(lines, mask, j + 1)
      invariant i <= j < |lines|
      invariant forall x: nat :: i <= x <= j ==> IsAnchor(lines, mask, x)
    {
      j := j + 1;
    }
    k := j + 1;
    while k < |lines| && (IsAnchor(lines, mask, k) || mask[k])
      invariant j < k <= |lines|
      invariant forall x: nat :: i < x < k ==> PassesOver(lines, mask, x)
    {
      k := k + 1;
    }
  }

  /** Any anchor of the scanned stretch introduces the line the scan stopped at, or nothing. */
  lemma StretchIntroduces(lines: seq<Line>, mask: seq<bool>, i: nat, k: nat, a: nat, h: nat)
    requires |mask| == |lines| && i <= a < k <= |lines|
    requires forall x: nat :: i < x < k ==> PassesOver(lines, mask, x)
    requires !PassesOver(lines, mask, k) && Introduces(lines, mask, a, h)
    ensures h == k
  {
  }

  method FindStarts(lines: seq<Line>, mask: seq<bool>) returns (starts: seq<Start>)
    requires |mask| == |lines|
    ensures AreStarts(lines, mask, starts)
  {
    hide AreStarts, IsStart, Introduces, PassesOver, IsAnchor, FoundBefore;
    starts := [];
    var i := 0;
    NothingBefore(lines, mask);
    while i < |lines|
      invariant i <= |lines|
      invariant forall k :: 0 <= k < |starts| ==> IsStart(lines, mask, starts[k]) && starts[k].headingIdx < i
      invariant forall j, k :: 0 <= j < k < |starts| ==> starts[j].headingIdx < starts[k].startIdx
      invariant FoundBefore(lines, mask, starts, i)
    {
      if IsAnchorAt(lines, mask, i) {
        var j, k := ScanStack(lines, mask, i);
        if k < |lines| && StartsLevel2(lines[k]) {
          NewStart(lines, mask, starts, i, j, k);
          starts := starts + [Start(i, j, k)];
          i := k + 1;
        } else {
          NoStart(lines, mask, starts, i, j, k);
          i := j + 1;
        }
      } else {
        NotAnchor(lines, mask, starts, i);
        i := i + 1;
      }
    }
    AllFound(lines, mask, starts);
  }

  predicate IsAnchorAt(lines: seq<Line>, mask: seq<bool>, i: nat): (r: bool)
    requires |mask| == |lines|
    ensures r == IsAnchor(lines, mask, i)
  {
    IsAnchor(lines, mask, i)
  }

  lemma NothingBefore(lines: seq<Line>, mask: seq<bool>)
    requires |mask| == |lines|
    ensures FoundBefore(lines, mask, [], 0)
  {
  }

  lemma AllFound(lines: seq<Line>, mask: seq<bool>, starts: seq<Start>)
    requires |mask| == |lines| && FoundBefore(lines, mask, starts, |lines|)
    requires forall k :: 0 <= k < |starts| ==> IsStart(lines, mask, starts[k])
    requires forall j, k :: 0 <= j < k < |starts| ==> starts[j].headingIdx < starts[k].startIdx
    ensures AreStarts(lines, mask, starts)
  {
    hide IsStart;
  }

  lemma NotAnchor(lines: seq<Line>, mask: seq<bool>, starts: seq<Start>, i: nat)
    requires |mask| == |lines| && FoundBefore(lines, mask, starts, i) && !IsAnchor(lines, mask, i)
    ensures FoundBefore(lines, mask, starts, i + 1)
  {
  }

  lemma NoStart(lines: seq<Line>, mask: seq<bool>, starts: seq<Start>, i: nat, j: nat, k: nat)
    requires |mask| == |lines| && FoundBefore(lines, mask, starts, i) && i <= j < k <= |lines|
    requires forall x: nat :: i < x < k ==> PassesOver(lines, mask, x)
    requires !PassesOver(lines, mask, k) && (k == |lines| || !StartsLevel2(lines[k]))
    ensures FoundBefore(lines, mask, starts, j + 1)
  {
    hide PassesOver, IsAnchor;
    forall a: nat, h: nat | a < j + 1 && Introduces(lines, mask, a, h)
      ensures exists m :: 0 <= m < |starts| && starts[m].headingIdx == h
    {
      if a >= i {
        StretchIntroduces(lines, mask, i, k, a, h);
      }
    }
  }

  lemma NewStart(lines: seq<Line>, mask: seq<bool>, starts: seq<Start>, i: nat, j: nat, k: nat)
    requires |mask| == |lines| && FoundBefore(lines, mask, starts, i) && i <= j < k < |lines|
    requires forall m :: 0 <= m < |starts| ==> starts[m].headingIdx < i
    requires forall x: nat :: i <= x <= j ==> IsAnchor(lines, mask, x)
    requires !IsAnchor(lines, mask, j + 1)
    requires forall x: nat :: i < x < k ==> PassesOver(lines, mask, x)
    requires !PassesOver(lines, mask, k) && StartsLevel2(lines[k])
    ensures IsStart(lines, mask, Start(i, j, k))
    ensures FoundBefore(lines, mask, starts + [Start(i, j, k)], k + 1)
  {
    hide PassesOver, IsAnchor;
    var now := starts + [Start(i, j, k)];
    assert now[|starts|].headingIdx == k;
    assert forall m :: 0 <= m < |starts| ==> now[m] == starts[m];
    forall a: nat, h: nat | a < k + 1 && Introduces(lines, mask, a, h)
      ensures exists m :: 0 <= m < |now| && now[m].headingIdx == h
    {
      if i <= a < k {
        StretchIntroduces(lines, mask, i, k, a, h);
      } else if a == k {
        HeadingNoAnchor(lines, mask, k);
      } else {
        var m :| 0 <= m < |starts| && starts[m].headingIdx == h;
        assert now[m].headingIdx == h;
      }
    }
  }

  lemma HeadingNoAnchor(lines: seq<Line>, mask: seq<bool>, k: nat)
    requires |mask| == |lines| && !PassesOver(lines, mask, k)
    ensures !IsAnchor(lines, mask, k)
  {
  }

  // ----- sections

  /** Line numbers are one-based; the body runs from behind the heading to the end line. */
  datatype Section = Section(anchor: string, title: Line, startLine: nat, endLine: nat, body: seq<Line>)

  function SoleId(line: Line): string
    requires Sole(line)
  {
    if line.Anchor? then line.id else line.ids[0]
  }

  ghost predicate IsSection(lines: seq<Line>, starts: seq<Start>, k: nat, s: Section)
    requires k < |starts|
  {
    && starts[k].anchorIdx < |lines| && Sole(lines[starts[k].anchorIdx]) && starts[k].headingIdx < |lines|
    && s.anchor == SoleId(lines[starts[k].anchorIdx]) && s.title == lines[starts[k].headingIdx]
    && s.startLine == starts[k].startIdx + 1
    && s.endLine == (if k + 1 < |starts| then starts[k + 1].startIdx else |lines|)
    && starts[k].headingIdx + 1 <= s.endLine <= |lines|
    && s.body == lines[starts[k].headingIdx + 1..s.endLine]
  }

  ghost predicate AreSections(lines: seq<Line>, starts: seq<Start>, sections: seq<Section>) {
    |sections| == |starts| && forall k :: 0 <= k < |starts| ==> IsSection(lines, starts, k, sections[k])
  }

  method BuildSection(lines: seq<Line>, mask: seq<bool>, starts: seq<Start>, k: nat) returns (r: Section)
    requires |mask| == |lines| && AreStarts(lines, mask, starts) && k < |starts|
    ensures IsSection(lines, starts, k, r)
  {
    StartInRange(lines, mask, starts, k);
    hide AreStarts;
    var s := starts[k];
    var end := if k + 1 < |starts| then starts[k + 1].startIdx else |lines|;
    r := Section(SoleId(lines[s.anchorIdx]), lines[s.headingIdx], s.startIdx + 1, end, lines[s.headingIdx + 1..end]);
  }

  method ParseArchitectureSections(lines: seq<Line>) returns (sections: seq<Section>)
    ensures exists starts :: AreStarts(lines, Mask(lines), starts) && AreSections(lines, starts, sections)
  {
    hide AreStarts, IsSection;
    var mask := BuildCodeBlockMask(lines);
    var found := FindStarts(lines, mask);
    sections := [];
    for k := 0 to |found|
      invariant |sections| == k
      invariant forall m :: 0 <= m < k ==> IsSection(lines, found, m, sections[m])
    {
      var section := BuildSection(lines, mask, found, k);
      sections := sections + [section];
    }
    assert AreSections(lines, found, sections);
  }

  lemma StartInRange(lines: seq<Line>, mask: seq<bool>, starts: seq<Start>, k: nat)
    requires |mask| == |lines| && AreStarts(lines, mask, starts) && k < |starts|
    ensures starts[k].startIdx <= starts[k].anchorIdx < starts[k].headingIdx < |lines|
    ensures Sole(lines[starts[k].anchorIdx])
    ensures k + 1 < |starts| ==> starts[k].headingIdx < starts[k + 1].startIdx < |lines|
  {
    assert IsStart(lines, mask, starts[k]);
    assert IsAnchor(lines, mask, starts[k].anchorIdx);
    if k + 1 < |starts| {
      assert IsStart(lines, mask, starts[k + 1]);
    }
  }

  /** Sections tile the document from the first start to its last line. */
  lemma SectionsTile(lines: seq<Line>, starts: seq<Start>, sections: seq<Section>)
    requires AreStarts(lines, Mask(lines), starts) && AreSections(lines, starts, sections)
    ensures forall k :: 0 <= k < |sections| - 1 ==> sections[k + 1].startLine == sections[k].endLine + 1
    ensures sections != [] ==> sections[|sections| - 1].endLine == |lines|
    ensures forall k :: 0 <= k < |sections| ==> sections[k].startLine < sections[k].endLine
  {
    hide AreStarts, IsSection, Mask;
    forall k | 0 <= k < |sections|
      ensures sections[k].startLine < sections[k].endLine
      ensures sections[k].endLine == if k + 1 < |starts| then starts[k + 1].startIdx else |lines|
      ensures sections[k].startLine == starts[k].startIdx + 1
    {
      SectionSpan(lines, Mask(lines), starts, sections, k);
    }
    forall k | 0 <= k < |sections| - 1
      ensures sections[k + 1].startLine == sections[k].endLine + 1
    {
      SectionSpan(lines, Mask(lines), starts, sections, k + 1);
    }
    if sections != [] {
      SectionSpan(lines, Mask(lines), starts, sections, |sections| - 1);
    }
  }

  lemma SectionSpan(lines: seq<Line>, mask: seq<bool>, starts: seq<Start>, sections: seq<Section>, k: nat)
    requires |mask| == |lines| && AreStarts(lines, mask, starts) && AreSections(lines, starts, sections) && k < |sections|
    ensures sections[k].startLine < sections[k].endLine
    ensures sections[k].endLine == if k + 1 < |starts| then starts[k + 1].startIdx else |lines|
    ensures sections[k].startLine == starts[k].startIdx + 1
  {
    hide AreStarts, IsSection, Sole;
    StartInRange(lines, mask, starts, k);
    SectionLines(lines, starts, k, sections[k]);
  }

  lemma SectionLines(lines: seq<Line>, starts: seq<Start>, k: nat, s: Section)
    requires k < |starts| && IsSection(lines, starts, k, s)
    ensures s.startLine == starts[k].startIdx + 1
    ensures s.endLine == if k + 1 < |starts| then starts[k + 1].startIdx else |lines|
    ensures s.anchor == SoleId(lines[starts[k].anchorIdx]) && s.title == lines[starts[k].headingIdx]
  {
  }

  /** The starts are determined by the document. */
  lemma StartsUnique(lines: seq<Line>, mask: seq<bool>, a: seq<Start>, b: seq<Start>)
    requires |mask| == |lines| && AreStarts(lines, mask, a) && AreStarts(lines, mask, b)
    ensures a == b
  {
    hide IsStart, Introduces;
    StartsOrdered(lines, mask, a);
    StartsOrdered(lines, mask, b);
    forall s: Start
      ensures s in a <==> s in b
    {
      if s in a {
        StartInBoth(lines, mask, a, b, s);
      } else if s in b {
        StartInBoth(lines, mask, b, a, s);
      }
    }
    Ascending(a, b);
  }

  lemma StartInBoth(lines: seq<Line>, mask: seq<bool>, a: seq<Start>, b: seq<Start>, s: Start)
    requires |mask| == |lines| && AreStarts(lines, mask, a) && AreStarts(lines, mask, b) && s in a
    ensures s in b
  {
    assert IsStart(lines, mask, s);
    var m :| 0 <= m < |b| && b[m].headingIdx == s.headingIdx;
    assert IsStart(lines, mask, b[m]);
    SameStart(lines, mask, s, b[m]);
  }

  /** Two ascending lists with the same members are equal. */
  lemma {:induction false} Ascending(a: seq<Start>, b: seq<Start>)
    requires forall j, k :: 0 <= j < k < |a| ==> a[j].headingIdx < a[k].headingIdx
    requires forall j, k :: 0 <= j < k < |b| ==> b[j].headingIdx < b[k].headingIdx
    requires forall s :: s in a <==> s in b
    ensures a == b
  {
    if a == [] || b == [] {
      if a != [] {
        Shares(a, b);
      } else if b != [] {
        Shares(b, a);
      }
    } else {
      var x, y := a[|a| - 1], b[|b| - 1];
      assert x in b && y in a;
      assert x == y;
      var front, front' := a[..|a| - 1], b[..|b| - 1];
      forall s: Start
        ensures s in front <==> s in front'
      {
        LastAside(a, s);
        LastAside(b, s);
      }
      Ascending(front, front');
      assert a == front + [x] && b == front' + [y];
    }
  }

  lemma Shares(a: seq<Start>, b: seq<Start>)
    requires a != [] && forall s :: s in a ==> s in b
    ensures b != []
  {
    assert a[0] in a;
  }

  lemma LastAside(a: seq<Start>, s: Start)
    requires a != [] && forall j, k :: 0 <= j < k < |a| ==> a[j].headingIdx < a[k].headingIdx
    ensures s in a[..|a| - 1] <==> s in a && s != a[|a| - 1]
  {
    assert a == a[..|a| - 1] + [a[|a| - 1]];
  }

  lemma SameStart(lines: seq<Line>, mask: seq<bool>, s: Start, t: Start)
    requires |mask| == |lines| && IsStart(lines, mask, s) && IsStart(lines, mask, t) && s.headingIdx == t.headingIdx
    ensures s == t
  {
    hide IsAnchor, PassesOver;
    assert s.startIdx == t.startIdx;
  }

  // ----- generate, then parse

  /** A heading that deserves a section. */
  predicate Titled(line: Line) {
    line.Heading? && line.level == 2 && line.slug != ""
  }

  /** No explicit anchor outside code. */
  ghost predicate AnchorFree(lines: seq<Line>, mask: seq<bool>)
    requires |mask| == |lines|
  {
    forall i :: 0 <= i < |lines| && !mask[i] ==> LineIds(lines[i]) == []
  }

  /** Inserted lines are new anchors right above titled headings, every titled heading outside code has one
      above it, and no other line outside code holds an anchor. */
  ghost predicate Shaped(out: seq<Line>, mask: seq<bool>, flags: seq<bool>, used: set<string>)
    requires |mask| == |out| == |flags|
  {
    && (forall x :: 0 <= x < |out| && flags[x] ==>
          out[x].Anchor? && out[x].id in used && !mask[x] && x + 1 < |out| && !flags[x + 1] && !mask[x + 1] && Titled(out[x + 1]))
    && (forall x, y :: 0 <= x < y < |out| && flags[x] && flags[y] ==> out[x] != out[y])
    && (forall y :: 0 <= y < |out| && !flags[y] && !mask[y] && Titled(out[y]) ==> y > 0 && flags[y - 1])
    && (forall y :: 0 <= y < |out| && !flags[y] && !mask[y] ==> LineIds(out[y]) == [])
  }

  lemma ShapedKeep(out: seq<Line>, mask: seq<bool>, flags: seq<bool>, used: set<string>, line: Line, m: bool)
    requires |mask| == |out| == |flags| && Shaped(out, mask, flags, used)
    requires m || (!Titled(line) && LineIds(line) == [])
    ensures Shaped(out + [line], mask + [m], flags + [false], used)
  {
  }

  lemma ShapedInsert(out: seq<Line>, mask: seq<bool>, flags: seq<bool>, used: set<string>, id: string, line: Line)
    requires |mask| == |out| == |flags| && Shaped(out, mask, flags, used)
    requires id !in used && Titled(line) && LineIds(line) == []
    ensures Shaped(out + [Anchor(id)] + [line], mask + [false] + [false], flags + [true] + [false], used + {id})
  {
    hide Titled, LineIds;
    var n, now, m, f := |out|, out + [Anchor(id)] + [line], mask + [false] + [false], flags + [true] + [false];
    assert now[n] == Anchor(id) && now[n + 1] == line && f[n] && !f[n + 1] && !m[n] && !m[n + 1];
    assert forall x :: 0 <= x < n ==> now[x] == out[x] && f[x] == flags[x] && m[x] == mask[x];
    assert forall x :: 0 <= x < n && flags[x] ==> x + 1 < n;
    forall x, y | 0 <= x < y < |now| && f[x] && f[y]
      ensures now[x] != now[y]
    {
      assert y <= n && x < n;
      assert out[x].id in used;
    }
  }

  lemma {:induction false} OutputShaped(lines: seq<Line>, seed: set<string>, g: Generated)
    requires Generates(lines, seed, g) && AnchorFree(lines, Mask(lines))
    ensures |g.out| == |g.flags| && Shaped(g.out, Mask(g.out), g.flags, g.used)
  {
    hide Generates, Shaped, Mask, StateAfter, Hit, Next, WantsAnchor, Unspread;
    if lines == [] {
      NoLines(seed, g);
      NothingShaped(g.used);
    } else {
      var before, line := lines[..|lines| - 1], lines[|lines| - 1];
      assert lines == before + [line];
      MaskSnoc(before, line);
      FreePrefix(before, line, Mask(before), Hit(StateAfter(before), line));
      var rest := LastStep(lines, seed, g);
      OutputShaped(before, seed, rest);
      SameState(before, seed, rest);
      if WantsAnchor(before, line) {
        var id := g.added[|g.added| - 1];
        AnchorInvisible(before, line, id);
        WantedIsTitled(before, line);
        MaskSnoc(rest.out, Anchor(id));
        MaskSnoc(rest.out + [Anchor(id)], line);
        ShapedInsert(rest.out, Mask(rest.out), rest.flags, rest.used, id, line);
      } else {
        MaskSnoc(rest.out, line);
        UnwantedIsPlain(before, line);
        ShapedKeep(rest.out, Mask(rest.out), rest.flags, rest.used, line, Hit(StateAfter(before), line));
      }
    }
  }

  lemma NothingShaped(used: set<string>)
    ensures Mask([]) == [] && Shaped([], [], [], used)
  {
  }

  lemma FreePrefix(before: seq<Line>, line: Line, mask: seq<bool>, m: bool)
    requires |mask| == |before| && AnchorFree(before + [line], mask + [m])
    ensures AnchorFree(before, mask) && (!m ==> LineIds(line) == [])
  {
    forall i | 0 <= i < |before| && !mask[i]
      ensures LineIds(before[i]) == []
    {
      assert (before + [line])[i] == before[i] && (mask + [m])[i] == mask[i];
    }
    assert (before + [line])[|before|] == line && (mask + [m])[|before|] == m;
  }

  lemma WantedIsTitled(before: seq<Line>, line: Line)
    requires WantsAnchor(before, line)
    ensures Titled(line) && !Hit(StateAfter(before), line)
  {
  }

  /** Without anchors above, a heading outside code that gets none has an empty slug. */
  lemma UnwantedIsPlain(before: seq<Line>, line: Line)
    requires !WantsAnchor(before, line) && AnchorFree(before, Mask(before))
    ensures Hit(StateAfter(before), line) || !Titled(line)
  {
  }

  /** In a shaped document the anchors are the inserted lines, and each introduces the line below it. */
  lemma ShapedIntroduces(out: seq<Line>, mask: seq<bool>, flags: seq<bool>, used: set<string>, a: nat, h: nat)
    requires |mask| == |out| == |flags| && Shaped(out, mask, flags, used)
    ensures IsAnchor(out, mask, a) <==> a < |out| && flags[a]
    ensures Introduces(out, mask, a, h) <==> a < |out| && flags[a] && h == a + 1 && StartsLevel2(out[h])
  {
    if a < |out| && flags[a] {
      assert !PassesOver(out, mask, a + 1);
    }
  }

  /** Where the titled, spaced headings outside code are. */
  ghost predicate SectionHeading(lines: seq<Line>, mask: seq<bool>, y: nat)
    requires |mask| == |lines|
  {
    y < |lines| && !mask[y] && Titled(lines[y]) && lines[y].spaced
  }

  lemma HeadingNotInserted(out: seq<Line>, mask: seq<bool>, flags: seq<bool>, used: set<string>, y: nat)
    requires |mask| == |out| == |flags| && Shaped(out, mask, flags, used) && SectionHeading(out, mask, y)
    ensures !flags[y]
  {
  }

  lemma ShapedHeading(out: seq<Line>, mask: seq<bool>, flags: seq<bool>, used: set<string>, y: nat)
    requires |mask| == |out| == |flags| && Shaped(out, mask, flags, used) && SectionHeading(out, mask, y)
    ensures y > 0 && Introduces(out, mask, y - 1, y)
  {
    HeadingNotInserted(out, mask, flags, used, y);
    ShapedIntroduces(out, mask, flags, used, y - 1, y);
  }

  /** Parsing a generated document: one section per titled `## ` heading outside code, anchored by the line
      inserted right above it. */
  lemma SectionsAreHeadings(out: seq<Line>, mask: seq<bool>, flags: seq<bool>, used: set<string>, starts: seq<Start>)
    requires |mask| == |out| == |flags| && Shaped(out, mask, flags, used) && AreStarts(out, mask, starts)
    ensures forall k :: 0 <= k < |starts| ==>
      && starts[k].startIdx == starts[k].anchorIdx && starts[k].headingIdx == starts[k].startIdx + 1
      && starts[k].headingIdx < |out| && flags[starts[k].startIdx] && SectionHeading(out, mask, starts[k].headingIdx)
    ensures forall y: nat :: SectionHeading(out, mask, y) ==> exists k :: 0 <= k < |starts| && starts[k].headingIdx == y
  {
    hide Shaped, AreStarts, IsAnchor;
    forall k | 0 <= k < |starts|
      ensures starts[k].startIdx == starts[k].anchorIdx && starts[k].headingIdx == starts[k].startIdx + 1
      ensures starts[k].headingIdx < |out| && flags[starts[k].startIdx] && SectionHeading(out, mask, starts[k].headingIdx)
    {
      StartIs(out, mask, starts, k);
      ShapedIntroduces(out, mask, flags, used, starts[k].startIdx, starts[k].headingIdx);
      BelowInserted(out, mask, flags, used, starts[k].startIdx);
    }
    forall y: nat | SectionHeading(out, mask, y)
      ensures exists k :: 0 <= k < |starts| && starts[k].headingIdx == y
    {
      ShapedHeading(out, mask, flags, used, y);
      IntroducedIsStart(out, mask, starts, y - 1, y);
    }
  }

  lemma StartIs(lines: seq<Line>, mask: seq<bool>, starts: seq<Start>, k: nat)
    requires |mask| == |lines| && AreStarts(lines, mask, starts) && k < |starts|
    ensures IsStart(lines, mask, starts[k])
  {
    hide IsStart;
  }

  lemma IntroducedIsStart(lines: seq<Line>, mask: seq<bool>, starts: seq<Start>, a: nat, h: nat)
    requires |mask| == |lines| && AreStarts(lines, mask, starts) && Introduces(lines, mask, a, h)
    ensures exists k :: 0 <= k < |starts| && starts[k].headingIdx == h
  {
    hide IsStart, Introduces;
  }

  lemma BelowInserted(out: seq<Line>, mask: seq<bool>, flags: seq<bool>, used: set<string>, x: nat)
    requires |mask| == |out| == |flags| && Shaped(out, mask, flags, used) && x < |out| && flags[x]
    ensures x + 1 < |out| && !mask[x + 1] && Titled(out[x + 1]) && out[x].Anchor?
  {
  }

  /** The titled, spaced headings outside code, in order. */
  function Titles(lines: seq<Line>, mask: seq<bool>): seq<Line>
    requires |mask| == |lines|
  {
    if lines == [] then []
    else
      var n := |lines| - 1;
      Titles(lines[..n], mask[..n]) + if !mask[n] && Titled(lines[n]) && lines[n].spaced then [lines[n]] else []
  }

  lemma TitlesSnoc(lines: seq<Line>, mask: seq<bool>, line: Line, m: bool)
    requires |mask| == |lines|
    ensures Titles(lines + [line], mask + [m]) == Titles(lines, mask) + if !m && Titled(line) && line.spaced then [line] else []
  {
    assert (lines + [line])[..|lines|] == lines && (mask + [m])[..|lines|] == mask;
  }

  /** Generating does not change the headings. */
  lemma {:induction false} SameTitles(lines: seq<Line>, seed: set<string>, g: Generated)
    requires Generates(lines, seed, g)
    ensures Titles(g.out, Mask(g.out)) == Titles(lines, Mask(lines))
  {
    hide Generates, Titles, Mask, StateAfter, Hit, Next, WantsAnchor, Unspread;
    if lines == [] {
      NoLines(seed, g);
    } else {
      var before, line := lines[..|lines| - 1], lines[|lines| - 1];
      assert lines == before + [line];
      var rest := LastStep(lines, seed, g);
      SameTitles(before, seed, rest);
      SameState(before, seed, rest);
      MaskSnoc(before, line);
      var m := Hit(StateAfter(before), line);
      TitlesSnoc(before, Mask(before), line, m);
      if WantsAnchor(before, line) {
        var id := g.added[|g.added| - 1];
        AnchorInvisible(before, line, id);
        MaskSnoc(rest.out, Anchor(id));
        MaskSnoc(rest.out + [Anchor(id)], line);
        TitlesSnoc(rest.out, Mask(rest.out), Anchor(id), false);
        TitlesSnoc(rest.out + [Anchor(id)], Mask(rest.out) + [false], line, m);
      } else {
        MaskSnoc(rest.out, line);
        TitlesSnoc(rest.out, Mask(rest.out), line, m);
      }
    }
  }

  function HeadingsOf(lines: seq<Line>, starts: seq<Start>): (r: seq<Line>)
    requires forall k :: 0 <= k < |starts| ==> starts[k].headingIdx < |lines|
    ensures |r| == |starts| && forall k :: 0 <= k < |starts| ==> r[k] == lines[starts[k].headingIdx]
  {
    if starts == [] then [] else HeadingsOf(lines, starts[..|starts| - 1]) + [lines[starts[|starts| - 1].headingIdx]]
  }

  /** The starts list exactly the section headings, in order. */
  ghost predicate Enumerates(lines: seq<Line>, mask: seq<bool>, starts: seq<Start>)
    requires |mask| == |lines|
  {
    && (forall j, k :: 0 <= j < k < |starts| ==> starts[j].headingIdx < starts[k].headingIdx)
    && (forall k :: 0 <= k < |starts| ==> SectionHeading(lines, mask, starts[k].headingIdx))
    && (forall y: nat :: SectionHeading(lines, mask, y) ==> exists k :: 0 <= k < |starts| && starts[k].headingIdx == y)
  }

  /** Listing exactly the section headings in order lists the titles. */
  lemma {:induction false} EnumerationIsTitles(lines: seq<Line>, mask: seq<bool>, starts: seq<Start>)
    requires |mask| == |lines| && Enumerates(lines, mask, starts)
    ensures forall k :: 0 <= k < |starts| ==> starts[k].headingIdx < |lines|
    ensures HeadingsOf(lines, starts) == Titles(lines, mask)
    decreases |lines|
  {
    hide Enumerates, SectionHeading, Titled;
    InRange(lines, mask, starts);
    if lines == [] {
      ListedInOrder(lines, mask, starts);
      NoMoreThanLines(0, starts);
    } else {
      var n := |lines| - 1;
      HeadingAtEnd(lines, mask);
      if SectionHeading(lines, mask, n) {
        LastListed(lines, mask, starts);
        EnumerationIsTitles(lines[..n], mask[..n], starts[..|starts| - 1]);
        HeadingsPrefix(lines, n, starts[..|starts| - 1]);
      } else {
        LastUnlisted(lines, mask, starts);
        EnumerationIsTitles(lines[..n], mask[..n], starts);
        HeadingsPrefix(lines, n, starts);
      }
    }
  }

  lemma HeadingsPrefix(lines: seq<Line>, n: nat, starts: seq<Start>)
    requires n <= |lines| && forall k :: 0 <= k < |starts| ==> starts[k].headingIdx < n
    ensures HeadingsOf(lines[..n], starts) == HeadingsOf(lines, starts)
  {
    hide HeadingsOf;
  }

  lemma ListedInOrder(lines: seq<Line>, mask: seq<bool>, starts: seq<Start>)
    requires |mask| == |lines| && Enumerates(lines, mask, starts)
    ensures forall j, k :: 0 <= j < k < |starts| ==> starts[j].headingIdx < starts[k].headingIdx
  {
  }

  lemma HeadingAtEnd(lines: seq<Line>, mask: seq<bool>)
    requires |mask| == |lines| && lines != []
    ensures var n := |lines| - 1; SectionHeading(lines, mask, n) <==> !mask[n] && Titled(lines[n]) && lines[n].spaced
  {
  }

  lemma InRange(lines: seq<Line>, mask: seq<bool>, starts: seq<Start>)
    requires |mask| == |lines| && Enumerates(lines, mask, starts)
    ensures forall k :: 0 <= k < |starts| ==> starts[k].headingIdx < |lines|
  {
    forall k | 0 <= k < |starts|
      ensures starts[k].headingIdx < |lines|
    {
      assert SectionHeading(lines, mask, starts[k].headingIdx);
    }
  }

  /** Distinct positions in order: no more of them than lines. */
  lemma {:induction false} NoMoreThanLines(n: nat, starts: seq<Start>)
    requires forall k :: 0 <= k < |starts| ==> starts[k].headingIdx < n
    requires forall j, k :: 0 <= j < k < |starts| ==> starts[j].headingIdx < starts[k].headingIdx
    ensures |starts| <= n
    decreases |starts|
  {
    if |starts| > 0 {
      NoMoreThanLines(starts[|starts| - 1].headingIdx, starts[..|starts| - 1]);
    }
  }

  lemma LastUnlisted(lines: seq<Line>, mask: seq<bool>, starts: seq<Start>)
    requires |mask| == |lines| && lines != [] && Enumerates(lines, mask, starts) && !SectionHeading(lines, mask, |lines| - 1)
    ensures Enumerates(lines[..|lines| - 1], mask[..|lines| - 1], starts)
  {
    HeadingPrefix(lines, mask);
    forall k | 0 <= k < |starts|
      ensures starts[k].headingIdx < |lines| - 1
    {
      assert SectionHeading(lines, mask, starts[k].headingIdx);
    }
    var lines', mask' := lines[..|lines| - 1], mask[..|lines| - 1];
    forall y: nat | SectionHeading(lines', mask', y)
      ensures exists k :: 0 <= k < |starts| && starts[k].headingIdx == y
    {
      assert SectionHeading(lines, mask, y);
    }
  }

  lemma HeadingPrefix(lines: seq<Line>, mask: seq<bool>)
    requires |mask| == |lines| && lines != []
    ensures forall y: nat :: y < |lines| - 1 ==>
      (SectionHeading(lines[..|lines| - 1], mask[..|lines| - 1], y) <==> SectionHeading(lines, mask, y))
  {
  }

  lemma LastListed(lines: seq<Line>, mask: seq<bool>, starts: seq<Start>)
    requires |mask| == |lines| && lines != [] && Enumerates(lines, mask, starts) && SectionHeading(lines, mask, |lines| - 1)
    ensures starts != [] && starts[|starts| - 1].headingIdx == |lines| - 1
    ensures Enumerates(lines[..|lines| - 1], mask[..|lines| - 1], starts[..|starts| - 1])
  {
    HeadingPrefix(lines, mask);
    var k :| 0 <= k < |starts| && starts[k].headingIdx == |lines| - 1;
    assert SectionHeading(lines, mask, starts[|starts| - 1].headingIdx);
    assert k == |starts| - 1;
    var front, lines', mask' := starts[..k], lines[..|lines| - 1], mask[..|lines| - 1];
    forall y: nat | SectionHeading(lines', mask', y)
      ensures exists m :: 0 <= m < |front| && front[m].headingIdx == y
    {
      assert SectionHeading(lines, mask, y);
      var m :| 0 <= m < |starts| && starts[m].headingIdx == y;
      assert front[m].headingIdx == y;
    }
  }

  /** Generate, then parse: on a document without anchors outside code, the sections are exactly the original's
      titled `## ` headings outside code, in order, each anchored by its own new id. */
  lemma GenerateThenParse(lines: seq<Line>, g: Generated, starts: seq<Start>, sections: seq<Section>)
    requires AnchorFree(lines, Mask(lines)) && Generates(lines, ExplicitAnchors(lines, Mask(lines)), g)
    requires AreStarts(g.out, Mask(g.out), starts) && AreSections(g.out, starts, sections)
    ensures |sections| == |Titles(lines, Mask(lines))|
    ensures forall k :: 0 <= k < |sections| ==> sections[k].title == Titles(lines, Mask(lines))[k]
    ensures forall j, k :: 0 <= j < k < |sections| ==> sections[j].anchor != sections[k].anchor
  {
    hide Generates, Shaped, AreStarts, Titles, AnchorFree, IsSection, ExplicitAnchors, SectionHeading;
    var mask, seed := Mask(g.out), ExplicitAnchors(lines, Mask(lines));
    OutputShaped(lines, seed, g);
    SameTitles(lines, seed, g);
    SectionsAreHeadings(g.out, mask, g.flags, g.used, starts);
    StartsOrdered(g.out, mask, starts);
    EnumerationIsTitles(g.out, mask, starts);
    forall k | 0 <= k < |sections|
      ensures sections[k].title == g.out[starts[k].headingIdx]
      ensures g.out[starts[k].startIdx].Anchor? && sections[k].anchor == g.out[starts[k].startIdx].id
    {
      BelowInserted(g.out, mask, g.flags, g.used, starts[k].startIdx);
      SectionLines(g.out, starts, k, sections[k]);
    }
    forall j, k | 0 <= j < k < |sections|
      ensures sections[j].anchor != sections[k].anchor
    {
      InsertedDiffer(g.out, mask, g.flags, g.used, starts[j].startIdx, starts[k].startIdx);
    }
  }

  lemma StartsOrdered(lines: seq<Line>, mask: seq<bool>, starts: seq<Start>)
    requires |mask| == |lines| && AreStarts(lines, mask, starts)
    ensures forall j, k :: 0 <= j < k < |starts| ==> starts[j].headingIdx < starts[k].startIdx < starts[k].headingIdx
    ensures forall k :: 0 <= k < |starts| ==> starts[k].startIdx < starts[k].headingIdx
  {
    forall k | 0 <= k < |starts|
      ensures starts[k].startIdx < starts[k].headingIdx
    {
      assert IsStart(lines, mask, starts[k]);
    }
  }

  lemma InsertedDiffer(out: seq<Line>, mask: seq<bool>, flags: seq<bool>, used: set<string>, x: nat, y: nat)
    requires |mask| == |out| == |flags| && Shaped(out, mask, flags, used)
    requires x < y < |out| && flags[x] && flags[y]
    ensures out[x] != out[y] && out[x].Anchor? && out[y].Anchor?
  {
  }
}
