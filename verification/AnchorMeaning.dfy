/** Fenced blocks, declared anchors and generated anchors in plain terms: which lines, which ids, in which order. */
module AnchorMeaning {
  import opened Markdown
  import opened Slugs
  import opened Generator

  // ----- fenced blocks

  /** A line that ends a fenced block opened by `open`: the same mark, at least as often, and nothing behind it. */
  predicate EndsBlock(open: Line, line: Line) {
    open.Fence? && line.Fence? && line.bare && line.mark == open.mark && open.len <= line.len
  }

  /** The fenced blocks of a document from top to bottom, each from its opening fence up to and with the first line
      that ends it, or to the end of the document; a fence outside all blocks would open one. */
  ghost predicate AreBlocks(lines: seq<Line>, blocks: seq<(nat, nat)>) {
    && (forall k :: 0 <= k < |blocks| ==> IsBlock(lines, blocks[k].0, blocks[k].1))
    && (forall j, k :: 0 <= j < k < |blocks| ==> blocks[j].1 <= blocks[k].0)
    && (forall i :: 0 <= i < |lines| && lines[i].Fence? ==> Covered(blocks, i))
  }

  ghost predicate IsBlock(lines: seq<Line>, first: nat, behind: nat) {
    && first < behind <= |lines| && lines[first].Fence?
    && (forall j :: first < j < behind - 1 ==> !EndsBlock(lines[first], lines[j]))
    && (behind < |lines| ==> behind - 1 > first && EndsBlock(lines[first], lines[behind - 1]))
  }

  ghost predicate Covered(blocks: seq<(nat, nat)>, i: int) {
    exists k :: 0 <= k < |blocks| && blocks[k].0 <= i < blocks[k].1
  }

  /** Every document has them. */
  lemma BlocksExist(lines: seq<Line>) returns (blocks: seq<(nat, nat)>)
    ensures AreBlocks(lines, blocks)
  {
    hide IsBlock;
    blocks := [];
    var n := 0;
    while n < |lines|
      invariant n <= |lines|
      invariant forall k :: 0 <= k < |blocks| ==> IsBlock(lines, blocks[k].0, blocks[k].1) && blocks[k].1 <= n
      invariant forall j, k :: 0 <= j < k < |blocks| ==> blocks[j].1 <= blocks[k].0
      invariant forall i :: 0 <= i < n && lines[i].Fence? ==> Covered(blocks, i)
    {
      if lines[n].Fence? {
        var behind := BlockFrom(lines, n);
        var more := blocks + [(n, behind)];
        forall i | 0 <= i < behind && lines[i].Fence?
          ensures Covered(more, i)
        {
          if i < n {
            var k :| 0 <= k < |blocks| && blocks[k].0 <= i < blocks[k].1;
            assert more[k] == blocks[k];
          } else {
            assert more[|blocks|] == (n, behind);
          }
        }
        blocks, n := more, behind;
      } else {
        n := n + 1;
      }
    }
  }

  lemma BlockFrom(lines: seq<Line>, first: nat) returns (behind: nat)
    requires first < |lines| && lines[first].Fence?
    ensures IsBlock(lines, first, behind) && first < behind <= |lines|
  {
    behind := first + 1;
    while behind < |lines| && !(behind - 1 > first && EndsBlock(lines[first], lines[behind - 1]))
      invariant first < behind <= |lines|
      invariant forall j :: first < j < behind - 1 ==> !EndsBlock(lines[first], lines[j])
    {
      behind := behind + 1;
    }
  }

  lemma EndsIsCloses(open: Line, line: Line)
    requires open.Fence?
    ensures EndsBlock(open, line) <==> Closes(open.mark, open.len, line)
  {
  }

  lemma InsideReaches(lines: seq<Line>, first: nat, behind: nat, i: nat)
    requires IsBlock(lines, first, behind) && first <= i <= |lines|
    ensures Reaches(lines, first, i) <==> i < behind || (behind == |lines| && Reaches(lines, first, i))
  {
    hide EndsBlock, Closes;
    forall j | first < j < |lines|
      ensures EndsBlock(lines[first], lines[j]) <==> Closes(lines[first].mark, lines[first].len, lines[j])
    {
      EndsIsCloses(lines[first], lines[j]);
    }
  }

  /** The blocks' first lines are the fences that open. */
  lemma {:induction false} OpensIsFirst(lines: seq<Line>, blocks: seq<(nat, nat)>, o: nat)
    requires AreBlocks(lines, blocks) && o < |lines|
    ensures Opens(lines, o) <==> exists k :: 0 <= k < |blocks| && blocks[k].0 == o
  {
    hide IsBlock, Reaches;
    forall p: nat | p < o
      ensures Opens(lines, p) <==> exists k :: 0 <= k < |blocks| && blocks[k].0 == p
    {
      OpensIsFirst(lines, blocks, p);
    }
    if k :| 0 <= k < |blocks| && blocks[k].0 == o {
      IsBlockFirst(lines, blocks, k);
      forall p: nat | p < o && Opens(lines, p)
        ensures !Reaches(lines, p, o)
      {
        var m :| 0 <= m < |blocks| && blocks[m].0 == p;
        IsBlockFirst(lines, blocks, m);
        IsBlockFirst(lines, blocks, k);
        assert m < k;
        InsideReaches(lines, p, blocks[m].1, o);
      }
    } else if lines[o].Fence? {
      var k :| 0 <= k < |blocks| && blocks[k].0 <= o < blocks[k].1;
      IsBlockFirst(lines, blocks, k);
      InsideReaches(lines, blocks[k].0, blocks[k].1, o);
    }
  }

  lemma IsBlockFirst(lines: seq<Line>, blocks: seq<(nat, nat)>, k: nat)
    requires AreBlocks(lines, blocks) && k < |blocks|
    ensures IsBlock(lines, blocks[k].0, blocks[k].1) && blocks[k].0 < blocks[k].1 <= |lines| && lines[blocks[k].0].Fence?
    ensures forall m :: 0 <= m < |blocks| && blocks[m].0 < blocks[k].0 ==> m < k
  {
    hide Covered, EndsBlock;
    forall m | 0 <= m < |blocks| && m > k
      ensures blocks[m].0 >= blocks[k].0
    {
      assert IsBlock(lines, blocks[k].0, blocks[k].1);
    }
  }

  /** A line lies in a fenced block exactly when it is in one of these. */
  lemma FencedMeans(lines: seq<Line>, blocks: seq<(nat, nat)>, i: nat)
    requires AreBlocks(lines, blocks) && i < |lines|
    ensures InFencedBlock(lines, i) <==> Covered(blocks, i)
  {
    hide IsBlock, Reaches, Opens, AreBlocks;
    if o: nat :| o <= i && Opens(lines, o) && Reaches(lines, o, i) {
      OpensIsFirst(lines, blocks, o);
      var k :| 0 <= k < |blocks| && blocks[k].0 == o;
      IsBlockFirst(lines, blocks, k);
      InsideReaches(lines, o, blocks[k].1, i);
    }
    if k :| 0 <= k < |blocks| && blocks[k].0 <= i < blocks[k].1 {
      IsBlockFirst(lines, blocks, k);
      OpensIsFirst(lines, blocks, blocks[k].0);
      InsideReaches(lines, blocks[k].0, blocks[k].1, i);
    }
  }

  // ----- ids

  /** The line has a tag with this id. */
  predicate Carries(line: Line, id: string) {
    line == Anchor(id) || ((line.Indented? || line.Heading? || line.Lone? || line.Text?) && id in line.ids)
  }

  /** The declared ids are those of the tags outside code. */
  lemma ExplicitAre(lines: seq<Line>, id: string)
    ensures id in ExplicitAnchors(lines, Mask(lines)) <==> exists i :: 0 <= i < |lines| && !Mask(lines)[i] && Carries(lines[i], id)
  {
    hide Mask;
    var mask := Mask(lines);
    forall line: Line
      ensures id in LineIds(line) <==> Carries(line, id)
    {
      IdsAre(line, id);
    }
    if i :| 0 <= i < |lines| && !mask[i] && Carries(lines[i], id) {
      assert id in LineIds(lines[i]);
    }
  }

  lemma IdsAre(line: Line, id: string)
    ensures id in LineIds(line) <==> Carries(line, id)
  {
  }

  ghost predicate Tagged(line: Line) {
    exists id :: Carries(line, id)
  }

  lemma NoIds(line: Line)
    ensures LineIds(line) != [] <==> Tagged(line)
  {
    forall id
      ensures id in LineIds(line) <==> Carries(line, id)
    {
      IdsAre(line, id);
    }
    if LineIds(line) != [] {
      assert LineIds(line)[0] in LineIds(line);
    }
  }

  /** A decimal numeral: digits, no leading zero, and the number they stand for. */
  ghost predicate IsNumeral(d: string, k: nat) {
    d != "" && d[0] != '0' && (forall i :: 0 <= i < |d| ==> '0' <= d[i] <= '9') && ValueOf(d) == k
  }

  lemma {:induction false} DecimalIsNumeral(k: nat)
    requires k > 0
    ensures IsNumeral(Decimal(k), k)
  {
    DecimalValue(k);
    if k >= 10 {
      DecimalIsNumeral(k / 10);
    }
  }

  /** The candidates are the slug, and the slug with a dash and a number from one up. */
  lemma CandidatesAre(slug: string, k: nat)
    ensures k == 0 ==> Suffixed(slug, k) == slug
    ensures k > 0 ==>
      var c := Suffixed(slug, k); |c| > |slug| + 1 && c[..|slug| + 1] == slug + "-" && IsNumeral(c[|slug| + 1..], k)
  {
    if k > 0 {
      DecimalIsNumeral(k);
      assert Suffixed(slug, k)[|slug| + 1..] == Decimal(k);
    }
  }

  /** `id` is the first of the candidates for `slug` that is not used. */
  ghost predicate FirstUnused(slug: string, used: set<string>, id: string) {
    id !in used && exists k: nat :: id == Suffixed(slug, k) && forall m: nat :: m < k ==> Suffixed(slug, m) in used
  }

  // ----- the anchors a document declares

  /** A heading of level one to six, outside code, with something to make an anchor of. */
  ghost predicate NamedHeading(lines: seq<Line>, mask: seq<bool>, i: nat)
    requires |mask| == |lines|
  {
    i < |lines| && !mask[i] && lines[i].Heading? && lines[i].level in {1, 2, 3, 4, 5, 6} && lines[i].slug != ""
  }

  ghost function Named(lines: seq<Line>, mask: seq<bool>): nat -> bool
    requires |mask| == |lines|
  {
    (i: nat) => NamedHeading(lines, mask, i)
  }

  /** `at` lists, in order, exactly the positions below `n` with the property. */
  ghost predicate Lists(at: seq<nat>, p: nat -> bool, n: nat) {
    && (forall j, k :: 0 <= j < k < |at| ==> at[j] < at[k])
    && (forall k :: 0 <= k < |at| ==> at[k] < n && p(at[k]))
    && (forall i: nat :: i < n && p(i) ==> i in at)
  }

  lemma ListsMore(at: seq<nat>, p: nat -> bool, q: nat -> bool, n: nat)
    requires Lists(at, p, n) && forall i: nat :: i < n ==> p(i) == q(i)
    ensures Lists(if q(n) then at + [n] else at, q, n + 1)
  {
    var more := if q(n) then at + [n] else at;
    if q(n) {
      assert more[|at|] == n;
    }
    forall i: nat | i < n + 1 && q(i)
      ensures i in more
    {
      if i < n {
        assert i in at;
      }
    }
  }

  /** Every named heading is given, in document order, the first candidate that is neither declared nor given before;
      together with the declared ids these are the anchors. */
  ghost predicate Assigned(lines: seq<Line>, mask: seq<bool>, start: set<string>, given: seq<string>, anchors: set<string>, at: seq<nat>)
    requires |mask| == |lines|
  {
    && Lists(at, Named(lines, mask), |lines|) && |at| == |given|
    && (forall k :: 0 <= k < |at| ==> at[k] < |lines|)
    && (forall k :: 0 <= k < |given| ==> FirstUnused(Slug(lines[at[k]]), start + Set(given[..k]), given[k]))
    && anchors == start + Set(given)
  }

  function Slug(line: Line): string {
    if line.Heading? then line.slug else ""
  }

  lemma {:induction false} AssignmentMeans(lines: seq<Line>, mask: seq<bool>, start: set<string>, given: seq<string>, anchors: set<string>)
    returns (at: seq<nat>)
    requires |mask| == |lines| && NaiveAssignment(lines, mask, start, given, anchors)
    ensures Assigned(lines, mask, start, given, anchors, at)
  {
    hide Assigned;
    if lines == [] {
      at := [];
      NoneAssigned(mask, start);
    } else {
      var n := |lines| - 1;
      var before, marks := lines[..n], mask[..n];
      if mask[n] || !Sluggable(lines[n]) {
        at := AssignmentMeans(before, marks, start, given, anchors);
        AssignedSkip(lines, mask, start, given, anchors, at);
      } else {
        var front, id := given[..|given| - 1], given[|given| - 1];
        at := AssignmentMeans(before, marks, start, front, anchors - {id});
        LastGiven(lines[n].slug, start, given, anchors, at, before, marks);
        AssignedMore(lines, mask, start, given, anchors, at);
        at := at + [n];
      }
    }
  }

  lemma NoneAssigned(mask: seq<bool>, start: set<string>)
    requires mask == []
    ensures Assigned([], mask, start, [], start, [])
  {
  }

  lemma SameNamed(lines: seq<Line>, mask: seq<bool>)
    requires |mask| == |lines| && lines != []
    ensures var n := |lines| - 1; forall i: nat :: i < n ==> Named(lines[..n], mask[..n])(i) == Named(lines, mask)(i)
  {
  }

  lemma AssignedSkip(lines: seq<Line>, mask: seq<bool>, start: set<string>, given: seq<string>, anchors: set<string>, at: seq<nat>)
    requires |mask| == |lines| && lines != [] && (mask[|lines| - 1] || !Sluggable(lines[|lines| - 1]))
    requires Assigned(lines[..|lines| - 1], mask[..|lines| - 1], start, given, anchors, at)
    ensures Assigned(lines, mask, start, given, anchors, at)
  {
    hide Lists, FirstUnused;
    var n := |lines| - 1;
    SameNamed(lines, mask);
    ListsMore(at, Named(lines[..n], mask[..n]), Named(lines, mask), n);
  }

  lemma AssignedMore(lines: seq<Line>, mask: seq<bool>, start: set<string>, given: seq<string>, anchors: set<string>, at: seq<nat>)
    requires |mask| == |lines| && lines != [] && !mask[|lines| - 1] && Sluggable(lines[|lines| - 1]) && given != []
    requires Assigned(lines[..|lines| - 1], mask[..|lines| - 1], start, given[..|given| - 1], anchors - {given[|given| - 1]}, at)
    requires FirstUnused(lines[|lines| - 1].slug, start + Set(given[..|given| - 1]), given[|given| - 1])
    requires anchors == start + Set(given)
    ensures Assigned(lines, mask, start, given, anchors, at + [|lines| - 1])
  {
    hide Lists, FirstUnused, Set;
    var n := |lines| - 1;
    SameNamed(lines, mask);
    ListsMore(at, Named(lines[..n], mask[..n]), Named(lines, mask), n);
    assert Named(lines, mask)(n);
    assert forall k :: 0 <= k < |given| - 1 ==> given[..k] == given[..|given| - 1][..k];
  }

  function Set(ids: seq<string>): set<string> {
    set id | id in ids
  }

  lemma LastGiven(slug: string, start: set<string>, given: seq<string>, anchors: set<string>, at: seq<nat>, lines: seq<Line>, mask: seq<bool>)
    requires |mask| == |lines| && given != [] && given[|given| - 1] in anchors
    requires Assigned(lines, mask, start, given[..|given| - 1], anchors - {given[|given| - 1]}, at)
    requires exists k: nat :: given[|given| - 1] == Suffixed(slug, k) && LeastFree(slug, anchors - {given[|given| - 1]}, k)
    ensures FirstUnused(slug, start + Set(given[..|given| - 1]), given[|given| - 1])
    ensures anchors == start + Set(given)
  {
    hide Suffixed, Lists;
    var front, id := given[..|given| - 1], given[|given| - 1];
    assert given == front + [id];
    assert anchors == (anchors - {id}) + {id};
    assert Set(given) == Set(front) + {id};
  }

  // ----- what the generator writes

  /** The line above is outside code and has a tag. */
  ghost predicate TagAbove(lines: seq<Line>, i: nat)
    requires i < |lines|
  {
    i > 0 && !Mask(lines)[i - 1] && Tagged(lines[i - 1])
  }

  /** A heading of level two outside code. */
  ghost predicate SecondLevel(lines: seq<Line>, i: nat) {
    i < |lines| && !Mask(lines)[i] && lines[i].Heading? && lines[i].level == 2
  }

  /** Such a heading without a tag above it, with something to make an anchor of. */
  ghost predicate Lacking(lines: seq<Line>, i: nat) {
    SecondLevel(lines, i) && lines[i].slug != "" && !TagAbove(lines, i)
  }

  ghost function LackingIn(lines: seq<Line>): nat -> bool {
    (i: nat) => Lacking(lines, i)
  }

  ghost function TaggedIn(lines: seq<Line>): set<nat> {
    set i: nat | i < |lines| && SecondLevel(lines, i) && TagAbove(lines, i)
  }

  /** `k` of the listed positions are at or before `i`. */
  ghost predicate UpTo(at: seq<nat>, i: nat, k: nat) {
    k <= |at| && (k == 0 || at[k - 1] <= i) && (k == |at| || i < at[k])
  }

  /** `at` are the lacking headings; each gets, right above it, the first candidate that is neither declared nor given
      before; all lines follow one another as they did; and the count of anchored headings is that of those with a tag. */
  ghost predicate Written(lines: seq<Line>, seed: set<string>, g: Generated, at: seq<nat>) {
    && Lists(at, LackingIn(lines), |lines|) && |at| == |g.added|
    && |g.out| == |lines| + |at| && (forall k :: 0 <= k < |at| ==> at[k] < |lines|)
    && (forall k :: 0 <= k < |at| ==> g.out[at[k] + k] == Anchor(g.added[k]))
    && (forall i: nat, k: nat :: i < |lines| && UpTo(at, i, k) ==> g.out[i + k] == lines[i])
    && (forall k :: 0 <= k < |at| ==> FirstUnused(Slug(lines[at[k]]), seed + Set(g.added[..k]), g.added[k]))
    && g.used == seed + Set(g.added)
    && g.already == |TaggedIn(lines)|
  }

  /** What the mask and the tag above say of a line does not depend on the lines below. */
  lemma SameAbove(lines: seq<Line>, n: nat, i: nat)
    requires i < n <= |lines|
    ensures Mask(lines[..n])[i] == Mask(lines)[i]
    ensures TagAbove(lines[..n], i) == TagAbove(lines, i) && SecondLevel(lines[..n], i) == SecondLevel(lines, i)
    ensures Lacking(lines[..n], i) == Lacking(lines, i)
  {
    hide Mask, Carries;
    SameMask(lines, n, i);
    if i > 0 {
      SameMask(lines, n, i - 1);
    }
  }

  lemma SameMask(lines: seq<Line>, n: nat, i: nat)
    requires i < n <= |lines|
    ensures Mask(lines[..n])[i] == Mask(lines)[i]
  {
    hide Mask;
    MaskAt(lines[..n], i);
    MaskAt(lines, i);
    assert lines[..n][..i] == lines[..i];
  }

  lemma WantsIsLacking(lines: seq<Line>, i: nat)
    requires i < |lines|
    ensures WantsAnchor(lines[..i], lines[i]) <==> Lacking(lines, i)
    ensures Anchored(lines[..i], lines[i]) == if SecondLevel(lines, i) && TagAbove(lines, i) then 1 else 0
  {
    hide Mask, Carries, Anchors, IsLevel2, LineIds;
    Tests(lines, i);
    if i > 0 {
      NoIds(lines[i - 1]);
    }
  }

  lemma {:induction false} WrittenMeans(lines: seq<Line>, seed: set<string>, g: Generated) returns (at: seq<nat>)
    requires Generates(lines, seed, g)
    ensures Written(lines, seed, g, at)
  {
    hide Generates, Written, WantsAnchor, Anchored, Lacking;
    if lines == [] {
      NoLines(seed, g);
      at := [];
      NothingWritten(seed);
    } else {
      var n := |lines| - 1;
      var before, line := lines[..n], lines[n];
      var rest := LastStep(lines, seed, g);
      at := WrittenMeans(before, seed, rest);
      WantsIsLacking(lines, n);
      if WantsAnchor(before, line) {
        assert lines == before + [line];
        LastIsFree(before, line, seed, g);
        WrittenMore(lines, seed, rest, g, at);
        at := at + [n];
      } else {
        WrittenOn(lines, seed, rest, g, at);
      }
    }
  }

  lemma NothingWritten(seed: set<string>)
    ensures Written([], seed, Generated([], [], seed, [], 0), [])
  {
    assert TaggedIn([]) == {};
  }

  lemma LastIsFree(before: seq<Line>, line: Line, seed: set<string>, g: Generated)
    requires Generates(before + [line], seed, g) && WantsAnchor(before, line)
    ensures g.added != [] && line.Heading? && FirstUnused(line.slug, g.used - {g.added[|g.added| - 1]}, g.added[|g.added| - 1])
  {
    GeneratesSnoc(before, line, seed, g);
    hide Generates, Suffixed;
  }

  lemma TaggedGrow(lines: seq<Line>)
    requires lines != []
    ensures var n := |lines| - 1;
      |TaggedIn(lines)| == |TaggedIn(lines[..n])| + if SecondLevel(lines, n) && TagAbove(lines, n) then 1 else 0
  {
    hide SecondLevel, TagAbove;
    var n := |lines| - 1;
    forall i: nat | i < n
      ensures TagAbove(lines[..n], i) == TagAbove(lines, i) && SecondLevel(lines[..n], i) == SecondLevel(lines, i)
    {
      SameAbove(lines, n, i);
    }
    var small, big := TaggedIn(lines[..n]), TaggedIn(lines);
    if SecondLevel(lines, n) && TagAbove(lines, n) {
      assert big == small + {n};
    } else {
      assert big == small;
    }
  }

  lemma LackingGrow(lines: seq<Line>, at: seq<nat>)
    requires lines != [] && Lists(at, LackingIn(lines[..|lines| - 1]), |lines| - 1)
    ensures var n := |lines| - 1; Lists(if Lacking(lines, n) then at + [n] else at, LackingIn(lines), |lines|)
  {
    hide Lacking, Lists;
    var n := |lines| - 1;
    forall i: nat | i < n
      ensures LackingIn(lines[..n])(i) == LackingIn(lines)(i)
    {
      SameAbove(lines, n, i);
    }
    ListsMore(at, LackingIn(lines[..n]), LackingIn(lines), n);
  }

  lemma AllBefore(at: seq<nat>, n: nat, k: nat)
    requires UpTo(at, n, k) && forall j :: 0 <= j < |at| ==> at[j] < n
    ensures k == |at|
  {
  }

  lemma BehindAll(at: seq<nat>, n: nat, k: nat)
    requires UpTo(at, n, k) && forall j :: 0 <= j < |at| ==> at[j] <= n
    ensures k == |at|
  {
  }

  lemma WrittenOn(lines: seq<Line>, seed: set<string>, rest: Generated, g: Generated, at: seq<nat>)
    requires lines != [] && Written(lines[..|lines| - 1], seed, rest, at) && !Lacking(lines, |lines| - 1)
    requires g.added == rest.added && g.used == rest.used && g.out == rest.out + [lines[|lines| - 1]]
    requires var n := |lines| - 1; g.already == rest.already + if SecondLevel(lines, n) && TagAbove(lines, n) then 1 else 0
    ensures Written(lines, seed, g, at)
  {
    hide Lists, Lacking, FirstUnused, Set, SecondLevel, TagAbove, TaggedIn;
    TaggedGrow(lines);
    LackingGrow(lines, at);
    var n := |lines| - 1;
    forall i: nat, k: nat | i < |lines| && UpTo(at, i, k)
      ensures g.out[i + k] == lines[i]
    {
      if i == n {
        AllBefore(at, n, k);
      }
    }
  }

  lemma WrittenMore(lines: seq<Line>, seed: set<string>, rest: Generated, g: Generated, at: seq<nat>)
    requires lines != [] && Written(lines[..|lines| - 1], seed, rest, at) && Lacking(lines, |lines| - 1)
    requires g.added != [] && g.added == rest.added + [g.added[|g.added| - 1]] && g.already == rest.already
    requires g.added[|g.added| - 1] !in rest.used && g.used == rest.used + {g.added[|g.added| - 1]}
    requires g.out == rest.out + [Anchor(g.added[|g.added| - 1])] + [lines[|lines| - 1]]
    requires FirstUnused(Slug(lines[|lines| - 1]), g.used - {g.added[|g.added| - 1]}, g.added[|g.added| - 1])
    ensures Written(lines, seed, g, at + [|lines| - 1])
  {
    hide Lists, FirstUnused, SecondLevel, TagAbove, TaggedIn, Lacking, Mask, UpTo, Set;
    var n, id := |lines| - 1, g.added[|g.added| - 1];
    NoTagHere(lines);
    TaggedGrow(lines);
    LackingGrow(lines, at);
    FreeMore(lines[..n], lines[n], seed, rest, g, at, id);
    WovenMore(lines[..n], lines[n], rest, g, at, id);
    assert lines[..n] + [lines[n]] == lines;
  }

  lemma FreeMore(before: seq<Line>, line: Line, seed: set<string>, rest: Generated, g: Generated, at: seq<nat>, id: string)
    requires |at| == |rest.added| && forall k :: 0 <= k < |at| ==> at[k] < |before|
    requires forall k :: 0 <= k < |at| ==> FirstUnused(Slug(before[at[k]]), seed + Set(rest.added[..k]), rest.added[k])
    requires rest.used == seed + Set(rest.added) && g.added == rest.added + [id]
    requires id !in rest.used && g.used == rest.used + {id} && FirstUnused(Slug(line), g.used - {id}, id)
    ensures var at', lines := at + [|before|], before + [line];
      && g.used == seed + Set(g.added)
      && forall k :: 0 <= k < |at'| ==> FirstUnused(Slug(lines[at'[k]]), seed + Set(g.added[..k]), g.added[k])
  {
    hide FirstUnused, Slug;
    assert g.used - {id} == rest.used;
    assert Set(g.added) == Set(rest.added) + {id};
    assert forall k :: 0 <= k < |at| ==> g.added[..k] == rest.added[..k];
    assert g.added[..|at|] == rest.added;
  }

  lemma NoTagHere(lines: seq<Line>)
    requires lines != [] && Lacking(lines, |lines| - 1)
    ensures !TagAbove(lines, |lines| - 1)
  {
  }

  lemma WovenMore(before: seq<Line>, line: Line, rest: Generated, g: Generated, at: seq<nat>, id: string)
    requires |rest.out| == |before| + |at| && |at| == |rest.added| && forall k :: 0 <= k < |at| ==> at[k] < |before|
    requires forall i: nat, k: nat :: i < |before| && UpTo(at, i, k) ==> rest.out[i + k] == before[i]
    requires forall k :: 0 <= k < |at| ==> rest.out[at[k] + k] == Anchor(rest.added[k])
    requires g.out == rest.out + [Anchor(id)] + [line] && g.added == rest.added + [id]
    ensures var at', lines := at + [|before|], before + [line];
      && (forall k :: 0 <= k < |at'| ==> g.out[at'[k] + k] == Anchor(g.added[k]))
      && (forall i: nat, k: nat :: i < |lines| && UpTo(at', i, k) ==> g.out[i + k] == lines[i])
  {
    var at', lines := at + [|before|], before + [line];
    forall i: nat, k: nat | i < |lines| && UpTo(at', i, k)
      ensures g.out[i + k] == lines[i]
    {
      if i < |before| {
        assert k <= |at| && UpTo(at, i, k);
      } else {
        BehindAll(at', |before|, k);
      }
    }
  }
}
