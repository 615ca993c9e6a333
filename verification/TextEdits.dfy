/** Anchor-based text edits: counting an anchor's occurrences and replacing it. */
module TextEdits {
  import opened Prelude

  predicate OccursAt(text: string, anchor: string, i: nat) {
    i + |anchor| <= |text| && text[i..i + |anchor|] == anchor
  }

  /** `indexOf(anchor, from)`: the first occurrence at or after `from`. */
  function IndexOf(text: string, anchor: string, from: nat): (r: Option<nat>)
    ensures r.Some? ==> from <= r.value && OccursAt(text, anchor, r.value)
    ensures r.Some? ==> forall j :: from <= j < r.value ==> !OccursAt(text, anchor, j)
    ensures r.None? ==> forall j :: from <= j ==> !OccursAt(text, anchor, j)
    decreases |text| - from
  {
    if from + |anchor| > |text| then None
    else if OccursAt(text, anchor, from) then Some(from)
    else IndexOf(text, anchor, from + 1)
  }

  /** How often the anchor is met when each search resumes behind the previous hit. */
  function Occurrences(text: string, anchor: string, from: nat): nat
    requires anchor != ""
    decreases |text| - from
  {
    var i := IndexOf(text, anchor, from);
    if i.None? then 0 else 1 + Occurrences(text, anchor, i.value + |anchor|)
  }

  lemma CountOneMore(text: string, anchor: string, from: nat)
    requires anchor != "" && IndexOf(text, anchor, from).Some?
    ensures var next := IndexOf(text, anchor, from).value + |anchor|;
      from < next <= |text| && Occurrences(text, anchor, from) == 1 + Occurrences(text, anchor, next)
  {
  }

  lemma CountNoMore(text: string, anchor: string, from: nat)
    requires anchor != "" && IndexOf(text, anchor, from).None?
    ensures Occurrences(text, anchor, from) == 0
  {
  }

  method CountOccurrences(haystack: string, needle: string) returns (count: nat)
    ensures count == if needle == "" then 0 else Occurrences(haystack, needle, 0)
  {
    hide IndexOf, OccursAt, Occurrences;
    if |needle| == 0 {
      return 0;
    }
    count := 0;
    var pos := 0;
    var hit := IndexOf(haystack, needle, pos);
    while hit.Some?
      invariant hit == IndexOf(haystack, needle, pos)
      invariant Occurrences(haystack, needle, 0) == count + Occurrences(haystack, needle, pos)
      decreases |haystack| - pos
    {
      CountOneMore(haystack, needle, pos);
      count := count + 1;
      pos := hit.value + |needle|;
      hit := IndexOf(haystack, needle, pos);
    }
    CountNoMore(haystack, needle, pos);
  }

  /** The apply step accepts an anchor it counts once. */
  predicate CountedOnce(text: string, anchor: string) {
    anchor != "" && Occurrences(text, anchor, 0) == 1
  }

  /** The documented condition: exactly one place in the text matches. */
  ghost predicate Unique(text: string, anchor: string) {
    anchor != "" && exists i: nat :: OccursAt(text, anchor, i) && forall j: nat :: OccursAt(text, anchor, j) ==> j == i
  }

  /** Counted once means: it occurs, and every other occurrence overlaps the first. */
  lemma CountedOnceMeans(text: string, anchor: string)
    requires anchor != ""
    ensures CountedOnce(text, anchor) <==>
      exists i: nat :: OccursAt(text, anchor, i) && forall j: nat :: OccursAt(text, anchor, j) ==> i <= j < i + |anchor|
  {
    var first := IndexOf(text, anchor, 0);
    if first.Some? {
      var second := IndexOf(text, anchor, first.value + |anchor|);
      assert Occurrences(text, anchor, 0) == 1 + Occurrences(text, anchor, first.value + |anchor|);
      assert Occurrences(text, anchor, first.value + |anchor|) == 0 <==> second.None?;
      if CountedOnce(text, anchor) {
        assert second.None?;
        assert forall j: nat :: OccursAt(text, anchor, j) ==> first.value <= j < first.value + |anchor|;
      }
      if i: nat :| OccursAt(text, anchor, i) && forall j: nat :: OccursAt(text, anchor, j) ==> i <= j < i + |anchor| {
        assert first.value == i;
        assert second.None?;
      }
    }
  }

  /** A proper prefix of the anchor is also a suffix of it. */
  ghost predicate HasBorder(anchor: string, b: nat) {
    0 < b < |anchor| && anchor[..b] == anchor[|anchor| - b..]
  }

  ghost predicate Bordered(anchor: string) {
    exists b: nat :: HasBorder(anchor, b)
  }

  lemma UniqueIsCountedOnce(text: string, anchor: string)
    requires Unique(text, anchor)
    ensures CountedOnce(text, anchor)
  {
    CountedOnceMeans(text, anchor);
    var i: nat :| OccursAt(text, anchor, i) && forall j: nat :: OccursAt(text, anchor, j) ==> j == i;
    assert forall j: nat :: OccursAt(text, anchor, j) ==> i <= j < i + |anchor|;
  }

  /** Two overlapping occurrences give the anchor a border. */
  lemma OverlapIsBorder(text: string, anchor: string, i: nat, j: nat)
    requires OccursAt(text, anchor, i) && OccursAt(text, anchor, j) && i < j < i + |anchor|
    ensures HasBorder(anchor, i + |anchor| - j)
  {
    var b := i + |anchor| - j;
    assert anchor[|anchor| - b..] == text[i..i + |anchor|][|anchor| - b..] == text[j..i + |anchor|];
    assert anchor[..b] == text[j..j + |anchor|][..b] == text[j..j + b];
  }

  /** A bordered anchor overlaps itself in this text. */
  function Doubled(anchor: string, b: nat): string
    requires b <= |anchor|
  {
    anchor + anchor[b..]
  }

  lemma DoubledFools(anchor: string, b: nat)
    requires HasBorder(anchor, b)
    ensures CountedOnce(Doubled(anchor, b), anchor) && !Unique(Doubled(anchor, b), anchor)
  {
    var text, n := Doubled(anchor, b), |anchor|;
    assert OccursAt(text, anchor, 0);
    assert OccursAt(text, anchor, n - b) by {
      assert text[n - b..n - b + n] == anchor[n - b..] + anchor[b..];
      assert anchor == anchor[..b] + anchor[b..];
    }
    CountedOnceMeans(text, anchor);
    assert forall j: nat :: OccursAt(text, anchor, j) ==> 0 <= j < 0 + n;
  }

  /** The once-check is the documented uniqueness exactly for anchors that cannot overlap themselves. */
  lemma OnceIsUniqueIffUnbordered(anchor: string)
    requires anchor != ""
    ensures (forall text: string :: CountedOnce(text, anchor) <==> Unique(text, anchor)) <==> !Bordered(anchor)
  {
    hide CountedOnce, Unique, HasBorder;
    if b: nat :| HasBorder(anchor, b) {
      DoubledFools(anchor, b);
    } else {
      forall text: string
        ensures CountedOnce(text, anchor) <==> Unique(text, anchor)
      {
        UnborderedUnique(text, anchor);
      }
    }
  }

  lemma UnborderedUnique(text: string, anchor: string)
    requires anchor != "" && !Bordered(anchor)
    ensures CountedOnce(text, anchor) <==> Unique(text, anchor)
  {
    hide HasBorder, CountedOnce;
    CountedOnceMeans(text, anchor);
    if CountedOnce(text, anchor) {
      var i: nat :| OccursAt(text, anchor, i) && forall j: nat :: OccursAt(text, anchor, j) ==> i <= j < i + |anchor|;
      forall j: nat | OccursAt(text, anchor, j)
        ensures j == i
      {
        if j != i {
          OverlapIsBorder(text, anchor, i, j);
        }
      }
    }
    if Unique(text, anchor) {
      UniqueIsCountedOnce(text, anchor);
    }
  }

  /** `"aa"` is accepted in `"aaa"`, where it occurs twice. */
  lemma OnceIsNotUnique()
    ensures CountedOnce("aaa", "aa") && !Unique("aaa", "aa")
  {
    assert HasBorder("aa", 1);
    assert Doubled("aa", 1) == "aaa";
    DoubledFools("aa", 1);
  }

  /** Replace the first occurrence. */
  function Replace(text: string, anchor: string, replacement: string): string {
    var i := IndexOf(text, anchor, 0);
    if i.None? then text else text[..i.value] + replacement + text[i.value + |anchor|..]
  }

  /** It is the first place where the anchor stands that is replaced, and nothing else changes; without such a place
      nothing changes at all. */
  lemma ReplaceMeans(before: string, anchor: string, behind: string, replacement: string)
    requires anchor != "" && forall j: nat :: j < |before| ==> !OccursAt(before + anchor + behind, anchor, j)
    ensures Replace(before + anchor + behind, anchor, replacement) == before + replacement + behind
  {
    var text := before + anchor + behind;
    assert text[|before|..|before| + |anchor|] == anchor;
    assert OccursAt(text, anchor, |before|);
    assert IndexOf(text, anchor, 0) == Some(|before|);
    assert text[..|before|] == before && text[|before| + |anchor|..] == behind;
  }

  lemma ReplaceNothing(text: string, anchor: string, replacement: string)
    requires forall j: nat :: !OccursAt(text, anchor, j)
    ensures Replace(text, anchor, replacement) == text
  {
  }

  /** An edit leaves the text alone exactly when it replaces the anchor by itself. */
  lemma ReplaceChanges(text: string, anchor: string, replacement: string)
    requires IndexOf(text, anchor, 0).Some?
    ensures Replace(text, anchor, replacement) == text <==> replacement == anchor
  {
    var i := IndexOf(text, anchor, 0).value;
    var now := Replace(text, anchor, replacement);
    assert text == text[..i] + anchor + text[i + |anchor|..];
    if now == text {
      assert |replacement| == |anchor|;
      assert replacement == now[i..i + |anchor|];
      assert anchor == text[i..i + |anchor|];
    }
  }
}
