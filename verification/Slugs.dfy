/** Anchor ids: a slug, or the slug with the least free number behind it. */
module Slugs {
  import opened Markdown

  function Digit(d: nat): char
    requires d < 10
  {
    '0' + d as char
  }

  function Decimal(n: nat): string {
    if n < 10 then [Digit(n)] else Decimal(n / 10) + [Digit(n % 10)]
  }

  function ValueOf(s: string): int {
    if s == "" then 0 else 10 * ValueOf(s[..|s| - 1]) + (s[|s| - 1] as int - '0' as int)
  }

  lemma {:induction false} DecimalValue(n: nat)
    ensures ValueOf(Decimal(n)) == n
  {
    if n >= 10 {
      DecimalValue(n / 10);
      var s := Decimal(n);
      assert s[..|s| - 1] == Decimal(n / 10);
    } else {
      assert [Digit(n)][..0] == "";
    }
  }

  /** `base`, `base-1`, `base-2`, … */
  function Suffixed(base: string, n: nat): string {
    if n == 0 then base else base + "-" + Decimal(n)
  }

  lemma SuffixedInjective(base: string, m: nat, n: nat)
    requires Suffixed(base, m) == Suffixed(base, n)
    ensures m == n
  {
    if m != 0 && n != 0 {
      assert Suffixed(base, m)[|base| + 1..] == Decimal(m);
      assert Suffixed(base, n)[|base| + 1..] == Decimal(n);
      DecimalValue(m);
      DecimalValue(n);
    }
  }

  /** `n` is the least number whose candidate is not used. */
  ghost predicate LeastFree(base: string, used: set<string>, n: nat) {
    Suffixed(base, n) !in used && forall m: nat :: m < n ==> Suffixed(base, m) in used
  }

  /** Search upward from `from`; the candidates met so far are taken out of `left`, so the search ends. */
  method SearchFree(base: string, used: set<string>, from: nat) returns (n: nat)
    ensures n >= from && Suffixed(base, n) !in used
    ensures forall m: nat :: from <= m < n ==> Suffixed(base, m) in used
  {
    n := from;
    ghost var left := used;
    while Suffixed(base, n) in used
      invariant n >= from
      invariant forall m: nat :: from <= m < n ==> Suffixed(base, m) in used
      invariant left <= used
      invariant forall m: nat :: m >= n && Suffixed(base, m) in used ==> Suffixed(base, m) in left
      decreases |left|
    {
      hide Suffixed;
      forall m: nat | m > n
        ensures Suffixed(base, m) != Suffixed(base, n)
      {
        if Suffixed(base, m) == Suffixed(base, n) {
          SuffixedInjective(base, m, n);
        }
      }
      left := left - {Suffixed(base, n)};
      n := n + 1;
    }
  }

  lemma LeastFreeUnique(base: string, used: set<string>, m: nat, n: nat)
    requires LeastFree(base, used, m) && LeastFree(base, used, n)
    ensures m == n
  {
  }

  // ----- the audit's slug assignment

  /** The document's explicit anchors, outside code blocks. */
  function LineIds(line: Line): seq<string> {
    match line
    case Blank => []
    case Fence(_, _, _) => []
    case Indented(ids, _) => ids
    case Anchor(id) => [id]
    case Heading(_, _, _, ids) => ids
    case BareHeading(_, _) => []
    case Lone(ids) => ids
    case Text(ids) => ids
  }

  function ExplicitAnchors(lines: seq<Line>, mask: seq<bool>): set<string>
    requires |mask| == |lines|
  {
    set i, id | 0 <= i < |lines| && !mask[i] && id in LineIds(lines[i]) :: id
  }

  /** A heading that is given an anchor. */
  predicate Sluggable(line: Line) {
    line.Heading? && 1 <= line.level <= 6 && line.slug != ""
  }

  /** The anchors with every heading of `lines` given the least free suffix, in document order. */
  ghost predicate NaiveAssignment(lines: seq<Line>, mask: seq<bool>, start: set<string>, given: seq<string>, anchors: set<string>)
    requires |mask| == |lines|
  {
    if lines == [] then given == [] && anchors == start
    else
      var n, line := |lines| - 1, lines[|lines| - 1];
      if mask[n] || !Sluggable(line) then NaiveAssignment(lines[..n], mask[..n], start, given, anchors)
      else
        && given != []
        && given[|given| - 1] in anchors
        && (exists k: nat :: given[|given| - 1] == Suffixed(line.slug, k)
              && LeastFree(line.slug, anchors - {given[|given| - 1]}, k))
        && NaiveAssignment(lines[..n], mask[..n], start, given[..|given| - 1], anchors - {given[|given| - 1]})
  }

  lemma NaiveSnoc(lines: seq<Line>, mask: seq<bool>, n: nat, start: set<string>, given: seq<string>, anchors: set<string>, k: nat)
    requires |mask| == |lines| && n < |lines|
    requires NaiveAssignment(lines[..n], mask[..n], start, given, anchors)
    requires !mask[n] && Sluggable(lines[n]) && LeastFree(lines[n].slug, anchors, k)
    ensures var id := Suffixed(lines[n].slug, k);
      NaiveAssignment(lines[..n + 1], mask[..n + 1], start, given + [id], anchors + {id})
  {
    var id := Suffixed(lines[n].slug, k);
    var s, m := lines[..n + 1], mask[..n + 1];
    assert s[..n] == lines[..n] && m[..n] == mask[..n] && s[n] == lines[n];
    assert (given + [id])[..|given|] == given;
    assert anchors + {id} - {id} == anchors;
  }

  lemma NaiveSkip(lines: seq<Line>, mask: seq<bool>, n: nat, start: set<string>, given: seq<string>, anchors: set<string>)
    requires |mask| == |lines| && n < |lines|
    requires NaiveAssignment(lines[..n], mask[..n], start, given, anchors)
    requires mask[n] || !Sluggable(lines[n])
    ensures NaiveAssignment(lines[..n + 1], mask[..n + 1], start, given, anchors)
  {
    var s, m := lines[..n + 1], mask[..n + 1];
    assert s[..n] == lines[..n] && m[..n] == mask[..n] && s[n] == lines[n];
  }

  /** Every candidate below the recorded count is taken. */
  ghost predicate CountsTaken(seen: map<string, nat>, anchors: set<string>) {
    forall base, m: nat :: base in seen && m < seen[base] ==> Suffixed(base, m) in anchors
  }

  method ExtractDeclaredAnchors(lines: seq<Line>) returns (anchors: set<string>)
    ensures exists given :: NaiveAssignment(lines, Mask(lines), ExplicitAnchors(lines, Mask(lines)), given, anchors)
  {
    var mask := BuildCodeBlockMask(lines);
    anchors := CollectExplicit(lines, mask);
    ghost var start := anchors;
    ghost var given: seq<string> := [];
    var seenSlugs: map<string, nat> := map[];
    assert lines[..0] == [] && mask[..0] == [];
    for i := 0 to |lines|
      invariant NaiveAssignment(lines[..i], mask[..i], start, given, anchors)
      invariant CountsTaken(seenSlugs, anchors)
    {
      hide NaiveAssignment, Suffixed;
      if mask[i] || !Sluggable(lines[i]) {
        NaiveSkip(lines, mask, i, start, given, anchors);
      } else {
        var base := lines[i].slug;
        var count := if base in seenSlugs then seenSlugs[base] else 0;
        count := SearchFree(base, anchors, count);
        NaiveSnoc(lines, mask, i, start, given, anchors, count);
        given := given + [Suffixed(base, count)];
        anchors := anchors + {Suffixed(base, count)};
        seenSlugs := seenSlugs[base := count + 1];
      }
    }
    assert lines[..|lines|] == lines && mask[..|mask|] == mask;
  }

  method CollectExplicit(lines: seq<Line>, mask: seq<bool>) returns (anchors: set<string>)
    requires |mask| == |lines|
    ensures anchors == ExplicitAnchors(lines, mask)
  {
    anchors := {};
    for i := 0 to |lines|
      invariant forall id :: id in anchors <==> exists k :: 0 <= k < i && !mask[k] && id in LineIds(lines[k])
    {
      if !mask[i] {
        var ids := LineIds(lines[i]);
        ghost var before := anchors;
        for j := 0 to |ids|
          invariant forall id :: id in anchors <==> id in before || id in ids[..j]
        {
          anchors := anchors + {ids[j]};
          assert ids[..j + 1] == ids[..j] + [ids[j]];
        }
        assert ids[..|ids|] == ids;
      }
    }
  }

  /** Each sluggable heading adds one anchor that was not there. */
  lemma {:induction false} EveryHeadingAddsOne(lines: seq<Line>, mask: seq<bool>, start: set<string>, given: seq<string>, anchors: set<string>)
    requires |mask| == |lines| && NaiveAssignment(lines, mask, start, given, anchors)
    ensures |given| == SluggableCount(lines, mask)
    ensures |anchors| == |start| + |given| && start <= anchors
    ensures forall i :: 0 <= i < |given| ==> given[i] in anchors && given[i] !in start
    ensures forall i, j :: 0 <= i < j < |given| ==> given[i] != given[j]
  {
    if lines != [] {
      var n, line := |lines| - 1, lines[|lines| - 1];
      if mask[n] || !Sluggable(line) {
        EveryHeadingAddsOne(lines[..n], mask[..n], start, given, anchors);
      } else {
        var id, before := given[|given| - 1], given[..|given| - 1];
        EveryHeadingAddsOne(lines[..n], mask[..n], start, before, anchors - {id});
        assert id in anchors;
        assert anchors == (anchors - {id}) + {id};
        forall i | 0 <= i < |before|
          ensures given[i] in anchors && given[i] !in start && given[i] != id
        {
          assert given[i] == before[i];
        }
      }
    }
  }

  function SluggableCount(lines: seq<Line>, mask: seq<bool>): nat
    requires |mask| == |lines|
  {
    if lines == [] then 0
    else
      var n := |lines| - 1;
      SluggableCount(lines[..n], mask[..n]) + if !mask[n] && Sluggable(lines[n]) then 1 else 0
  }
}
