/** Pairing the findings of two review models (`compareFindingSets`): scored candidates, sorted by
    descending score and taken greedily, each side used at most once. */
module Matching {
  import opened Prelude
  import opened Sorting

  datatype Severity = Critical | High | Medium | Low | Unrated

  /** `words` is the normalised word set of the title. */
  datatype Finding = Finding(words: set<string>, affectedFiles: seq<string>, severity: Severity)

  function Rank(s: Severity): int {
    match s
    case Critical => 4
    case High => 3
    case Medium => 2
    case Low => 1
    case Unrated => 0
  }

  // ----- scores

  /** Shared words over all words; zero when there are none. */
  ghost function JaccardIndex(a: set<string>, b: set<string>): real {
    if a + b == {} then 0.0 else |a * b| as real / |a + b| as real
  }

  /** Shared files over the smaller file set; zero when either is empty. */
  ghost function OverlapIndex(a: set<string>, b: set<string>): real {
    if a == {} || b == {} then 0.0
    else |a * b| as real / (if |a| <= |b| then |a| else |b|) as real
  }

  lemma OneShared(a: set<string>, b: set<string>, left: set<string>, x: string)
    requires x in left && left <= a
    ensures |(a - (left - {x})) * b| == |(a - left) * b| + if x in b then 1 else 0
  {
    if x in b {
      assert (a - (left - {x})) * b == (a - left) * b + {x};
    } else {
      assert (a - (left - {x})) * b == (a - left) * b;
    }
  }

  method CountShared(a: set<string>, b: set<string>) returns (n: nat)
    ensures n == |a * b|
  {
    n := 0;
    var left := a;
    while left != {}
      invariant left <= a
      invariant n == |(a - left) * b|
      decreases left
    {
      var x :| x in left;
      OneShared(a, b, left, x);
      if x in b {
        n := n + 1;
      }
      left := left - {x};
    }
    assert a - left == a;
  }

  method Jaccard(a: set<string>, b: set<string>) returns (r: real)
    ensures r == JaccardIndex(a, b)
  {
    if |a| == 0 && |b| == 0 {
      assert a + b == {};
      return 0.0;
    }
    var shared := CountShared(a, b);
    var union := |a| + |b| - shared;
    assert |a + b| == |a| + |b| - |a * b|;
    assert a + b != {} by {
      assert a <= a + b && b <= a + b;
      assert a != {} || b != {};
    }
    r := if union == 0 then 0.0 else shared as real / union as real;
  }

  method AffectedFilesOverlap(a: Finding, b: Finding) returns (r: real)
    ensures r == OverlapIndex(FileSet(a), FileSet(b))
  {
    var af, bf := FileSet(a), FileSet(b);
    if |af| == 0 || |bf| == 0 {
      return 0.0;
    }
    var shared := CountShared(af, bf);
    r := shared as real / (if |af| <= |bf| then |af| else |bf|) as real;
  }

  function FileSet(f: Finding): set<string> {
    set x | x in f.affectedFiles
  }

  ghost function Score(o: Finding, c: Finding, titleWeight: real): real {
    titleWeight * JaccardIndex(o.words, c.words) + (1.0 - titleWeight) * OverlapIndex(FileSet(o), FileSet(c))
  }

  lemma RatioInUnit(a: nat, b: nat)
    requires 0 < b && a <= b
    ensures 0.0 <= a as real / b as real <= 1.0
  {
  }

  /** With a weight between zero and one every score lies between zero and one. */
  lemma ScoreInUnit(o: Finding, c: Finding, titleWeight: real)
    requires 0.0 <= titleWeight <= 1.0
    ensures 0.0 <= Score(o, c, titleWeight) <= 1.0
  {
    hide JaccardIndex, OverlapIndex;
    JaccardInUnit(o.words, c.words);
    OverlapInUnit(FileSet(o), FileSet(c));
    var j, f := JaccardIndex(o.words, c.words), OverlapIndex(FileSet(o), FileSet(c));
    Blend(titleWeight, 1.0 - titleWeight, j, f);
  }

  lemma Blend(w: real, v: real, x: real, y: real)
    requires 0.0 <= w && 0.0 <= v && w + v == 1.0 && 0.0 <= x <= 1.0 && 0.0 <= y <= 1.0
    ensures 0.0 <= w * x + v * y <= 1.0
  {
    WeightedUnit(w, x);
    WeightedUnit(v, y);
    SumBound(w * x, v * y, w, v);
  }

  lemma SumBound(a: real, b: real, w: real, v: real)
    requires 0.0 <= a <= w && 0.0 <= b <= v && w + v == 1.0
    ensures 0.0 <= a + b <= 1.0
  {
  }

  lemma WeightedUnit(w: real, x: real)
    requires 0.0 <= w && 0.0 <= x <= 1.0
    ensures 0.0 <= w * x <= w
  {
  }

  lemma JaccardInUnit(a: set<string>, b: set<string>)
    ensures 0.0 <= JaccardIndex(a, b) <= 1.0
  {
    if a + b != {} {
      SubsetSize(a * b, a + b);
      RatioInUnit(|a * b|, |a + b|);
    }
  }

  lemma OverlapInUnit(a: set<string>, b: set<string>)
    ensures 0.0 <= OverlapIndex(a, b) <= 1.0
  {
    if a != {} && b != {} {
      SubsetSize(a * b, a);
      SubsetSize(a * b, b);
      RatioInUnit(|a * b|, if |a| <= |b| then |a| else |b|);
    }
  }

  // ----- candidates

  datatype Pair = Pair(oi: nat, ci: nat, score: real)

  predicate Before(a: Pair, b: Pair) {
    a.oi < b.oi || (a.oi == b.oi && a.ci < b.ci)
  }

  ghost predicate Eligible(openai: seq<Finding>, chatgpt: seq<Finding>, threshold: real, titleWeight: real, p: Pair) {
    && p.oi < |openai| && p.ci < |chatgpt|
    && p.score == Score(openai[p.oi], chatgpt[p.ci], titleWeight)
    && p.score >= threshold
  }

  /** All eligible pairs, in row-major order. */
  ghost predicate AreCandidates(openai: seq<Finding>, chatgpt: seq<Finding>, threshold: real, titleWeight: real, ps: seq<Pair>) {
    && (forall p :: p in ps <==> Eligible(openai, chatgpt, threshold, titleWeight, p))
    && (forall i, j :: 0 <= i < j < |ps| ==> Before(ps[i], ps[j]))
  }

  function ByScore(): (Pair, Pair) -> bool {
    (a: Pair, b: Pair) => a.score >= b.score
  }

  lemma ByScorePreorder()
    ensures TotalPreorder(ByScore())
  {
    var leq := ByScore();
    forall x: Pair, y: Pair, z: Pair | Via(leq, x, y, z)
      ensures leq(x, z)
    {
    }
  }

  method Candidates(openai: seq<Finding>, chatgpt: seq<Finding>, threshold: real, titleWeight: real) returns (ps: seq<Pair>)
    ensures AreCandidates(openai, chatgpt, threshold, titleWeight, ps)
  {
    hide Score;
    ps := [];
    for oi := 0 to |openai|
      invariant forall p :: p in ps <==> Eligible(openai, chatgpt, threshold, titleWeight, p) && p.oi < oi
      invariant forall i, j :: 0 <= i < j < |ps| ==> Before(ps[i], ps[j])
    {
      for ci := 0 to |chatgpt|
        invariant forall p :: p in ps <==>
          Eligible(openai, chatgpt, threshold, titleWeight, p) && (p.oi < oi || (p.oi == oi && p.ci < ci))
        invariant forall i, j :: 0 <= i < j < |ps| ==> Before(ps[i], ps[j])
      {
        var combined := Combine(openai[oi], chatgpt[ci], titleWeight);
        ghost var old' := ps;
        if combined >= threshold {
          assert forall k :: 0 <= k < |ps| ==> ps[k] in ps;
          ps := ps + [Pair(oi, ci, combined)];
          assert forall p :: p in ps <==> p in old' || p == Pair(oi, ci, combined);
        }
      }
    }
  }

  method Combine(o: Finding, c: Finding, titleWeight: real) returns (r: real)
    ensures r == Score(o, c, titleWeight)
  {
    hide JaccardIndex, OverlapIndex, FileSet;
    var titleScore := Jaccard(o.words, c.words);
    var fileScore := AffectedFilesOverlap(o, c);
    r := titleWeight * titleScore + (1.0 - titleWeight) * fileScore;
  }

  // ----- greedy choice

  function Greedy(cands: seq<Pair>, openaiUsed: set<nat>, chatgptUsed: set<nat>): seq<Pair> {
    if cands == [] then []
    else
      var p := cands[0];
      if p.oi in openaiUsed || p.ci in chatgptUsed then Greedy(cands[1..], openaiUsed, chatgptUsed)
      else [p] + Greedy(cands[1..], openaiUsed + {p.oi}, chatgptUsed + {p.ci})
  }

  ghost predicate IsMatching(ps: seq<Pair>) {
    forall i, j :: 0 <= i < j < |ps| ==> ps[i].oi != ps[j].oi && ps[i].ci != ps[j].ci
  }

  ghost predicate Touch(a: Pair, b: Pair) {
    a.oi == b.oi || a.ci == b.ci
  }

  ghost predicate Avoids(ps: seq<Pair>, openaiUsed: set<nat>, chatgptUsed: set<nat>) {
    forall p :: p in ps ==> p.oi !in openaiUsed && p.ci !in chatgptUsed
  }

  lemma {:induction false} GreedyIsMatching(cands: seq<Pair>, ou: set<nat>, cu: set<nat>)
    ensures IsMatching(Greedy(cands, ou, cu)) && Avoids(Greedy(cands, ou, cu), ou, cu)
    ensures forall p :: p in Greedy(cands, ou, cu) ==> p in cands
  {
    hide IsMatching;
    if cands == [] {
      NoPairs(ou, cu);
    } else {
      var p := cands[0];
      if p.oi in ou || p.ci in cu {
        GreedyIsMatching(cands[1..], ou, cu);
      } else {
        var rest := Greedy(cands[1..], ou + {p.oi}, cu + {p.ci});
        GreedyIsMatching(cands[1..], ou + {p.oi}, cu + {p.ci});
        MatchingCons(p, rest, ou, cu);
      }
    }
  }

  lemma NoPairs(ou: set<nat>, cu: set<nat>)
    ensures IsMatching([]) && Avoids([], ou, cu)
  {
  }

  lemma MatchingCons(p: Pair, rest: seq<Pair>, ou: set<nat>, cu: set<nat>)
    requires p.oi !in ou && p.ci !in cu && IsMatching(rest) && Avoids(rest, ou + {p.oi}, cu + {p.ci})
    ensures IsMatching([p] + rest) && Avoids([p] + rest, ou, cu)
  {
    assert forall j :: 0 <= j < |rest| ==> rest[j] in rest;
  }

  /** Every candidate left out was beaten, at one of its ends, by a chosen pair that scores at least as much. */
  lemma {:induction false} GreedyIsStable(cands: seq<Pair>, ou: set<nat>, cu: set<nat>, c: Pair)
    requires SortedBy(ByScore(), cands) && c in cands
    ensures c.oi in ou || c.ci in cu || exists p :: p in Greedy(cands, ou, cu) && Touch(p, c) && p.score >= c.score
  {
    var p := cands[0];
    SortedTail(cands);
    if p.oi in ou || p.ci in cu {
      if c != p {
        GreedyIsStable(cands[1..], ou, cu, c);
      }
    } else {
      var rest := Greedy(cands[1..], ou + {p.oi}, cu + {p.ci});
      assert p in [p] + rest;
      assert p.score >= c.score by {
        var i :| 0 <= i < |cands| && cands[i] == c;
        assert i > 0 ==> ByScore()(cands[0], cands[i]);
      }
      if !Touch(p, c) {
        GreedyIsStable(cands[1..], ou + {p.oi}, cu + {p.ci}, c);
        if q :| q in rest && Touch(q, c) && q.score >= c.score {
          assert q in [p] + rest;
        }
      }
    }
  }

  lemma SortedTail(cands: seq<Pair>)
    requires SortedBy(ByScore(), cands) && cands != []
    ensures SortedBy(ByScore(), cands[1..])
  {
    forall i, j | 0 <= i < j < |cands[1..]|
      ensures ByScore()(cands[1..][i], cands[1..][j])
    {
      assert ByScore()(cands[i + 1], cands[j + 1]);
    }
  }

  // ----- approximation

  ghost function Total(ps: seq<Pair>): real {
    if ps == [] then 0.0 else Total(ps[..|ps| - 1]) + ps[|ps| - 1].score
  }

  /** The pairs of `ps` that share no end with `h`. */
  ghost function Untouched(ps: seq<Pair>, h: Pair): seq<Pair> {
    if ps == [] then []
    else
      var last := ps[|ps| - 1];
      Untouched(ps[..|ps| - 1], h) + if Touch(last, h) then [] else [last]
  }

  lemma {:induction false} UntouchedKeeps(ps: seq<Pair>, h: Pair)
    requires IsMatching(ps)
    ensures IsMatching(Untouched(ps, h))
    ensures forall p :: p in Untouched(ps, h) ==> p in ps && !Touch(p, h)
  {
    if ps != [] {
      var front, last := ps[..|ps| - 1], ps[|ps| - 1];
      UntouchedKeeps(front, h);
      var kept := Untouched(front, h);
      forall i | 0 <= i < |kept|
        ensures kept[i].oi != last.oi && kept[i].ci != last.ci
      {
        assert kept[i] in front;
        var k :| 0 <= k < |front| && front[k] == kept[i];
        assert ps[k] == front[k];
      }
    }
  }

  /** Some pair ends, on its side, where `h` does. */
  ghost predicate MeetsLeft(ps: seq<Pair>, h: Pair) {
    exists p :: p in ps && p.oi == h.oi
  }

  ghost predicate MeetsRight(ps: seq<Pair>, h: Pair) {
    exists p :: p in ps && p.ci == h.ci
  }

  /** `x` for each end that is met. */
  function Due(left: bool, right: bool, x: real): real {
    (if left then x else 0.0) + (if right then x else 0.0)
  }

  function Ends(left: bool, right: bool): nat {
    (if left then 1 else 0) + (if right then 1 else 0)
  }

  /** At most two pairs of a matching touch `h`: one at each end. */
  lemma {:induction false} TouchedCost(ps: seq<Pair>, h: Pair)
    requires IsMatching(ps) && h.score >= 0.0
    requires forall p :: p in ps ==> p.score <= h.score
    ensures Total(ps) <= Total(Untouched(ps, h)) + Due(MeetsLeft(ps, h), MeetsRight(ps, h), h.score)
    ensures |ps| <= |Untouched(ps, h)| + Ends(MeetsLeft(ps, h), MeetsRight(ps, h))
  {
    if ps != [] {
      var front, last := ps[..|ps| - 1], ps[|ps| - 1];
      assert last in ps && forall p :: p in front ==> p in ps;
      TouchedCost(front, h);
      EndsStep(ps, h);
      TotalStep(ps, h);
      hide Total, Untouched, IsMatching, MeetsLeft, MeetsRight, Touch, Ends, Due;
    }
  }

  lemma TotalStep(ps: seq<Pair>, h: Pair)
    requires ps != []
    ensures var front, last := ps[..|ps| - 1], ps[|ps| - 1];
      && Total(ps) == Total(front) + last.score
      && Total(Untouched(ps, h)) == Total(Untouched(front, h)) + (if Touch(last, h) then 0.0 else last.score)
      && |Untouched(ps, h)| == |Untouched(front, h)| + (if Touch(last, h) then 0 else 1)
  {
    hide Touch;
    var front, last := ps[..|ps| - 1], ps[|ps| - 1];
    if Touch(last, h) {
      assert Untouched(ps, h) == Untouched(front, h);
    } else {
      TotalSnoc(Untouched(front, h), last);
    }
  }

  /** A pair that touches `h` meets an end no earlier pair of the matching meets. */
  lemma EndsStep(ps: seq<Pair>, h: Pair)
    requires IsMatching(ps) && ps != [] && h.score >= 0.0
    ensures IsMatching(ps[..|ps| - 1])
    ensures var front, last := ps[..|ps| - 1], ps[|ps| - 1];
      Due(MeetsLeft(front, h), MeetsRight(front, h), h.score) + (if Touch(last, h) then h.score else 0.0)
        <= Due(MeetsLeft(ps, h), MeetsRight(ps, h), h.score)
    ensures var front, last := ps[..|ps| - 1], ps[|ps| - 1];
      Ends(MeetsLeft(front, h), MeetsRight(front, h)) + (if Touch(last, h) then 1 else 0)
        <= Ends(MeetsLeft(ps, h), MeetsRight(ps, h))
  {
    var front, last := ps[..|ps| - 1], ps[|ps| - 1];
    assert last in ps && forall p :: p in front ==> p in ps;
    NotAgain(ps, h);
  }

  lemma TotalSnoc(ps: seq<Pair>, p: Pair)
    ensures Total(ps + [p]) == Total(ps) + p.score
  {
    assert (ps + [p])[..|ps|] == ps;
  }

  lemma NotAgain(ps: seq<Pair>, h: Pair)
    requires IsMatching(ps) && ps != []
    ensures ps[|ps| - 1].oi == h.oi ==> forall p :: p in ps[..|ps| - 1] ==> p.oi != h.oi
    ensures ps[|ps| - 1].ci == h.ci ==> forall p :: p in ps[..|ps| - 1] ==> p.ci != h.ci
  {
  }

  /** Greedy is within a factor two, in score and in size, of every matching it competes with. */
  lemma {:induction false} GreedyHalf(cands: seq<Pair>, ou: set<nat>, cu: set<nat>, other: seq<Pair>)
    requires SortedBy(ByScore(), cands) && forall p :: p in cands ==> p.score >= 0.0
    requires IsMatching(other) && Avoids(other, ou, cu)
    requires forall p :: p in other ==> p in cands
    ensures Total(other) <= 2.0 * Total(Greedy(cands, ou, cu))
    ensures |other| <= 2 * |Greedy(cands, ou, cu)|
  {
    if cands == [] {
      NoMembers(other);
    } else {
      var h := cands[0];
      SortedTail(cands);
      if h.oi in ou || h.ci in cu {
        assert forall p :: p in other ==> p in cands[1..];
        GreedyHalf(cands[1..], ou, cu, other);
      } else {
        HeadCost(cands, other);
        var kept := Untouched(other, h);
        UntouchedKeeps(other, h);
        forall p | p in kept
          ensures p in cands[1..]
        {
          assert p in cands && p != h;
        }
        GreedyHalf(cands[1..], ou + {h.oi}, cu + {h.ci}, kept);
        TotalCons(h, Greedy(cands[1..], ou + {h.oi}, cu + {h.ci}));
      }
    }
  }

  lemma HeadCost(cands: seq<Pair>, other: seq<Pair>)
    requires SortedBy(ByScore(), cands) && cands != [] && cands[0].score >= 0.0
    requires IsMatching(other) && forall p :: p in other ==> p in cands
    ensures Total(other) <= Total(Untouched(other, cands[0])) + 2.0 * cands[0].score
    ensures |other| <= |Untouched(other, cands[0])| + 2
  {
    var h := cands[0];
    forall p | p in other
      ensures p.score <= h.score
    {
      var i :| 0 <= i < |cands| && cands[i] == p;
      assert i > 0 ==> ByScore()(cands[0], cands[i]);
    }
    TouchedCost(other, h);
  }

  lemma {:induction false} TotalCons(h: Pair, ps: seq<Pair>)
    ensures Total([h] + ps) == h.score + Total(ps)
  {
    if ps == [] {
      assert [h] + ps == [] + [h];
      TotalSnoc([], h);
    } else {
      TotalCons(h, ps[..|ps| - 1]);
      assert [h] + ps == ([h] + ps[..|ps| - 1]) + [ps[|ps| - 1]];
      TotalSnoc([h] + ps[..|ps| - 1], ps[|ps| - 1]);
    }
  }

  /** The factor is attained: three equal scores in a path make greedy take the middle one. */
  lemma FactorTwoIsTight(s: real)
    requires s > 0.0
    ensures var cands := [Pair(0, 0, s), Pair(0, 1, s), Pair(1, 0, s)];
      var other := [Pair(0, 1, s), Pair(1, 0, s)];
      && SortedBy(ByScore(), cands) && IsMatching(other) && (forall p :: p in other ==> p in cands)
      && Total(other) == 2.0 * Total(Greedy(cands, {}, {})) && |other| == 2 * |Greedy(cands, {}, {})|
  {
    var a, b, c := Pair(0, 0, s), Pair(0, 1, s), Pair(1, 0, s);
    assert [a, b, c][1..] == [b, c] && [b, c][1..] == [c] && [c][1..] == [];
    assert Greedy([c], {0}, {0}) == [];
    assert Greedy([b, c], {0}, {0}) == [];
    assert {} + {0 as nat} == {0 as nat};
    assert Greedy([a, b, c], {}, {}) == [a] + Greedy([b, c], {0}, {0});
    TotalCons(a, []);
    assert [a] + [] == [a];
    assert [b, c][..1] == [b] && [b][..0] == [];
  }

  // ----- the comparison

  datatype Match = Match(openai: Finding, chatgpt: Finding, score: real, severityDelta: int)

  datatype Summary = Summary(openaiCount: int, chatgptCount: int, overlapCount: int,
                             openaiOnlyCount: int, chatgptOnlyCount: int, meanAbsSeverityDelta: real)

  datatype CompareResult = CompareResult(overlap: seq<Match>, openaiOnly: seq<Finding>, chatgptOnly: seq<Finding>, summary: Summary)

  function Abs(n: int): nat {
    if n < 0 then -n else n
  }

  ghost function SumAbsDelta(ms: seq<Match>): nat {
    if ms == [] then 0 else SumAbsDelta(ms[..|ms| - 1]) + Abs(ms[|ms| - 1].severityDelta)
  }

  function MatchOf(openai: seq<Finding>, chatgpt: seq<Finding>, p: Pair): Match
    requires p.oi < |openai| && p.ci < |chatgpt|
  {
    Match(openai[p.oi], chatgpt[p.ci], p.score, Rank(openai[p.oi].severity) - Rank(chatgpt[p.ci].severity))
  }

  /** The overlap lists the chosen pairs in the order they were chosen. */
  ghost predicate Reports(openai: seq<Finding>, chatgpt: seq<Finding>, chosen: seq<Pair>, overlap: seq<Match>) {
    && |overlap| == |chosen|
    && forall i :: 0 <= i < |chosen| ==>
         chosen[i].oi < |openai| && chosen[i].ci < |chatgpt| && overlap[i] == MatchOf(openai, chatgpt, chosen[i])
  }

  /** The findings whose index is not in `used`, in input order. */
  function Unused(fs: seq<Finding>, used: set<nat>): seq<Finding> {
    if fs == [] then []
    else Unused(fs[..|fs| - 1], used) + if |fs| - 1 in used then [] else [fs[|fs| - 1]]
  }

  ghost function OpenaiEnds(ps: seq<Pair>): set<nat> {
    set p | p in ps :: p.oi
  }

  ghost function ChatgptEnds(ps: seq<Pair>): set<nat> {
    set p | p in ps :: p.ci
  }

  /** The pairs `compareFindingSets` chooses. */
  ghost predicate Chosen(openai: seq<Finding>, chatgpt: seq<Finding>, threshold: real, titleWeight: real, chosen: seq<Pair>) {
    exists cands :: AreCandidates(openai, chatgpt, threshold, titleWeight, cands)
                    && chosen == Greedy(Sort(ByScore(), cands), {}, {})
  }

  method Take(openai: seq<Finding>, chatgpt: seq<Finding>, cands: seq<Pair>)
    returns (openaiUsed: set<nat>, chatgptUsed: set<nat>, overlap: seq<Match>)
    requires forall p :: p in cands ==> p.oi < |openai| && p.ci < |chatgpt|
    ensures var chosen := Greedy(cands, {}, {});
      && openaiUsed == OpenaiEnds(chosen) && chatgptUsed == ChatgptEnds(chosen)
      && Reports(openai, chatgpt, chosen, overlap)
  {
    hide OpenaiEnds, ChatgptEnds, Greedy;
    openaiUsed, chatgptUsed, overlap := {}, {}, [];
    NoEnds();
    ghost var chosen: seq<Pair> := [];
    assert cands[0..] == cands && [] + Greedy(cands, {}, {}) == Greedy(cands, {}, {});
    for i := 0 to |cands|
      invariant Greedy(cands, {}, {}) == chosen + Greedy(cands[i..], openaiUsed, chatgptUsed)
      invariant openaiUsed == OpenaiEnds(chosen) && chatgptUsed == ChatgptEnds(chosen)
      invariant Reports(openai, chatgpt, chosen, overlap)
    {
      var c := cands[i];
      GreedyStep(cands, i, chosen, openaiUsed, chatgptUsed);
      if !(c.oi in openaiUsed || c.ci in chatgptUsed) {
        assert c in cands;
        overlap := overlap + [MatchOf(openai, chatgpt, c)];
        EndsSnoc(chosen, c);
        openaiUsed, chatgptUsed, chosen := openaiUsed + {c.oi}, chatgptUsed + {c.ci}, chosen + [c];
      }
    }
    GreedyDone(cands, chosen, openaiUsed, chatgptUsed);
  }

  lemma GreedyStep(cands: seq<Pair>, i: nat, chosen: seq<Pair>, ou: set<nat>, cu: set<nat>)
    requires i < |cands|
    ensures var c := cands[i];
      if c.oi in ou || c.ci in cu then Greedy(cands[i..], ou, cu) == Greedy(cands[i + 1..], ou, cu)
      else chosen + Greedy(cands[i..], ou, cu) == chosen + [c] + Greedy(cands[i + 1..], ou + {c.oi}, cu + {c.ci})
  {
    assert cands[i..][0] == cands[i] && cands[i..][1..] == cands[i + 1..];
  }

  lemma GreedyDone(cands: seq<Pair>, chosen: seq<Pair>, ou: set<nat>, cu: set<nat>)
    ensures chosen + Greedy(cands[|cands|..], ou, cu) == chosen
  {
    assert cands[|cands|..] == [];
  }

  lemma NoEnds()
    ensures OpenaiEnds([]) == {} && ChatgptEnds([]) == {}
  {
  }

  lemma EndsSnoc(ps: seq<Pair>, c: Pair)
    ensures OpenaiEnds(ps + [c]) == OpenaiEnds(ps) + {c.oi}
    ensures ChatgptEnds(ps + [c]) == ChatgptEnds(ps) + {c.ci}
  {
    assert forall p :: p in ps + [c] <==> p in ps || p == c;
  }

  method MeanAbsDelta(overlap: seq<Match>) returns (mean: real)
    ensures mean == if overlap == [] then 0.0 else SumAbsDelta(overlap) as real / |overlap| as real
  {
    if |overlap| == 0 {
      return 0.0;
    }
    var sum := 0;
    for i := 0 to |overlap|
      invariant sum == SumAbsDelta(overlap[..i])
    {
      assert overlap[..i + 1][..i] == overlap[..i];
      sum := sum + Abs(overlap[i].severityDelta);
    }
    assert overlap[..|overlap|] == overlap;
    mean := sum as real / |overlap| as real;
  }

  /** `r` tells of the pairs in `chosen` and of nothing else. */
  ghost predicate Tells(openai: seq<Finding>, chatgpt: seq<Finding>, chosen: seq<Pair>, r: CompareResult) {
    && Reports(openai, chatgpt, chosen, r.overlap)
    && r.openaiOnly == Unused(openai, OpenaiEnds(chosen))
    && r.chatgptOnly == Unused(chatgpt, ChatgptEnds(chosen))
    && r.summary == Summary(|openai|, |chatgpt|, |chosen|, |openai| - |chosen|, |chatgpt| - |chosen|,
      if chosen == [] then 0.0 else SumAbsDelta(r.overlap) as real / |chosen| as real)
  }

  function Share(shared: nat, of: nat): real {
    if of == 0 then 0.0 else shared as real / of as real
  }

  /** The words the titles share, of all their words. */
  ghost function TitleShare(o: Finding, c: Finding): real {
    Share(|o.words * c.words|, |o.words + c.words|)
  }

  /** The files both findings name, of those of the one that names fewer. */
  ghost function FileShare(o: Finding, c: Finding): real {
    var f, g := set x | x in o.affectedFiles, set x | x in c.affectedFiles;
    Share(|f * g|, if |f| <= |g| then |f| else |g|)
  }

  /** A score gives titles the weight `w` and files the rest. */
  ghost predicate Weighs(o: Finding, c: Finding, w: real, score: real) {
    score == w * TitleShare(o, c) + (1.0 - w) * FileShare(o, c)
  }

  lemma IndicesAreShares(o: Finding, c: Finding)
    ensures JaccardIndex(o.words, c.words) == TitleShare(o, c)
    ensures OverlapIndex(FileSet(o), FileSet(c)) == FileShare(o, c)
  {
    assert o.words + c.words == {} <==> |o.words + c.words| == 0;
    assert FileSet(o) == {} <==> |FileSet(o)| == 0;
    assert FileSet(c) == {} <==> |FileSet(c)| == 0;
  }

  lemma ScoreWeighs(o: Finding, c: Finding, w: real)
    ensures Weighs(o, c, w, Score(o, c, w))
  {
    IndicesAreShares(o, c);
    hide JaccardIndex, OverlapIndex, TitleShare, FileShare;
  }

  lemma ReportsWeigh(openai: seq<Finding>, chatgpt: seq<Finding>, threshold: real, titleWeight: real, chosen: seq<Pair>, overlap: seq<Match>)
    requires Chosen(openai, chatgpt, threshold, titleWeight, chosen) && Reports(openai, chatgpt, chosen, overlap)
    ensures forall m :: m in overlap ==> m.score >= threshold && Weighs(m.openai, m.chatgpt, titleWeight, m.score)
  {
    hide Chosen, Score, Weighs;
    ChosenIsStableMatching(openai, chatgpt, threshold, titleWeight, chosen);
    forall m | m in overlap
      ensures m.score >= threshold && Weighs(m.openai, m.chatgpt, titleWeight, m.score)
    {
      var i :| 0 <= i < |overlap| && overlap[i] == m;
      assert chosen[i] in chosen;
      ScoreWeighs(m.openai, m.chatgpt, titleWeight);
    }
  }

  method CompareFindingSets(openai: seq<Finding>, chatgpt: seq<Finding>, thresholdOption: Option<real>, weightOption: Option<real>)
    returns (r: CompareResult)
    ensures exists chosen ::
      && Chosen(openai, chatgpt, if thresholdOption.Some? then thresholdOption.value else 0.45,
                if weightOption.Some? then weightOption.value else 0.7, chosen)
      && Tells(openai, chatgpt, chosen, r)
    ensures forall m :: m in r.overlap ==>
      && m.score >= (if thresholdOption.Some? then thresholdOption.value else 0.45)
      && Weighs(m.openai, m.chatgpt, if weightOption.Some? then weightOption.value else 0.7, m.score)
  {
    var threshold := if thresholdOption.Some? then thresholdOption.value else 0.45;
    var titleWeight := if weightOption.Some? then weightOption.value else 0.7;
    var cands := Candidates(openai, chatgpt, threshold, titleWeight);
    var sorted := Sort(ByScore(), cands);
    SortPermutes(ByScore(), cands);
    hide AreCandidates, Score;
    CandidatesInRange(openai, chatgpt, threshold, titleWeight, cands);
    var openaiUsed, chatgptUsed, overlap := Take(openai, chatgpt, sorted);
    ghost var chosen := Greedy(sorted, {}, {});
    assert Chosen(openai, chatgpt, threshold, titleWeight, chosen);
    var openaiOnly := Unused(openai, openaiUsed);
    var chatgptOnly := Unused(chatgpt, chatgptUsed);
    var mean := MeanAbsDelta(overlap);
    GreedyIsMatching(sorted, {}, {});
    LeftoverCounts(openai, chatgpt, chosen);
    r := CompareResult(overlap, openaiOnly, chatgptOnly,
      Summary(|openai|, |chatgpt|, |overlap|, |openaiOnly|, |chatgptOnly|, mean));
    assert Tells(openai, chatgpt, chosen, r);
    hide Weighs, Chosen;
    ReportsWeigh(openai, chatgpt, threshold, titleWeight, chosen, overlap);
  }

  lemma CandidatesInRange(openai: seq<Finding>, chatgpt: seq<Finding>, threshold: real, titleWeight: real, cands: seq<Pair>)
    requires AreCandidates(openai, chatgpt, threshold, titleWeight, cands)
    ensures forall p :: p in cands ==> p.oi < |openai| && p.ci < |chatgpt|
  {
  }

  lemma {:induction false} UnusedCount(fs: seq<Finding>, used: set<nat>)
    ensures |Unused(fs, used)| + |set i: nat | i < |fs| && i in used| == |fs|
  {
    var now := set i: nat | i < |fs| && i in used;
    if fs == [] {
      assert now == {};
    } else {
      var n := |fs| - 1;
      UnusedCount(fs[..n], used);
      var before := set i: nat | i < n && i in used;
      assert now == if n in used then before + {n} else before;
    }
  }

  lemma {:induction false} EndsCount(ps: seq<Pair>)
    requires IsMatching(ps)
    ensures |OpenaiEnds(ps)| == |ps| && |ChatgptEnds(ps)| == |ps|
  {
    if ps != [] {
      var front, last := ps[..|ps| - 1], ps[|ps| - 1];
      assert ps == front + [last];
      EndsCount(front);
      EndsSnoc(front, last);
      EndsFresh(front, last);
      hide OpenaiEnds, ChatgptEnds;
    }
  }

  lemma EndsFresh(front: seq<Pair>, last: Pair)
    requires IsMatching(front + [last])
    ensures last.oi !in OpenaiEnds(front) && last.ci !in ChatgptEnds(front)
  {
    forall p | p in front
      ensures p.oi != last.oi && p.ci != last.ci
    {
      var i :| 0 <= i < |front| && front[i] == p;
      var all := front + [last];
      assert all[i].oi != all[|front|].oi && all[i].ci != all[|front|].ci;
    }
  }

  /** Every finding is either matched or listed as unmatched. */
  lemma LeftoverCounts(openai: seq<Finding>, chatgpt: seq<Finding>, chosen: seq<Pair>)
    requires IsMatching(chosen) && forall p :: p in chosen ==> p.oi < |openai| && p.ci < |chatgpt|
    ensures |Unused(openai, OpenaiEnds(chosen))| == |openai| - |chosen|
    ensures |Unused(chatgpt, ChatgptEnds(chosen))| == |chatgpt| - |chosen|
  {
    EndsCount(chosen);
    UnusedCount(openai, OpenaiEnds(chosen));
    UnusedCount(chatgpt, ChatgptEnds(chosen));
    assert OpenaiEnds(chosen) == set i: nat | i < |openai| && i in OpenaiEnds(chosen);
    assert ChatgptEnds(chosen) == set i: nat | i < |chatgpt| && i in ChatgptEnds(chosen);
  }

  /** The chosen pairs form a maximal matching of the eligible pairs, listed by descending score,
      and each pair left out lost an end to one that scores at least as much. */
  lemma ChosenIsStableMatching(openai: seq<Finding>, chatgpt: seq<Finding>, threshold: real, titleWeight: real, chosen: seq<Pair>)
    requires Chosen(openai, chatgpt, threshold, titleWeight, chosen)
    ensures IsMatching(chosen) && SortedBy(ByScore(), chosen)
    ensures forall p :: p in chosen ==> Eligible(openai, chatgpt, threshold, titleWeight, p)
    ensures forall c :: Eligible(openai, chatgpt, threshold, titleWeight, c) ==>
      exists p :: p in chosen && Touch(p, c) && p.score >= c.score
  {
    hide Score;
    var cands :| AreCandidates(openai, chatgpt, threshold, titleWeight, cands) && chosen == Greedy(Sort(ByScore(), cands), {}, {});
    var sorted := Sort(ByScore(), cands);
    SortPermutes(ByScore(), cands);
    ByScorePreorder();
    SortSorts(ByScore(), cands);
    GreedyIsMatching(sorted, {}, {});
    GreedyIsSorted(sorted, {}, {});
    forall c | Eligible(openai, chatgpt, threshold, titleWeight, c)
      ensures exists p :: p in chosen && Touch(p, c) && p.score >= c.score
    {
      GreedyIsStable(sorted, {}, {}, c);
    }
  }

  lemma {:induction false} GreedyIsSorted(cands: seq<Pair>, ou: set<nat>, cu: set<nat>)
    requires SortedBy(ByScore(), cands)
    ensures SortedBy(ByScore(), Greedy(cands, ou, cu))
  {
    if cands != [] {
      var h := cands[0];
      SortedTail(cands);
      if h.oi in ou || h.ci in cu {
        GreedyIsSorted(cands[1..], ou, cu);
      } else {
        var rest := Greedy(cands[1..], ou + {h.oi}, cu + {h.ci});
        GreedyIsSorted(cands[1..], ou + {h.oi}, cu + {h.ci});
        GreedyIsMatching(cands[1..], ou + {h.oi}, cu + {h.ci});
        forall j | 0 <= j < |rest|
          ensures h.score >= rest[j].score
        {
          assert rest[j] in cands[1..];
          var i :| 0 <= i < |cands[1..]| && cands[1..][i] == rest[j];
          assert ByScore()(cands[0], cands[i + 1]);
        }
      }
    }
  }

  /** No other pairing of eligible findings has more than twice the total score or twice the size. */
  lemma ChosenIsHalfOptimal(openai: seq<Finding>, chatgpt: seq<Finding>, threshold: real, titleWeight: real,
                            chosen: seq<Pair>, other: seq<Pair>)
    requires threshold >= 0.0 || 0.0 <= titleWeight <= 1.0
    requires Chosen(openai, chatgpt, threshold, titleWeight, chosen)
    requires IsMatching(other) && forall p :: p in other ==> Eligible(openai, chatgpt, threshold, titleWeight, p)
    ensures Total(other) <= 2.0 * Total(chosen)
    ensures |other| <= 2 * |chosen|
  {
    hide Score;
    var cands :| AreCandidates(openai, chatgpt, threshold, titleWeight, cands) && chosen == Greedy(Sort(ByScore(), cands), {}, {});
    var sorted := Sort(ByScore(), cands);
    SortPermutes(ByScore(), cands);
    ByScorePreorder();
    SortSorts(ByScore(), cands);
    forall p | p in sorted
      ensures p.score >= 0.0
    {
      if threshold < 0.0 {
        ScoreInUnit(openai[p.oi], chatgpt[p.ci], titleWeight);
      }
    }
    GreedyHalf(sorted, {}, {}, other);
  }
}
