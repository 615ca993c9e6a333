/** What the comparison of two finding lists means for its user: which alikeness is enough for a match, which of two
    equally good candidates wins, and who is left over. */
module MatchMeaning {
  import opened Sorting
  import opened Matching

  // ----- which alikeness is enough

  ghost predicate IsCandidate(openai: seq<Finding>, chatgpt: seq<Finding>, threshold: real, w: real, oi: nat, ci: nat) {
    exists p :: Eligible(openai, chatgpt, threshold, w, p) && p.oi == oi && p.ci == ci
  }

  lemma CandidateIff(openai: seq<Finding>, chatgpt: seq<Finding>, threshold: real, w: real, oi: nat, ci: nat)
    requires oi < |openai| && ci < |chatgpt|
    ensures IsCandidate(openai, chatgpt, threshold, w, oi, ci) <==>
      w * TitleShare(openai[oi], chatgpt[ci]) + (1.0 - w) * FileShare(openai[oi], chatgpt[ci]) >= threshold
  {
    hide Score, TitleShare, FileShare;
    var score := Score(openai[oi], chatgpt[ci], w);
    ScoreWeighs(openai[oi], chatgpt[ci], w);
    if score >= threshold {
      assert Eligible(openai, chatgpt, threshold, w, Pair(oi, ci, score));
    }
  }

  /** The same title words, and a side without files. */
  ghost predicate SameTitleOnly(o: Finding, c: Finding) {
    o.words == c.words != {} && (o.affectedFiles == [] || c.affectedFiles == [])
  }

  /** The same files, and no title word in common. */
  ghost predicate SameFilesOnly(o: Finding, c: Finding) {
    && o.words !! c.words && o.affectedFiles != []
    && forall x :: x in o.affectedFiles <==> x in c.affectedFiles
  }

  lemma TitleOnlyShares(o: Finding, c: Finding)
    requires SameTitleOnly(o, c)
    ensures TitleShare(o, c) == 1.0 && FileShare(o, c) == 0.0
  {
    assert o.words * c.words == o.words && o.words + c.words == o.words;
    assert |o.words| != 0;
    var f, g := set x | x in o.affectedFiles, set x | x in c.affectedFiles;
    assert f == {} || g == {};
  }

  lemma FilesOnlyShares(o: Finding, c: Finding)
    requires SameFilesOnly(o, c)
    ensures TitleShare(o, c) == 0.0 && FileShare(o, c) == 1.0
  {
    assert o.words * c.words == {};
    var f, g := set x | x in o.affectedFiles, set x | x in c.affectedFiles;
    assert o.affectedFiles[0] in f;
    assert f == g;
    WholeShare(f);
  }

  lemma WholeShare(f: set<string>)
    requires f != {}
    ensures Share(|f * f|, |f|) == 1.0
  {
    assert f * f == f && |f| != 0;
  }

  /** An equal title alone makes a candidate exactly when the title weight reaches the threshold. */
  lemma TitleAloneIff(openai: seq<Finding>, chatgpt: seq<Finding>, threshold: real, w: real, oi: nat, ci: nat)
    requires oi < |openai| && ci < |chatgpt| && SameTitleOnly(openai[oi], chatgpt[ci])
    ensures IsCandidate(openai, chatgpt, threshold, w, oi, ci) <==> w >= threshold
  {
    hide IsCandidate, TitleShare, FileShare;
    CandidateIff(openai, chatgpt, threshold, w, oi, ci);
    TitleOnlyShares(openai[oi], chatgpt[ci]);
  }

  /** Equal files alone make one exactly when the rest of the weight does. */
  lemma FilesAloneIff(openai: seq<Finding>, chatgpt: seq<Finding>, threshold: real, w: real, oi: nat, ci: nat)
    requires oi < |openai| && ci < |chatgpt| && SameFilesOnly(openai[oi], chatgpt[ci])
    ensures IsCandidate(openai, chatgpt, threshold, w, oi, ci) <==> 1.0 - w >= threshold
  {
    hide IsCandidate, TitleShare, FileShare;
    CandidateIff(openai, chatgpt, threshold, w, oi, ci);
    FilesOnlyShares(openai[oi], chatgpt[ci]);
  }

  /** With the options left out: one finding on each side is matched for its title alone, and not for its files alone. */
  lemma DefaultsDecide(o: Finding, c: Finding, chosen: seq<Pair>)
    requires Chosen([o], [c], 0.45, 0.7, chosen)
    ensures SameTitleOnly(o, c) ==> |chosen| == 1
    ensures SameFilesOnly(o, c) ==> chosen == []
  {
    hide SameTitleOnly, SameFilesOnly, Chosen, Score, IsMatching;
    ChosenIsStableMatching([o], [c], 0.45, 0.7, chosen);
    AtMostOne([o], [c], chosen);
    if SameTitleOnly(o, c) {
      TitleAloneIff([o], [c], 0.45, 0.7, 0, 0);
    }
    if SameFilesOnly(o, c) {
      FilesAloneIff([o], [c], 0.45, 0.7, 0, 0);
      if chosen != [] {
        ChosenWasCandidate(o, c, chosen);
      }
    }
  }

  lemma ChosenWasCandidate(o: Finding, c: Finding, chosen: seq<Pair>)
    requires chosen != [] && forall p :: p in chosen ==> Eligible([o], [c], 0.45, 0.7, p)
    ensures IsCandidate([o], [c], 0.45, 0.7, 0, 0)
  {
    assert chosen[0] in chosen && chosen[0].oi == 0 && chosen[0].ci == 0;
  }

  lemma AtMostOne(openai: seq<Finding>, chatgpt: seq<Finding>, chosen: seq<Pair>)
    requires |openai| == 1 && IsMatching(chosen) && forall p :: p in chosen ==> p.oi < |openai|
    ensures |chosen| <= 1
  {
    if |chosen| > 1 {
      SecondRow(chosen);
    }
  }

  lemma SecondRow(chosen: seq<Pair>)
    requires IsMatching(chosen) && |chosen| > 1
    ensures exists p :: p in chosen && p.oi >= 1
  {
    assert chosen[0] in chosen && chosen[1] in chosen;
  }

  // ----- severities and counts

  /** Severities count one to four; anything else counts nothing. */
  function Points(s: Severity): nat {
    if s == Low then 1 else if s == Medium then 2 else if s == High then 3 else if s == Critical then 4 else 0
  }

  /** By how much the two sides of the matches differ, all together. */
  function Apart(ms: seq<Match>): nat {
    if ms == [] then 0
    else
      var a, b := Points(ms[0].openai.severity), Points(ms[0].chatgpt.severity);
      (if a >= b then a - b else b - a) + Apart(ms[1..])
  }

  lemma {:induction false} ApartSnoc(ms: seq<Match>, m: Match)
    ensures Apart(ms + [m]) == Apart(ms) + Apart([m])
  {
    if ms == [] {
      assert ms + [m] == [m];
    } else {
      ApartSnoc(ms[1..], m);
      assert (ms + [m])[1..] == ms[1..] + [m];
    }
  }

  lemma {:induction false} SumIsApart(ms: seq<Match>)
    requires forall m :: m in ms ==> m.severityDelta == Points(m.openai.severity) - Points(m.chatgpt.severity)
    ensures SumAbsDelta(ms) == Apart(ms)
  {
    if ms != [] {
      var front, last := ms[..|ms| - 1], ms[|ms| - 1];
      assert ms == front + [last];
      SumIsApart(front);
      ApartSnoc(front, last);
      assert last in ms && [last][1..] == [];
    }
  }

  /** What a comparison counts: a match's delta is the points of the first finding less those of the second, the mean is
      that of their absolute values, none being nought, and the counts are those of the lists. */
  lemma DeltasMean(openai: seq<Finding>, chatgpt: seq<Finding>, chosen: seq<Pair>, r: CompareResult)
    requires Tells(openai, chatgpt, chosen, r) && IsMatching(chosen)
    requires forall p :: p in chosen ==> p.oi < |openai| && p.ci < |chatgpt|
    ensures forall m :: m in r.overlap ==> m.severityDelta == Points(m.openai.severity) - Points(m.chatgpt.severity)
    ensures r.summary.meanAbsSeverityDelta == if r.overlap == [] then 0.0 else Apart(r.overlap) as real / |r.overlap| as real
    ensures r.summary.openaiCount == |openai| && r.summary.chatgptCount == |chatgpt| && r.summary.overlapCount == |r.overlap|
    ensures r.summary.openaiOnlyCount == |r.openaiOnly| && r.summary.chatgptOnlyCount == |r.chatgptOnly|
    ensures |r.overlap| + |r.openaiOnly| == |openai| && |r.overlap| + |r.chatgptOnly| == |chatgpt|
  {
    hide IsMatching;
    LeftoverCounts(openai, chatgpt, chosen);
    forall m | m in r.overlap
      ensures m.severityDelta == Points(m.openai.severity) - Points(m.chatgpt.severity)
    {
      var i :| 0 <= i < |r.overlap| && r.overlap[i] == m;
    }
    SumIsApart(r.overlap);
  }

  // ----- which of two candidates wins

  /** `p` comes before `c`: it scores more, or as much and stands before it in the order of the lists. */
  ghost predicate Ahead(p: Pair, c: Pair) {
    p.score > c.score || (p.score == c.score && Before(p, c))
  }

  ghost predicate Ranked(ps: seq<Pair>) {
    forall i, j :: 0 <= i < j < |ps| ==> Ahead(ps[i], ps[j])
  }

  lemma {:induction false} InsertRanked(s: seq<Pair>, x: Pair)
    requires Ranked(s) && forall y :: y in s ==> Before(y, x)
    ensures Ranked(Insert(ByScore(), s, x))
  {
    if s != [] && s[|s| - 1].score < x.score {
      var front, last := s[..|s| - 1], s[|s| - 1];
      assert forall y :: y in front ==> y in s;
      InsertRanked(front, x);
      InsertPermutes(ByScore(), front, x);
      forall i | 0 <= i < |Insert(ByScore(), front, x)|
        ensures Ahead(Insert(ByScore(), front, x)[i], last)
      {
        InsertedFrom(front, x, i);
        if Insert(ByScore(), front, x)[i] != x {
          var k :| 0 <= k < |front| && front[k] == Insert(ByScore(), front, x)[i];
          assert Ahead(s[k], s[|s| - 1]);
        }
      }
    } else {
      forall i | 0 <= i < |s|
        ensures Ahead(s[i], x)
      {
        assert s[i] in s;
        assert i < |s| - 1 ==> Ahead(s[i], s[|s| - 1]);
      }
    }
  }

  lemma InsertedFrom(s: seq<Pair>, x: Pair, i: nat)
    requires i < |Insert(ByScore(), s, x)|
    ensures Insert(ByScore(), s, x)[i] == x || Insert(ByScore(), s, x)[i] in s
  {
    InsertPermutes(ByScore(), s, x);
    var y := Insert(ByScore(), s, x)[i];
    assert y in multiset(Insert(ByScore(), s, x));
    assert y in multiset(s) + multiset{x};
  }

  /** Sorting by falling score keeps row-major order among equal scores. */
  lemma {:induction false} SortRanks(cands: seq<Pair>)
    requires forall i, j :: 0 <= i < j < |cands| ==> Before(cands[i], cands[j])
    ensures Ranked(Sort(ByScore(), cands))
  {
    hide Insert;
    if cands != [] {
      var front, last := cands[..|cands| - 1], cands[|cands| - 1];
      SortRanks(front);
      SortPermutes(ByScore(), front);
      forall y | y in Sort(ByScore(), front)
        ensures Before(y, last)
      {
        assert y in multiset(front);
        var i :| 0 <= i < |front| && front[i] == y;
        assert Before(cands[i], cands[|cands| - 1]);
      }
      InsertRanked(Sort(ByScore(), front), last);
    }
  }

  lemma {:induction false} GreedyTakesFirst(cands: seq<Pair>, ou: set<nat>, cu: set<nat>, c: Pair)
    requires Ranked(cands) && c in cands
    ensures c.oi in ou || c.ci in cu || exists p :: p in Greedy(cands, ou, cu) && Touch(p, c) && (p == c || Ahead(p, c))
  {
    hide Ahead;
    var p := cands[0];
    assert Ranked(cands[1..]) by {
      forall i, j | 0 <= i < j < |cands[1..]|
        ensures Ahead(cands[1..][i], cands[1..][j])
      {
        assert Ahead(cands[i + 1], cands[j + 1]);
      }
    }
    if p.oi in ou || p.ci in cu {
      if c != p {
        GreedyTakesFirst(cands[1..], ou, cu, c);
      }
    } else {
      var rest := Greedy(cands[1..], ou + {p.oi}, cu + {p.ci});
      assert p in [p] + rest;
      if Touch(p, c) {
        var i :| 0 <= i < |cands| && cands[i] == c;
        assert i > 0 ==> Ahead(cands[0], cands[i]);
      } else {
        GreedyTakesFirst(cands[1..], ou + {p.oi}, cu + {p.ci}, c);
        if q :| q in rest && Touch(q, c) && (q == c || Ahead(q, c)) {
          assert q in [p] + rest;
        }
      }
    }
  }

  /** Every eligible pair is chosen or loses an end to a chosen pair that comes before it; of equal scores the one
      first in the lists wins. */
  lemma FirstComeFirstMatched(openai: seq<Finding>, chatgpt: seq<Finding>, threshold: real, w: real, chosen: seq<Pair>, c: Pair)
    requires Chosen(openai, chatgpt, threshold, w, chosen) && Eligible(openai, chatgpt, threshold, w, c)
    ensures exists p :: p in chosen && Touch(p, c) && (p == c || Ahead(p, c))
  {
    hide Score, Ahead, Eligible;
    var cands :| AreCandidates(openai, chatgpt, threshold, w, cands) && chosen == Greedy(Sort(ByScore(), cands), {}, {});
    SortRanks(cands);
    SortPermutes(ByScore(), cands);
    assert c in multiset(cands);
    GreedyTakesFirst(Sort(ByScore(), cands), {}, {}, c);
  }

  ghost predicate Decides(openai: seq<Finding>, chatgpt: seq<Finding>, threshold: real, w: real, chosen: seq<Pair>) {
    && (forall p, q :: p in chosen && q in chosen && Touch(p, q) ==> p == q)
    && (forall p :: p in chosen ==> Eligible(openai, chatgpt, threshold, w, p))
    && (forall c :: Eligible(openai, chatgpt, threshold, w, c) ==>
          exists p :: p in chosen && Touch(p, c) && (p == c || Ahead(p, c)))
  }

  ghost function AheadOf(all: set<Pair>, p: Pair): set<Pair> {
    set q | q in all && Ahead(q, p)
  }

  /** A pair of the one is in the other, by the pairs before it. */
  lemma {:induction false} InOther(openai: seq<Finding>, chatgpt: seq<Finding>, threshold: real, w: real,
                                   a: seq<Pair>, b: seq<Pair>, all: set<Pair>, p: Pair)
    requires Decides(openai, chatgpt, threshold, w, a) && Decides(openai, chatgpt, threshold, w, b)
    requires (forall q :: q in a || q in b ==> q in all) && p in a
    ensures p in b
    decreases |AheadOf(all, p)|
  {
    hide Eligible, AheadOf, Ahead, Touch;
    var q :| q in b && Touch(q, p) && (q == p || Ahead(q, p));
    if q != p {
      FewerAhead(all, q, p);
      InOther(openai, chatgpt, threshold, w, b, a, all, q);
    }
  }

  lemma FewerAhead(all: set<Pair>, q: Pair, p: Pair)
    requires q in all && Ahead(q, p)
    ensures |AheadOf(all, q)| < |AheadOf(all, p)|
  {
    assert AheadOf(all, q) <= AheadOf(all, p) - {q};
    SubsetSize(AheadOf(all, q), AheadOf(all, p) - {q});
    assert q in AheadOf(all, p);
  }

  /** So the choice is the only one of its kind: two matchings of eligible pairs with that property hold the same. */
  lemma ChoiceIsUnique(openai: seq<Finding>, chatgpt: seq<Finding>, threshold: real, w: real, a: seq<Pair>, b: seq<Pair>)
    requires Decides(openai, chatgpt, threshold, w, a) && Decides(openai, chatgpt, threshold, w, b)
    ensures forall p :: p in a <==> p in b
  {
    hide Decides;
    var all := (set p | p in a) + (set p | p in b);
    forall p
      ensures p in a <==> p in b
    {
      if p in a {
        InOther(openai, chatgpt, threshold, w, a, b, all, p);
      } else if p in b {
        InOther(openai, chatgpt, threshold, w, b, a, all, p);
      }
    }
  }

  lemma MatchedOnce(chosen: seq<Pair>)
    requires IsMatching(chosen)
    ensures forall p, q :: p in chosen && q in chosen && Touch(p, q) ==> p == q
  {
    forall p, q | p in chosen && q in chosen && Touch(p, q)
      ensures p == q
    {
      var i :| 0 <= i < |chosen| && chosen[i] == p;
      var j :| 0 <= j < |chosen| && chosen[j] == q;
      assert i == j;
    }
  }

  lemma ChosenDecides(openai: seq<Finding>, chatgpt: seq<Finding>, threshold: real, w: real, chosen: seq<Pair>)
    requires Chosen(openai, chatgpt, threshold, w, chosen)
    ensures Decides(openai, chatgpt, threshold, w, chosen)
  {
    hide Score, Ahead, Eligible, Chosen, IsMatching, SortedBy, Touch;
    ChosenIsStableMatching(openai, chatgpt, threshold, w, chosen);
    MatchedOnce(chosen);
    forall c | Eligible(openai, chatgpt, threshold, w, c)
      ensures exists p :: p in chosen && Touch(p, c) && (p == c || Ahead(p, c))
    {
      FirstComeFirstMatched(openai, chatgpt, threshold, w, chosen, c);
    }
  }

  // ----- who is left over

  /** `r` lists, in input order, exactly the findings at positions `at`, which are those not used. */
  ghost predicate ListsUnused(fs: seq<Finding>, used: set<nat>, r: seq<Finding>, at: seq<nat>) {
    && |at| == |r| && (forall k :: 0 <= k < |at| ==> at[k] < |fs| && r[k] == fs[at[k]])
    && (forall j, k :: 0 <= j < k < |at| ==> at[j] < at[k])
    && (forall i: nat :: i in at <==> i < |fs| && i !in used)
  }

  lemma ListsOneMore(fs: seq<Finding>, used: set<nat>, r: seq<Finding>, at: seq<nat>, f: Finding)
    requires ListsUnused(fs, used, r, at)
    ensures |fs| in used ==> ListsUnused(fs + [f], used, r, at)
    ensures |fs| !in used ==> ListsUnused(fs + [f], used, r + [f], at + [|fs|])
  {
    var n := |fs|;
    if n !in used {
      forall i: nat
        ensures i in at + [n] <==> i < |fs + [f]| && i !in used
      {
        assert i in at + [n] <==> i in at || i == n;
      }
    }
  }

  /** Left over are the findings at positions that no match uses, each once. */
  lemma {:induction false} UnusedAre(fs: seq<Finding>, used: set<nat>) returns (at: seq<nat>)
    ensures ListsUnused(fs, used, Unused(fs, used), at)
  {
    if fs == [] {
      at := [];
    } else {
      var n := |fs| - 1;
      var front := UnusedAre(fs[..n], used);
      ListsOneMore(fs[..n], used, Unused(fs[..n], used), front, fs[n]);
      hide ListsUnused;
      assert fs == fs[..n] + [fs[n]];
      at := if n in used then front else front + [n];
    }
  }
}
