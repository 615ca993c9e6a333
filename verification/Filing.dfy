/** Filing fix requests as issues: search before create, search before comment (`fileFixRequest`). Bodies of
    issues and comments are known by the markers they contain. */
module Filing {
  import opened Prelude
  import opened Sorting

  const PER_PAGE := 100

  datatype Marker = Marker(fingerprint: string, reason: string)

  function IssueMarker(fp: string): Marker {
    Marker(fp, "initial")
  }

  datatype Issue = Issue(number: nat, open: bool, labelled: bool, body: set<Marker>, comments: seq<set<Marker>>)

  type Repo = seq<Issue>

  datatype ApiError = SearchFailed | ListFailed | PostFailed

  datatype Filed = Filed(issueNumber: nat, reused: bool)

  // ----- the service

  predicate IsCandidate(repo: Repo, i: nat) {
    i < |repo| && repo[i].open && repo[i].labelled
  }

  function Candidates(repo: Repo): set<nat> {
    set i: nat | i < |repo| && IsCandidate(repo, i)
  }

  /** A search answers with one page of the open labelled issues, in an order of its own. */
  ghost predicate ValidSearch(repo: Repo, items: seq<nat>) {
    && Distinct(items)
    && (forall i :: i in items ==> i in Candidates(repo))
    && |items| == if |Candidates(repo)| <= PER_PAGE then |Candidates(repo)| else PER_PAGE
  }

  /** Page `page` of a listing, counted from one. */
  function Page(comments: seq<set<Marker>>, page: nat): seq<set<Marker>>
    requires page >= 1
  {
    var lo := PER_PAGE * (page - 1);
    if lo >= |comments| then []
    else if |comments| <= lo + PER_PAGE then comments[lo..]
    else comments[lo..lo + PER_PAGE]
  }

  ghost predicate Mentions(comments: seq<set<Marker>>, m: Marker) {
    exists k :: 0 <= k < |comments| && m in comments[k]
  }

  // ----- the calls as functions

  function FindFirst(repo: Repo, items: seq<nat>, m: Marker): (r: Option<nat>)
    ensures r.Some? ==> r.value in items && r.value < |repo| && m in repo[r.value].body
    ensures r.None? ==> forall i :: i in items && i < |repo| ==> m !in repo[i].body
  {
    if items == [] then None
    else if items[0] < |repo| && m in repo[items[0]].body then Some(items[0])
    else FindFirst(repo, items[1..], m)
  }

  function WithComment(repo: Repo, i: nat, comment: set<Marker>): Repo
    requires i < |repo|
  {
    repo[i := repo[i].(comments := repo[i].comments + [comment])]
  }

  ghost function Commented(repo: Repo, i: nat, m: Marker): Repo
    requires i < |repo|
  {
    if Mentions(repo[i].comments, m) then repo else WithComment(repo, i, {m})
  }

  function NewIssue(repo: Repo, fp: string, pack: set<Marker>): Issue {
    Issue(|repo| + 1, true, true, pack + {IssueMarker(fp)}, [])
  }

  ghost function FiledAs(repo: Repo, items: seq<nat>, fp: string, pack: set<Marker>): Repo {
    var found := FindFirst(repo, items, IssueMarker(fp));
    if found.Some? then Commented(repo, found.value, Marker(fp, "refiled"))
    else repo + [NewIssue(repo, fp, pack)]
  }

  function Reply(repo: Repo, found: Option<nat>): Filed
    requires found.Some? ==> found.value < |repo|
  {
    if found.Some? then Filed(repo[found.value].number, true) else Filed(|repo| + 1, false)
  }

  // ----- the client

  class GitHub {
    var issues: Repo

    method SearchIssues() returns (items: seq<nat>)
      ensures ValidSearch(issues, items)
    {
      items := [];
      var i := 0;
      while i < |issues| && |items| < PER_PAGE
        invariant 0 <= i <= |issues| && |items| <= PER_PAGE && Distinct(items)
        invariant (set k: nat | k in items) == set k: nat | k < i && IsCandidate(issues, k)
        invariant forall k :: k in items ==> k < i
        invariant |items| == |(set k: nat | k in items)|
      {
        var candidate := issues[i].open && issues[i].labelled;
        if candidate {
          FoundOne(items, i);
          items := items + [i];
        }
        i := i + 1;
      }
      FoundAll(issues, items, i);
    }

    method FindExistingIssue(fp: string, searchOk: bool) returns (r: Result<Option<nat>, ApiError>)
      ensures !searchOk ==> r == Err(SearchFailed)
      ensures searchOk ==> exists items :: ValidSearch(issues, items) && r == Ok(FindFirst(issues, items, IssueMarker(fp)))
    {
      if !searchOk {
        return Err(SearchFailed);
      }
      var answer := SearchIssues();
      for k := 0 to |answer|
        invariant FindFirst(issues, answer[k..], IssueMarker(fp)) == FindFirst(issues, answer, IssueMarker(fp))
      {
        assert answer[k] in Candidates(issues);
        assert answer[k..][0] == answer[k] && answer[k..][1..] == answer[k + 1..];
        if IssueMarker(fp) in issues[answer[k]].body {
          return Ok(Some(answer[k]));
        }
      }
      return Ok(None);
    }

    /** The page loop ends, and finds the marker if and only if a comment has it. */
    method CommentMarkerExists(i: nat, m: Marker, pageOk: nat -> bool) returns (r: Result<bool, ApiError>)
      requires i < |issues|
      ensures r.Ok? ==> (r.value <==> Mentions(issues[i].comments, m))
      ensures r.Err? ==> r.error == ListFailed && exists page: nat :: !pageOk(page)
    {
      var comments := issues[i].comments;
      var page := 1;
      while true
        invariant page >= 1
        invariant PER_PAGE * (page - 1) <= |comments|
        invariant forall k :: 0 <= k < PER_PAGE * (page - 1) ==> m !in comments[k]
        decreases |comments| - PER_PAGE * (page - 1)
      {
        if !pageOk(page) {
          return Err(ListFailed);
        }
        var batch := Page(comments, page);
        for k := 0 to |batch|
          invariant forall j :: 0 <= j < k ==> m !in batch[j]
        {
          if m in batch[k] {
            assert m in comments[PER_PAGE * (page - 1) + k];
            return Ok(true);
          }
        }
        PageAt(comments, page);
        if |batch| < PER_PAGE {
          return Ok(false);
        }
        page := page + 1;
      }
    }

    method CommentOnIssue(i: nat, m: Marker, pageOk: nat -> bool, postOk: bool) returns (r: Result<(), ApiError>)
      requires i < |issues|
      modifies this
      ensures r.Err? ==> issues == old(issues)
      ensures r.Ok? ==> issues == Commented(old(issues), i, m)
      ensures (forall page: nat :: pageOk(page)) && postOk ==> r.Ok?
    {
      var found := CommentMarkerExists(i, m, pageOk);
      if found.Err? {
        return Err(found.error);
      }
      if found.value {
        return Ok(());
      }
      if !postOk {
        return Err(PostFailed);
      }
      issues := WithComment(issues, i, {m});
      return Ok(());
    }

    /** `pack`: the markers that the remediation text already contains. */
    method FileFixRequest(fp: string, pack: set<Marker>, searchOk: bool, pageOk: nat -> bool, postOk: bool)
      returns (r: Result<Filed, ApiError>)
      modifies this
      ensures r.Err? ==> issues == old(issues)
      ensures r.Ok? ==> exists items ::
        && ValidSearch(old(issues), items)
        && issues == FiledAs(old(issues), items, fp, pack)
        && r.value == Reply(old(issues), FindFirst(old(issues), items, IssueMarker(fp)))
      ensures searchOk && (forall page: nat :: pageOk(page)) && postOk ==> r.Ok?
    {
      var existing := FindExistingIssue(fp, searchOk);
      if existing.Err? {
        return Err(existing.error);
      }
      ghost var items :| ValidSearch(issues, items) && existing == Ok(FindFirst(issues, items, IssueMarker(fp)));
      if existing.value.Some? {
        var i := existing.value.value;
        var commented := CommentOnIssue(i, Marker(fp, "refiled"), pageOk, postOk);
        if commented.Err? {
          return Err(commented.error);
        }
        assert issues == FiledAs(old(issues), items, fp, pack);
        return Ok(Filed(issues[i].number, true));
      }
      if !postOk {
        return Err(PostFailed);
      }
      var created := NewIssue(issues, fp, pack);
      issues := issues + [created];
      assert issues == FiledAs(old(issues), items, fp, pack);
      return Ok(Filed(created.number, false));
    }
  }

  lemma FoundOne(items: seq<nat>, i: nat)
    requires Distinct(items) && |items| == |(set k: nat | k in items)| && forall k :: k in items ==> k < i
    ensures (set k: nat | k in items + [i]) == (set k: nat | k in items) + {i}
    ensures Distinct(items + [i]) && |items + [i]| == |(set k: nat | k in items + [i])|
  {
    assert (set k: nat | k in items + [i]) == (set k: nat | k in items) + {i};
    assert forall j :: 0 <= j < |items| ==> items[j] in items;
  }

  lemma FoundAll(repo: Repo, items: seq<nat>, i: nat)
    requires i <= |repo| && |items| <= PER_PAGE && (i == |repo| || |items| == PER_PAGE) && Distinct(items)
    requires (set k: nat | k in items) == set k: nat | k < i && IsCandidate(repo, k)
    requires |items| == |(set k: nat | k in items)|
    ensures ValidSearch(repo, items)
  {
    var found := set k: nat | k in items;
    assert found <= Candidates(repo);
    assert Candidates(repo) == found + (Candidates(repo) - found);
    if i == |repo| {
      assert found == Candidates(repo);
    }
    forall k | k in items
      ensures k in Candidates(repo)
    {
      assert k in found;
    }
  }

  lemma PageAt(comments: seq<set<Marker>>, page: nat)
    requires page >= 1 && PER_PAGE * (page - 1) <= |comments|
    ensures var batch, lo := Page(comments, page), PER_PAGE * (page - 1);
      && (forall k :: lo <= k < lo + |batch| ==> k < |comments| && comments[k] == batch[k - lo])
      && (|batch| < PER_PAGE ==> lo + |batch| == |comments|) && |batch| <= PER_PAGE
      && lo + |batch| <= |comments|
  {
  }

  // ----- what holds over any sequence of calls

  /** An open labelled issue with the fingerprint's marker in its body. */
  predicate Carries(repo: Repo, i: nat, fp: string) {
    IsCandidate(repo, i) && IssueMarker(fp) in repo[i].body
  }

  ghost predicate OneIssueEach(repo: Repo) {
    forall i: nat, j: nat, fp :: Carries(repo, i, fp) && Carries(repo, j, fp) ==> i == j
  }

  ghost predicate OneCommentEach(repo: Repo) {
    forall i, a, b, m :: 0 <= i < |repo| && 0 <= a < b < |repo[i].comments| ==>
      !(m in repo[i].comments[a] && m in repo[i].comments[b])
  }

  ghost predicate Tidy(repo: Repo) {
    OneIssueEach(repo) && OneCommentEach(repo)
  }

  ghost predicate NoIssueMarkers(pack: set<Marker>) {
    forall fp :: IssueMarker(fp) !in pack
  }

  /** Everything that may happen to the repository: our two calls, and what people do. */
  datatype Event =
    | File(fp: string, pack: set<Marker>, items: seq<nat>)
    | Comment(issue: nat, marker: Marker)
    | Close(issue: nat)
    | Unlabel(issue: nat)
    | Remark(issue: nat)
    | OpenOther(labelled: bool)

  ghost predicate Enabled(repo: Repo, e: Event) {
    match e
    case File(_, pack, items) => ValidSearch(repo, items) && |Candidates(repo)| <= PER_PAGE && NoIssueMarkers(pack)
    case Comment(i, _) => i < |repo|
    case Close(i) => i < |repo|
    case Unlabel(i) => i < |repo|
    case Remark(i) => i < |repo|
    case OpenOther(_) => true
  }

  ghost function Apply(repo: Repo, e: Event): Repo
    requires Enabled(repo, e)
  {
    match e
    case File(fp, pack, items) => FiledAs(repo, items, fp, pack)
    case Comment(i, m) => Commented(repo, i, m)
    case Close(i) => repo[i := repo[i].(open := false)]
    case Unlabel(i) => repo[i := repo[i].(labelled := false)]
    case Remark(i) => WithComment(repo, i, {})
    case OpenOther(labelled) => repo + [Issue(|repo| + 1, true, labelled, {}, [])]
  }

  lemma FullPageIsAll(repo: Repo, items: seq<nat>)
    requires ValidSearch(repo, items) && |Candidates(repo)| <= PER_PAGE
    ensures forall i :: i in Candidates(repo) ==> i in items
  {
    var found := set k: nat | k in items;
    DistinctSize(items);
    assert found <= Candidates(repo);
    assert Candidates(repo) == found + (Candidates(repo) - found);
    assert found * (Candidates(repo) - found) == {};
  }

  lemma {:induction false} DistinctSize(items: seq<nat>)
    requires Distinct(items)
    ensures |(set k: nat | k in items)| == |items|
  {
    if items != [] {
      var front, last := items[..|items| - 1], items[|items| - 1];
      DistinctSize(front);
      assert items == front + [last];
      assert (set k: nat | k in items) == (set k: nat | k in front) + {last};
    }
  }

  /** No new carriers, no second one. */
  lemma CarriersFrom(repo: Repo, repo': Repo)
    requires OneIssueEach(repo) && forall i: nat, fp :: Carries(repo', i, fp) ==> Carries(repo, i, fp)
    ensures OneIssueEach(repo')
  {
  }

  lemma FindsCarrier(repo: Repo, items: seq<nat>, fp: string)
    requires ValidSearch(repo, items)
    ensures var found := FindFirst(repo, items, IssueMarker(fp)); found.Some? ==> found.value in items && Carries(repo, found.value, fp)
  {
  }

  lemma CommentTidy(repo: Repo, i: nat, m: Marker)
    requires i < |repo| && Tidy(repo)
    ensures Tidy(Commented(repo, i, m))
  {
    CarriersFrom(repo, Commented(repo, i, m));
  }

  lemma FileTidy(repo: Repo, e: Event)
    requires e.File? && Enabled(repo, e) && Tidy(repo)
    ensures Tidy(Apply(repo, e))
  {
    var found := FindFirst(repo, e.items, IssueMarker(e.fp));
    if found.Some? {
      CommentTidy(repo, found.value, Marker(e.fp, "refiled"));
    } else {
      FullPageIsAll(repo, e.items);
      var repo' := repo + [NewIssue(repo, e.fp, e.pack)];
      forall i: nat, j: nat, fp | Carries(repo', i, fp) && Carries(repo', j, fp)
        ensures i == j
      {
        assert i < |repo| ==> Carries(repo, i, fp) && i in Candidates(repo);
        assert j < |repo| ==> Carries(repo, j, fp) && j in Candidates(repo);
      }
    }
  }

  lemma StepTidy(repo: Repo, e: Event)
    requires Enabled(repo, e) && Tidy(repo)
    ensures Tidy(Apply(repo, e))
  {
    match e
    case File(_, _, _) => FileTidy(repo, e);
    case Comment(i, m) => CommentTidy(repo, i, m);
    case Close(i) => ChangedTidy(repo, i, repo[i].(open := false));
    case Unlabel(i) => ChangedTidy(repo, i, repo[i].(labelled := false));
    case Remark(i) => RemarkTidy(repo, i);
    case OpenOther(labelled) => OpenedTidy(repo, labelled);
  }

  lemma ChangedTidy(repo: Repo, i: nat, now: Issue)
    requires i < |repo| && Tidy(repo) && now.body == repo[i].body && now.comments == repo[i].comments
    requires now.open ==> repo[i].open
    requires now.labelled ==> repo[i].labelled
    ensures Tidy(repo[i := now])
  {
    CarriersFrom(repo, repo[i := now]);
  }

  lemma RemarkTidy(repo: Repo, i: nat)
    requires i < |repo| && Tidy(repo)
    ensures Tidy(WithComment(repo, i, {}))
  {
    CarriersFrom(repo, WithComment(repo, i, {}));
  }

  lemma OpenedTidy(repo: Repo, labelled: bool)
    requires Tidy(repo)
    ensures Tidy(repo + [Issue(|repo| + 1, true, labelled, {}, [])])
  {
    CarriersFrom(repo, repo + [Issue(|repo| + 1, true, labelled, {}, [])]);
  }

  ghost predicate Moves(repo: Repo, repo': Repo) {
    exists e :: Enabled(repo, e) && repo' == Apply(repo, e)
  }

  /** Filing is idempotent over any sequence of calls: never two open labelled issues for a fingerprint, never two
      comments of one issue with the same marker. */
  lemma {:induction false} RunTidy(run: seq<Repo>, n: nat)
    requires n < |run| && Tidy(run[0]) && forall i :: 0 < i < |run| ==> Moves(run[i - 1], run[i])
    ensures Tidy(run[n])
  {
    hide Tidy, Apply, Enabled;
    if n > 0 {
      RunTidy(run, n - 1);
      assert Moves(run[n - 1], run[n]);
      var e :| Enabled(run[n - 1], e) && run[n] == Apply(run[n - 1], e);
      StepTidy(run[n - 1], e);
    }
  }

  /** Filing the same finding again changes nothing once it has been re-filed. */
  lemma ThirdTimeNothing(repo: Repo, fp: string, pack: set<Marker>, items1: seq<nat>, items2: seq<nat>, items3: seq<nat>)
    requires Tidy(repo) && NoIssueMarkers(pack) && |Candidates(repo)| < PER_PAGE && ValidSearch(repo, items1)
    requires ValidSearch(FiledAs(repo, items1, fp, pack), items2)
    requires ValidSearch(FiledAs(FiledAs(repo, items1, fp, pack), items2, fp, pack), items3)
    ensures var twice := FiledAs(FiledAs(repo, items1, fp, pack), items2, fp, pack);
      FiledAs(twice, items3, fp, pack) == twice
  {
    hide ValidSearch, Candidates, Tidy, FindFirst, NoIssueMarkers;
    var once := FiledAs(repo, items1, fp, pack);
    var i := FileLeaves(repo, items1, fp, pack);
    Found(once, items2, fp, i);
    var twice := FiledAs(once, items2, fp, pack);
    CommentKeeps(once, i, Marker(fp, "refiled"));
    Found(twice, items3, fp, i);
    if !Mentions(once[i].comments, Marker(fp, "refiled")) {
      assert twice[i].comments[|once[i].comments|] == {Marker(fp, "refiled")};
    }
  }

  /** After a call there is exactly one open labelled issue for the fingerprint, and a page still holds all. */
  lemma FileLeaves(repo: Repo, items: seq<nat>, fp: string, pack: set<Marker>) returns (i: nat)
    requires Tidy(repo) && NoIssueMarkers(pack) && |Candidates(repo)| < PER_PAGE && ValidSearch(repo, items)
    ensures var once := FiledAs(repo, items, fp, pack);
      && Tidy(once) && |Candidates(once)| <= PER_PAGE
      && Carries(once, i, fp)
  {
    FileTidy(repo, File(fp, pack, items));
    var found := FindFirst(repo, items, IssueMarker(fp));
    if found.Some? {
      i := found.value;
      CommentKeeps(repo, i, Marker(fp, "refiled"));
    } else {
      i := |repo|;
      assert Candidates(repo + [NewIssue(repo, fp, pack)]) == Candidates(repo) + {i};
    }
  }

  lemma CommentKeeps(repo: Repo, i: nat, m: Marker)
    requires i < |repo|
    ensures Candidates(Commented(repo, i, m)) == Candidates(repo)
    ensures Tidy(repo) ==> Tidy(Commented(repo, i, m))
    ensures Commented(repo, i, m)[i].body == repo[i].body
    ensures forall k :: IsCandidate(Commented(repo, i, m), k) == IsCandidate(repo, k)
  {
    hide Tidy;
    if Tidy(repo) {
      CommentTidy(repo, i, m);
    }
  }

  lemma Found(repo: Repo, items: seq<nat>, fp: string, i: nat)
    requires Tidy(repo) && ValidSearch(repo, items) && |Candidates(repo)| <= PER_PAGE
    requires Carries(repo, i, fp)
    ensures FindFirst(repo, items, IssueMarker(fp)) == Some(i)
  {
    FullPageIsAll(repo, items);
    assert i in Candidates(repo);
    FindsCarrier(repo, items, fp);
  }

  /** One page is the exact limit: with an open issue for the fingerprint, every answer of the search keeps the
      repository tidy if and only if all open labelled issues fit on a page. */
  lemma PageIsTheLimit(repo: Repo, fp: string, i: nat)
    requires Tidy(repo) && Carries(repo, i, fp)
    ensures (forall items :: ValidSearch(repo, items) ==> Tidy(FiledAs(repo, items, fp, {}))) <==> |Candidates(repo)| <= PER_PAGE
  {
    hide Tidy, ValidSearch, FiledAs, Candidates;
    if |Candidates(repo)| <= PER_PAGE {
      forall items | ValidSearch(repo, items)
        ensures Tidy(FiledAs(repo, items, fp, {}))
      {
        FileAgainTidy(repo, fp, items);
      }
    } else {
      var items := PageWithout(repo, i);
      MissedMakesTwo(repo, fp, i, items);
    }
  }

  lemma FileAgainTidy(repo: Repo, fp: string, items: seq<nat>)
    requires Tidy(repo) && ValidSearch(repo, items) && |Candidates(repo)| <= PER_PAGE
    ensures Tidy(FiledAs(repo, items, fp, {}))
  {
    FileTidy(repo, File(fp, {}, items));
  }

  lemma PageWithout(repo: Repo, i: nat) returns (items: seq<nat>)
    requires |Candidates(repo)| > PER_PAGE && IsCandidate(repo, i)
    ensures ValidSearch(repo, items) && i !in items
  {
    items := Choose(Candidates(repo) - {i}, PER_PAGE);
  }

  lemma {:induction false} Choose(s: set<nat>, n: nat) returns (items: seq<nat>)
    requires n <= |s|
    ensures |items| == n && Distinct(items) && forall k :: k in items ==> k in s
  {
    if n == 0 {
      items := [];
    } else {
      var x :| x in s;
      items := Choose(s - {x}, n - 1);
      items := items + [x];
    }
  }

  lemma MissedMakesTwo(repo: Repo, fp: string, i: nat, items: seq<nat>)
    requires Tidy(repo) && Carries(repo, i, fp)
    requires ValidSearch(repo, items) && i !in items
    ensures !Tidy(FiledAs(repo, items, fp, {}))
  {
    FindsCarrier(repo, items, fp);
    var repo' := FiledAs(repo, items, fp, {});
    assert Carries(repo', i, fp) && Carries(repo', |repo|, fp);
  }

  /** `n` open labelled issues, the first of which is the finding's. */
  function Crowd(n: nat, fp: string): Repo {
    seq(n, k requires 0 <= k < n => Issue(k + 1, true, true, if k == 0 then {IssueMarker(fp)} else {}, []))
  }

  lemma {:induction false} CrowdSize(n: nat, fp: string)
    ensures |Candidates(Crowd(n, fp))| == n
  {
    if n == 0 {
      assert Candidates(Crowd(0, fp)) == {};
    } else {
      var last: nat := n - 1;
      CrowdSize(last, fp);
      forall k: nat
        ensures IsCandidate(Crowd(n, fp), k) <==> IsCandidate(Crowd(last, fp), k) || k == last
      {
      }
      assert Candidates(Crowd(n, fp)) == Candidates(Crowd(last, fp)) + {last};
    }
  }

  lemma CrowdTidy(n: nat, fp: string)
    requires n > 0
    ensures Tidy(Crowd(n, fp)) && Carries(Crowd(n, fp), 0, fp) && |Candidates(Crowd(n, fp))| == n
  {
    var repo := Crowd(n, fp);
    forall i: nat, f | Carries(repo, i, f)
      ensures i == 0
    {
    }
    CrowdSize(n, fp);
  }

  /** A tidy repository with one open labelled issue more than a page holds, and an answer of the search after which
      filing makes a second issue for the finding. */
  lemma OneTooMany(fp: string) returns (items: seq<nat>)
    ensures var repo := Crowd(PER_PAGE + 1, fp);
      && Tidy(repo) && Carries(repo, 0, fp) && |Candidates(repo)| == PER_PAGE + 1
      && ValidSearch(repo, items) && !Tidy(FiledAs(repo, items, fp, {}))
  {
    hide Tidy, ValidSearch, FiledAs, Candidates, Crowd, Carries;
    CrowdTidy(PER_PAGE + 1, fp);
    PageIsTheLimit(Crowd(PER_PAGE + 1, fp), fp, 0);
    items :| ValidSearch(Crowd(PER_PAGE + 1, fp), items) && !Tidy(FiledAs(Crowd(PER_PAGE + 1, fp), items, fp, {}));
  }
}
