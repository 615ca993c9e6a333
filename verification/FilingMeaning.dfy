/** What one call of `fileFixRequest` leaves behind, and what any number of them keep, in plain terms. */
module FilingMeaning {
  import opened Prelude
  import opened Sorting
  import opened Filing

  /** Open, with the label, and with the marker of the finding in its body. */
  predicate IsFor(issue: Issue, fp: string) {
    issue.open && issue.labelled && Marker(fp, "initial") in issue.body
  }

  lemma CarriesIsFor(repo: Repo, i: nat, fp: string)
    ensures Carries(repo, i, fp) <==> i < |repo| && IsFor(repo[i], fp)
  {
  }

  lemma {:induction false} FirstOfPage(repo: Repo, items: seq<nat>, m: Marker) returns (k: nat)
    requires FindFirst(repo, items, m).Some?
    ensures k < |items| && FindFirst(repo, items, m) == Some(items[k]) && items[k] < |repo| && m in repo[items[k]].body
    ensures forall j :: 0 <= j < k && items[j] < |repo| ==> m !in repo[items[j]].body
  {
    if items[0] < |repo| && m in repo[items[0]].body {
      k := 0;
    } else {
      var rest := FirstOfPage(repo, items[1..], m);
      k := rest + 1;
    }
  }

  /** The finding has an issue on the page: the first of them gets a comment with the re-filing marker, unless it has one
      with that marker already; nothing else changes, and its number is the answer. */
  lemma RefiledMeans(repo: Repo, items: seq<nat>, fp: string, pack: set<Marker>, k: nat)
    requires ValidSearch(repo, items) && k < |items| && items[k] < |repo| && IsFor(repo[items[k]], fp)
    requires forall j :: 0 <= j < k && items[j] < |repo| ==> !IsFor(repo[items[j]], fp)
    ensures var i, after := items[k], FiledAs(repo, items, fp, pack);
      && |after| == |repo| && (forall j :: 0 <= j < |repo| && j != i ==> after[j] == repo[j])
      && after[i] == repo[i].(comments := after[i].comments)
      && after[i].comments ==
           (if exists c :: c in repo[i].comments && Marker(fp, "refiled") in c then repo[i].comments
            else repo[i].comments + [{Marker(fp, "refiled")}])
      && Reply(repo, FindFirst(repo, items, IssueMarker(fp))) == Filed(repo[i].number, true)
  {
    hide ValidSearch;
    OnPage(repo, items);
    var m := IssueMarker(fp);
    assert items[k] in items;
    var first := FirstOfPage(repo, items, m);
    assert items[first] in items;
    assert first == k;
    var comments := repo[items[k]].comments;
    if c :| c in comments && Marker(fp, "refiled") in c {
      var a :| 0 <= a < |comments| && comments[a] == c;
    }
  }

  lemma OnPage(repo: Repo, items: seq<nat>)
    requires ValidSearch(repo, items)
    ensures forall i :: i in items ==> i < |repo| && repo[i].open && repo[i].labelled
  {
    forall i | i in items
      ensures i < |repo| && repo[i].open && repo[i].labelled
    {
      assert i in Candidates(repo);
    }
  }

  /** It has none on the page: one issue is added at the end, open and labelled, with the finding's marker, the text it
      was given and no comment; nothing else changes, and its number is the answer. */
  lemma CreatedMeans(repo: Repo, items: seq<nat>, fp: string, pack: set<Marker>)
    requires ValidSearch(repo, items) && forall i :: i in items && i < |repo| ==> !IsFor(repo[i], fp)
    ensures FiledAs(repo, items, fp, pack) == repo + [Issue(|repo| + 1, true, true, pack + {Marker(fp, "initial")}, [])]
    ensures Reply(repo, FindFirst(repo, items, IssueMarker(fp))) == Filed(|repo| + 1, false)
  {
    hide ValidSearch;
    OnPage(repo, items);
  }

  /** What the search may answer: open labelled issues, each once, at most a hundred, and all of them if they are no
      more. */
  lemma SearchMeans(repo: Repo, items: seq<nat>)
    requires ValidSearch(repo, items)
    ensures |items| <= 100 && (forall j, k :: 0 <= j < k < |items| ==> items[j] != items[k])
    ensures forall i :: i in items ==> i < |repo| && repo[i].open && repo[i].labelled
    ensures |items| < 100 ==> forall i: nat :: i < |repo| && repo[i].open && repo[i].labelled ==> i in items
  {
    OnPage(repo, items);
    if |items| < 100 {
      FullPageIsAll(repo, items);
      forall i: nat | i < |repo| && repo[i].open && repo[i].labelled
        ensures i in items
      {
        assert i in Candidates(repo);
      }
    }
  }

  /** Over any sequence of calls and of what people do: two open labelled issues never have the same finding's marker, and
      two comments of one issue never share a marker. */
  lemma NeverTwice(run: seq<Repo>, n: nat)
    requires n < |run| && Tidy(run[0]) && forall i :: 0 < i < |run| ==> Moves(run[i - 1], run[i])
    ensures forall i, j, fp :: 0 <= i < |run[n]| && 0 <= j < |run[n]| && IsFor(run[n][i], fp) && IsFor(run[n][j], fp) ==> i == j
    ensures forall i, a, b :: 0 <= i < |run[n]| && 0 <= a < b < |run[n][i].comments| ==>
      run[n][i].comments[a] * run[n][i].comments[b] == {}
  {
    hide Moves;
    RunTidy(run, n);
    forall i: nat, j: nat, fp | i < |run[n]| && j < |run[n]| && IsFor(run[n][i], fp) && IsFor(run[n][j], fp)
      ensures i == j
    {
      CarriesIsFor(run[n], i, fp);
      CarriesIsFor(run[n], j, fp);
    }
    forall i: nat, a: nat, b: nat | i < |run[n]| && a < b < |run[n][i].comments|
      ensures run[n][i].comments[a] * run[n][i].comments[b] == {}
    {
      NoCommonMarker(run[n], i, a, b);
    }
  }

  lemma NoCommonMarker(repo: Repo, i: nat, a: nat, b: nat)
    requires Tidy(repo) && i < |repo| && a < b < |repo[i].comments|
    ensures repo[i].comments[a] * repo[i].comments[b] == {}
  {
    assert forall m :: !(m in repo[i].comments[a] && m in repo[i].comments[b]);
  }

  /** After a call with fewer than a hundred open labelled issues there is one for the finding, and one only. */
  lemma ThenThereIsOne(repo: Repo, items: seq<nat>, fp: string, pack: set<Marker>) returns (i: nat)
    requires Tidy(repo) && NoIssueMarkers(pack) && |Candidates(repo)| < 100 && ValidSearch(repo, items)
    ensures var after := FiledAs(repo, items, fp, pack);
      i < |after| && IsFor(after[i], fp) && forall j :: 0 <= j < |after| && IsFor(after[j], fp) ==> j == i
  {
    hide ValidSearch, Candidates, FiledAs, NoIssueMarkers;
    i := FileLeaves(repo, items, fp, pack);
    var after := FiledAs(repo, items, fp, pack);
    CarriesIsFor(after, i, fp);
    forall j: nat | j < |after| && IsFor(after[j], fp)
      ensures j == i
    {
      CarriesIsFor(after, j, fp);
    }
  }
}
