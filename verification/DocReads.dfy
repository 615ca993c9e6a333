/** How much of a document a session has read (`estimateEvent`, `summariseDocReads`). */
module DocReads {
  import opened Prelude
  import opened Sorting
  import opened Intervals
  import opened IntervalOrder

  const READ_CAP := 2000

  datatype DocTarget = DocTarget(key: string, lines: nat)

  datatype Estimate = Estimate(sliced: bool, offsetLines: int, coveredLines: int)

  datatype DocReadEvent = DocReadEvent(key: string, session: string, estimate: Estimate)

  // ----- estimateEvent

  function EstimateEvent(target: DocTarget, offset: Option<int>, limit: Option<int>): Estimate {
    var before := if offset.Some? then offset.value else 0;
    var requested := if limit.Some? then limit.value else READ_CAP;
    var remaining := if target.lines - before > 0 then target.lines - before else 0;
    Estimate(offset.Some? || limit.Some?, before, if requested < remaining then requested else remaining)
  }

  function RangeOf(e: DocReadEvent): Interval {
    Interval(e.estimate.offsetLines, e.estimate.offsetLines + e.estimate.coveredLines)
  }

  /** The range runs backwards exactly for a negative limit. */
  lemma RangeOrderedIff(target: DocTarget, offset: Option<int>, limit: Option<int>, e: DocReadEvent)
    requires e.estimate == EstimateEvent(target, offset, limit)
    ensures Backward(RangeOf(e)) <==> limit.Some? && limit.value < 0
  {
  }

  /** One read alone is measured rightly if and only if its limit is absent or not negative. */
  lemma OneReadMeasuredIff(target: DocTarget, offset: Option<int>, limit: Option<int>, e: DocReadEvent)
    requires e.estimate == EstimateEvent(target, offset, limit)
    ensures Merged([RangeOf(e)]) == |Union([RangeOf(e)])| <==> limit.None? || limit.value >= 0
  {
    hide EstimateEvent, RangeOf, Union;
    var iv := RangeOf(e);
    RangeOrderedIff(target, offset, limit, e);
    SortedStays(ByStart(), [iv]);
    UnionAppend([], iv);
    NothingCovered();
    assert [] + [iv] == [iv] && {} + Lines(iv) == Lines(iv);
    LinesCount(iv);
  }

  /** One read counts for no more lines than the document has, unless it starts before the document and asks
      for more than the document. */
  lemma OneReadFitsIff(target: DocTarget, offset: Option<int>, limit: Option<int>)
    ensures EstimateEvent(target, offset, limit).coveredLines <= target.lines <==>
      offset.None? || offset.value >= 0 || (if limit.Some? then limit.value else READ_CAP) <= target.lines
  {
  }

  /** What `estimateEvent` makes of some offset and limit. */
  ghost predicate ReadsDoc(target: DocTarget, e: DocReadEvent) {
    exists offset: Option<int>, limit: Option<int> :: e.estimate == EstimateEvent(target, offset, limit)
  }

  lemma ReadRange(target: DocTarget, e: DocReadEvent)
    requires ReadsDoc(target, e)
    ensures RangeOf(e).lo < RangeOf(e).hi ==> RangeOf(e).hi <= target.lines
  {
  }

  // ----- summariseDocReads

  function Ranges(events: seq<DocReadEvent>, session: string): seq<Interval> {
    if events == [] then []
    else Ranges(events[..|events| - 1], session)
         + if events[|events| - 1].session == session then [RangeOf(events[|events| - 1])] else []
  }

  /** The distinct lines a session's reads cover. */
  function CoveredBy(events: seq<DocReadEvent>, session: string): set<int> {
    set e, x | e in events && e.session == session && x in Lines(RangeOf(e)) :: x
  }

  function Sessions(events: seq<DocReadEvent>): set<string> {
    set e | e in events :: e.session
  }

  function Own(target: DocTarget, events: seq<DocReadEvent>): seq<DocReadEvent> {
    Filter((e: DocReadEvent) => e.key == target.key, events)
  }

  function WholeDocSessions(target: DocTarget, own: seq<DocReadEvent>): set<string> {
    set s | s in Sessions(own) && 5 * Merged(Ranges(own, s)) >= 4 * target.lines
  }

  /** Sessions whose distinct lines make up at least 80% of the document. */
  function ReadersOfFourFifths(target: DocTarget, own: seq<DocReadEvent>): set<string> {
    set s | s in Sessions(own) && 5 * |CoveredBy(own, s)| >= 4 * target.lines
  }

  ghost predicate Forward(events: seq<DocReadEvent>) {
    forall e :: e in events ==> !Backward(RangeOf(e))
  }

  datatype DocReadSummary = DocReadSummary(key: string, unsliced: nat, sliced: nat, wholeDocSessions: nat)

  lemma {:induction false} RangesUnion(events: seq<DocReadEvent>, session: string)
    ensures Union(Ranges(events, session)) == CoveredBy(events, session)
    ensures Forward(events) ==> Ordered(Ranges(events, session))
  {
    if events != [] {
      var front, last := events[..|events| - 1], events[|events| - 1];
      RangesUnion(front, session);
      CoveredAppend(front, last, session);
      assert events == front + [last];
      if last.session == session {
        UnionAppend(Ranges(front, session), RangeOf(last));
      }
    }
  }

  lemma CoveredAppend(front: seq<DocReadEvent>, last: DocReadEvent, session: string)
    ensures CoveredBy(front + [last], session) ==
      CoveredBy(front, session) + if last.session == session then Lines(RangeOf(last)) else {}
  {
    var all := front + [last];
    forall x | x in CoveredBy(front, session) || (last.session == session && x in Lines(RangeOf(last)))
      ensures x in CoveredBy(all, session)
    {
      if x in CoveredBy(front, session) {
        var e :| e in front && e.session == session && x in Lines(RangeOf(e));
        assert e in all;
      } else {
        assert last in all;
      }
    }
  }

  /** The per-session lists, as the loop fills them. */
  ghost predicate Grouped(events: seq<DocReadEvent>, bySession: map<string, seq<Interval>>) {
    bySession.Keys == Sessions(events) && forall s :: s in bySession ==> bySession[s] == Ranges(events, s)
  }

  method GroupBySession(own: seq<DocReadEvent>) returns (bySession: map<string, seq<Interval>>)
    ensures Grouped(own, bySession)
  {
    bySession := map[];
    for i := 0 to |own|
      invariant Grouped(own[..i], bySession)
    {
      GroupStep(own, i, bySession);
      var e := own[i];
      var list := if e.session in bySession then bySession[e.session] else [];
      bySession := bySession[e.session := list + [RangeOf(e)]];
    }
    assert own[..|own|] == own;
  }

  lemma GroupStep(own: seq<DocReadEvent>, i: nat, bySession: map<string, seq<Interval>>)
    requires i < |own| && Grouped(own[..i], bySession)
    ensures var e := own[i];
      var list := if e.session in bySession then bySession[e.session] else [];
      Grouped(own[..i + 1], bySession[e.session := list + [RangeOf(e)]])
  {
    assert own[..i + 1] == own[..i] + [own[i]];
    assert own[..i + 1][..i] == own[..i];
    NoRanges(own[..i], own[i].session);
  }

  lemma {:induction false} NoRanges(events: seq<DocReadEvent>, session: string)
    ensures session !in Sessions(events) ==> Ranges(events, session) == []
  {
    if events != [] {
      NoRanges(events[..|events| - 1], session);
    }
  }

  method SummariseTarget(target: DocTarget, events: seq<DocReadEvent>) returns (r: DocReadSummary)
    ensures r.key == target.key
    ensures r.unsliced == |Filter((e: DocReadEvent) => !e.estimate.sliced, Own(target, events))|
    ensures r.sliced == |Filter((e: DocReadEvent) => e.estimate.sliced, Own(target, events))|
    ensures r.unsliced + r.sliced == |Own(target, events)|
    ensures r.wholeDocSessions == |WholeDocSessions(target, Own(target, events))|
  {
    var own := Own(target, events);
    var unsliced := |Filter((e: DocReadEvent) => !e.estimate.sliced, own)|;
    var sliced := |Filter((e: DocReadEvent) => e.estimate.sliced, own)|;
    CallsAddUp(own);
    var bySession := GroupBySession(own);
    var whole := CountWhole(target, own, bySession);
    r := DocReadSummary(target.key, unsliced, sliced, whole);
  }

  method CountWhole(target: DocTarget, own: seq<DocReadEvent>, bySession: map<string, seq<Interval>>) returns (whole: nat)
    requires Grouped(own, bySession)
    ensures whole == |WholeDocSessions(target, own)|
  {
    whole := 0;
    ghost var counted: set<string> := {};
    var todo := bySession.Keys;
    while todo != {}
      invariant todo <= bySession.Keys && whole == |counted|
      invariant counted == set s | s in WholeDocSessions(target, own) && s !in todo
      decreases todo
    {
      hide Ranges, Merged;
      var s :| s in todo;
      var covered := MergedLength(bySession[s]);
      todo := todo - {s};
      if 5 * covered >= 4 * target.lines {
        counted := counted + {s};
        whole := whole + 1;
      }
    }
    assert counted == WholeDocSessions(target, own);
  }

  /** Every call is counted once. */
  lemma {:induction false} CallsAddUp(own: seq<DocReadEvent>)
    ensures |Filter((e: DocReadEvent) => !e.estimate.sliced, own)| + |Filter((e: DocReadEvent) => e.estimate.sliced, own)| == |own|
  {
    if own != [] {
      CallsAddUp(own[..|own| - 1]);
    }
  }

  // ----- what a session's merged length says

  function Sorted(events: seq<DocReadEvent>, session: string): seq<Interval> {
    Sort(ByStart(), Ranges(events, session))
  }

  /** What backward openers take off a session's merged length. */
  function Missed(events: seq<DocReadEvent>, session: string): nat {
    Shortfall(Sorted(events, session), |Sorted(events, session)|)
  }

  /** Never more than the distinct lines it covers, and less by what backward openers take off. */
  lemma SessionMeasures(events: seq<DocReadEvent>, session: string)
    ensures Merged(Ranges(events, session)) == |CoveredBy(events, session)| - Missed(events, session)
  {
    hide Merged, Union, CoveredBy, Ranges;
    RangesUnion(events, session);
    MergedMeasures(Ranges(events, session));
  }

  /** Lines of the document that no read of the session covers. */
  function Unread(target: DocTarget, events: seq<DocReadEvent>, session: string): set<int> {
    Lines(Interval(0, target.lines)) - CoveredBy(events, session)
  }

  /** Lines before the document's first that a negative offset asks for. */
  function BeforeDoc(events: seq<DocReadEvent>, session: string): set<int> {
    set x | x in CoveredBy(events, session) && x < 0
  }

  lemma Parts(covered: set<int>, doc: set<int>, before: set<int>)
    requires before !! doc && before <= covered <= before + doc
    ensures |covered| == |before| + |doc| - |doc - covered|
  {
    var inside := covered * doc;
    assert covered == before + inside && doc == inside + (doc - covered);
  }

  lemma InsideDoc(target: DocTarget, events: seq<DocReadEvent>, session: string)
    requires forall e :: e in events ==> ReadsDoc(target, e)
    ensures |CoveredBy(events, session)| == |BeforeDoc(events, session)| + target.lines - |Unread(target, events, session)|
  {
    hide ReadsDoc, RangeOf;
    var doc, covered := Lines(Interval(0, target.lines)), CoveredBy(events, session);
    forall x | x in covered
      ensures x < 0 || x in doc
    {
      var e :| e in events && e.session == session && x in Lines(RangeOf(e));
      ReadRange(target, e);
    }
    LinesCount(Interval(0, target.lines));
    hide CoveredBy;
    Parts(covered, doc, BeforeDoc(events, session));
  }

  /** Whatever offsets and limits its reads have: a session's merged length stays within the document if and only if
      the lines it asks for before the document are no more than the lines of the document it leaves unread and
      those that backward openers take off. */
  lemma SessionFitsIff(target: DocTarget, events: seq<DocReadEvent>, session: string)
    requires forall e :: e in events ==> ReadsDoc(target, e)
    ensures Merged(Ranges(events, session)) <= target.lines <==>
      |BeforeDoc(events, session)| <= |Unread(target, events, session)| + Missed(events, session)
  {
    hide Merged, CoveredBy, Ranges, BeforeDoc, Unread, Missed;
    SessionMeasures(events, session);
    InsideDoc(target, events, session);
  }

  /** However its reads overlap, a session whose offsets are not negative never exceeds the document. */
  lemma CoverageBounded(target: DocTarget, events: seq<DocReadEvent>, session: string)
    requires forall e :: e in events ==> ReadsDoc(target, e) && e.estimate.offsetLines >= 0
    ensures Merged(Ranges(events, session)) <= |CoveredBy(events, session)| <= target.lines
  {
    hide ReadsDoc, Merged, Ranges, Missed;
    SessionMeasures(events, session);
    InsideDoc(target, events, session);
    assert BeforeDoc(events, session) == {};
  }

  /** Two reads that each fit the document and together do not. */
  lemma TogetherTooLong()
    ensures var target := DocTarget("k", 10);
      var first, second := EstimateEvent(target, Some(-5), Some(10)), EstimateEvent(target, Some(0), Some(10));
      && first.coveredLines <= target.lines && second.coveredLines <= target.lines
      && Merged([RangeOf(DocReadEvent("k", "s", first)), RangeOf(DocReadEvent("k", "s", second))]) == 15
  {
    SortedStays(ByStart(), [Interval(-5, 5), Interval(0, 10)]);
  }

  /** No group of the session's sweep opens backwards. */
  ghost predicate NoBackwardOpener(events: seq<DocReadEvent>, session: string) {
    var sorted := Sorted(events, session);
    forall j :: 0 <= j < |sorted| && OpensGroup(sorted, j) ==> !Backward(sorted[j])
  }

  /** What the count means: it takes in only sessions that read at least four fifths of the lines, in whatever
      pieces, and all of them unless a sweep opens backwards. */
  lemma WholeMeansFourFifths(target: DocTarget, own: seq<DocReadEvent>)
    ensures WholeDocSessions(target, own) <= ReadersOfFourFifths(target, own)
    ensures (forall s :: s in Sessions(own) ==> NoBackwardOpener(own, s)) ==>
      WholeDocSessions(target, own) == ReadersOfFourFifths(target, own)
  {
    hide Merged, Ranges, CoveredBy, OpensGroup, Shortfall;
    forall s
      ensures Merged(Ranges(own, s)) == |CoveredBy(own, s)| - Missed(own, s)
      ensures NoBackwardOpener(own, s) ==> Missed(own, s) == 0
    {
      SessionMeasures(own, s);
      ShortfallZero(Sorted(own, s), |Sorted(own, s)|);
    }
  }

  /** Reads without negative limits are such. */
  lemma ForwardReads(own: seq<DocReadEvent>, session: string)
    requires Forward(own)
    ensures NoBackwardOpener(own, session)
  {
    hide OpensGroup, Ordered;
    RangesUnion(own, session);
    OrderedRanges(own, session);
  }

  lemma OrderedRanges(own: seq<DocReadEvent>, session: string)
    requires Ordered(Ranges(own, session))
    ensures forall j :: 0 <= j < |Sorted(own, session)| ==> !Backward(Sorted(own, session)[j])
  {
    UnionSorted(Ranges(own, session));
    var sorted := Sorted(own, session);
    assert forall j :: 0 <= j < |sorted| ==> sorted[j] in sorted;
  }

  // ----- the order of the events

  /** The count is the same for every order of the events, unless some session has a backward read that no earlier
      start reaches and that shares its start with a read that does not run backwards. */
  lemma SummaryOrderFree(target: DocTarget, events: seq<DocReadEvent>, events': seq<DocReadEvent>)
    requires multiset(events) == multiset(events')
    requires forall s, b, t :: !Tied(Ranges(Own(target, events), s), b, t)
    ensures WholeDocSessions(target, Own(target, events)) == WholeDocSessions(target, Own(target, events'))
  {
    hide Merged, Ranges, Tied, Filter;
    var keep := (e: DocReadEvent) => e.key == target.key;
    var own, own' := Own(target, events), Own(target, events');
    FilterPermutes(keep, events, events');
    SameSessions(own, own');
    forall s
      ensures Merged(Ranges(own', s)) == Merged(Ranges(own, s))
    {
      RangesPermute(own, own', s);
      OrderFreeIff(Ranges(own, s));
    }
  }

  lemma SameSessions(own: seq<DocReadEvent>, own': seq<DocReadEvent>)
    requires multiset(own) == multiset(own')
    ensures Sessions(own) == Sessions(own')
  {
    forall e
      ensures e in own <==> e in own'
    {
      assert e in own <==> e in multiset(own);
      assert e in own' <==> e in multiset(own');
    }
  }

  lemma {:induction false} RangesSplit(a: seq<DocReadEvent>, b: seq<DocReadEvent>, session: string)
    ensures Ranges(a + b, session) == Ranges(a, session) + Ranges(b, session)
  {
    if b == [] {
      assert a + b == a;
    } else {
      RangesSplit(a, b[..|b| - 1], session);
      assert (a + b)[..|a + b| - 1] == a + b[..|b| - 1];
    }
  }

  lemma RangesDrop(events: seq<DocReadEvent>, k: nat, session: string)
    requires k < |events|
    ensures var rest := events[..k] + events[k + 1..];
      && multiset(events) == multiset(rest) + multiset{events[k]}
      && multiset(Ranges(events, session)) == multiset(Ranges(rest, session)) + multiset(Ranges([events[k]], session))
  {
    var front, back := events[..k], events[k + 1..];
    DropMiddle(front, events[k], back);
    assert events == front + [events[k]] + back;
    RangesSplit(front, back, session);
    RangesSplit(front + [events[k]], back, session);
    RangesSplit(front, [events[k]], session);
  }

  lemma {:induction false} RangesPermute(a: seq<DocReadEvent>, b: seq<DocReadEvent>, session: string)
    requires multiset(a) == multiset(b)
    ensures multiset(Ranges(a, session)) == multiset(Ranges(b, session))
    decreases |a|
  {
    hide Ranges;
    if a == [] {
      assert |b| == |multiset(b)| == 0;
    } else {
      var n := |a| - 1;
      assert a[n] in multiset(b);
      var k :| 0 <= k < |b| && b[k] == a[n];
      RangesDrop(a, n, session);
      RangesDrop(b, k, session);
      DropBoth(a, b, n, k);
      RangesPermute(a[..n] + a[n + 1..], b[..k] + b[k + 1..], session);
    }
  }

  /** Every order of a session's ranges is that of some order of the events. */
  lemma {:induction false} Realised(events: seq<DocReadEvent>, session: string, order: seq<Interval>)
      returns (events': seq<DocReadEvent>)
    requires multiset(order) == multiset(Ranges(events, session))
    ensures multiset(events') == multiset(events) && Ranges(events', session) == order
    decreases |order|
  {
    if order == [] {
      assert |Ranges(events, session)| == |multiset(Ranges(events, session))| == 0;
      events' := events;
    } else {
      var n := |order| - 1;
      assert order[n] in multiset(Ranges(events, session));
      var k := RangeFrom(events, session, order[n]);
      RangesDrop(events, k, session);
      OneRange(events[k], session);
      DropLast(order);
      var rest := Realised(events[..k] + events[k + 1..], session, order[..n]);
      events' := rest + [events[k]];
      RangesSplit(rest, [events[k]], session);
      assert order == order[..n] + [order[n]];
    }
  }

  lemma OneRange(e: DocReadEvent, session: string)
    ensures Ranges([e], session) == if e.session == session then [RangeOf(e)] else []
  {
  }

  lemma {:induction false} RangeFrom(events: seq<DocReadEvent>, session: string, iv: Interval) returns (k: nat)
    requires iv in Ranges(events, session)
    ensures k < |events| && events[k].session == session && RangeOf(events[k]) == iv
  {
    var n := |events| - 1;
    if events[n].session == session && RangeOf(events[n]) == iv {
      k := n;
    } else {
      k := RangeFrom(events[..n], session, iv);
    }
  }

  /** A session's merged length is the same for every order of the events if and only if it has no such pair. */
  lemma SessionOrderFreeIff(events: seq<DocReadEvent>, session: string)
    ensures (forall events' :: multiset(events') == multiset(events) ==>
               Merged(Ranges(events', session)) == Merged(Ranges(events, session)))
      <==> (forall b, t :: !Tied(Ranges(events, session), b, t))
  {
    hide Merged, Ranges, Tied;
    OrderFreeIff(Ranges(events, session));
    if forall b, t :: !Tied(Ranges(events, session), b, t) {
      forall events' | multiset(events') == multiset(events)
        ensures Merged(Ranges(events', session)) == Merged(Ranges(events, session))
      {
        RangesPermute(events, events', session);
      }
    } else {
      var order :| multiset(order) == multiset(Ranges(events, session)) && Merged(order) != Merged(Ranges(events, session));
      var events' := Realised(events, session, order);
    }
  }
}
