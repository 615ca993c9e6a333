/** Read coverage in plain terms: the lines one read covers, the calls counted for a document, and the sessions counted
    as having read it. */
module ReadMeaning {
  import opened Prelude
  import opened Sorting
  import opened Intervals
  import opened DocReads

  /** A read covers the lines from its offset on, two thousand of them where no limit is given, that the document has; it
      is sliced exactly when it has an offset or a limit. */
  lemma ReadCovers(target: DocTarget, offset: Option<int>, limit: Option<int>, e: DocReadEvent)
    requires e.estimate == EstimateEvent(target, offset, limit)
    ensures e.estimate.sliced <==> offset != None || limit != None
    ensures var first := if offset == None then 0 else offset.value; var asked := if limit == None then 2_000 else limit.value;
      && (forall x :: x in Lines(RangeOf(e)) <==> first <= x < first + asked && x < target.lines)
      && RangeOf(e).lo == first
      && e.estimate.coveredLines == if asked < 0 then asked else |Lines(RangeOf(e))|
  {
    LinesCount(RangeOf(e));
  }

  /** The calls for the document with, or without, an offset or limit. */
  function CallsFor(key: string, sliced: bool, events: seq<DocReadEvent>): set<nat> {
    set i: nat | i < |events| && events[i].key == key && events[i].estimate.sliced == sliced
  }

  /** The lines the session's reads of the document cover. */
  function LinesRead(key: string, session: string, events: seq<DocReadEvent>): set<int> {
    set i: nat, x | i < |events| && events[i].key == key && events[i].session == session && x in Lines(RangeOf(events[i])) :: x
  }

  lemma OneCall(key: string, sliced: bool, events: seq<DocReadEvent>)
    requires events != []
    ensures var n := |events| - 1; var before := CallsFor(key, sliced, events[..n]);
      && n !in before
      && CallsFor(key, sliced, events) == if events[n].key == key && events[n].estimate.sliced == sliced then before + {n} else before
  {
  }

  lemma {:induction false} CallsCounted(target: DocTarget, keep: DocReadEvent -> bool, sliced: bool, events: seq<DocReadEvent>)
    requires forall e :: keep(e) <==> e.estimate.sliced == sliced
    ensures |Filter(keep, Own(target, events))| == |CallsFor(target.key, sliced, events)|
  {
    hide CallsFor, Filter, Own;
    if events == [] {
      NoCalls(target, keep, sliced);
    } else {
      var n := |events| - 1;
      CallsCounted(target, keep, sliced, events[..n]);
      OneCall(target.key, sliced, events);
      OwnGrows(target, events);
      FilterAppend(keep, Own(target, events[..n]), events[n]);
      assert Own(target, events[..n]) + [] == Own(target, events[..n]);
    }
  }

  lemma OwnGrows(target: DocTarget, events: seq<DocReadEvent>)
    requires events != []
    ensures var n := |events| - 1;
      Own(target, events) == Own(target, events[..n]) + if events[n].key == target.key then [events[n]] else []
  {
  }

  lemma NoCalls(target: DocTarget, keep: DocReadEvent -> bool, sliced: bool)
    ensures Filter(keep, Own(target, [])) == [] && CallsFor(target.key, sliced, []) == {}
  {
  }

  lemma OwnAre(target: DocTarget, events: seq<DocReadEvent>)
    ensures forall e :: e in Own(target, events) <==> e in events && e.key == target.key
  {
    FilterMembers((e: DocReadEvent) => e.key == target.key, events);
  }

  lemma CoveredAreRead(target: DocTarget, events: seq<DocReadEvent>, session: string)
    ensures CoveredBy(Own(target, events), session) == LinesRead(target.key, session, events)
  {
    hide Own, RangeOf, Lines;
    OwnAre(target, events);
    forall x | x in CoveredBy(Own(target, events), session)
      ensures x in LinesRead(target.key, session, events)
    {
      var e :| e in Own(target, events) && e.session == session && x in Lines(RangeOf(e));
      var i :| 0 <= i < |events| && events[i] == e;
    }
    forall x | x in LinesRead(target.key, session, events)
      ensures x in CoveredBy(Own(target, events), session)
    {
      var i: nat :| i < |events| && events[i].key == target.key && events[i].session == session && x in Lines(RangeOf(events[i]));
      assert events[i] in Own(target, events);
    }
  }

  /** What a summary counts: each call for the document once, by whether it was sliced; and sessions of which each has
      read at least four fifths of the lines. Where no read asks for a negative number of lines these are all such
      sessions. */
  lemma SummaryMeans(target: DocTarget, events: seq<DocReadEvent>)
    ensures var own := Own(target, events);
      && |Filter((e: DocReadEvent) => e.estimate.sliced, own)| == |CallsFor(target.key, true, events)|
      && |Filter((e: DocReadEvent) => !e.estimate.sliced, own)| == |CallsFor(target.key, false, events)|
      && (forall s :: s in WholeDocSessions(target, own) ==> 4 * target.lines <= 5 * |LinesRead(target.key, s, events)|)
      && ((forall e :: e in events ==> e.estimate.coveredLines >= 0) ==>
            forall s :: s in WholeDocSessions(target, own) <==>
              s in Sessions(own) && 4 * target.lines <= 5 * |LinesRead(target.key, s, events)|)
  {
    hide Own, LinesRead, CallsFor, CoveredBy, WholeDocSessions, Sessions, Filter;
    var own := Own(target, events);
    CallsCounted(target, (e: DocReadEvent) => e.estimate.sliced, true, events);
    CallsCounted(target, (e: DocReadEvent) => !e.estimate.sliced, false, events);
    WholeMeansFourFifths(target, own);
    OwnAre(target, events);
    forall s
      ensures CoveredBy(own, s) == LinesRead(target.key, s, events)
      ensures (forall e :: e in events ==> e.estimate.coveredLines >= 0) ==> NoBackwardOpener(own, s)
    {
      CoveredAreRead(target, events, s);
      if forall e :: e in events ==> e.estimate.coveredLines >= 0 {
        ForwardReads(own, s);
      }
    }
    CountedIn(target, own);
  }

  lemma CountedIn(target: DocTarget, own: seq<DocReadEvent>)
    ensures WholeDocSessions(target, own) <= Sessions(own)
    ensures forall s :: s in ReadersOfFourFifths(target, own) <==> s in Sessions(own) && 4 * target.lines <= 5 * |CoveredBy(own, s)|
  {
    hide CoveredBy, Merged;
  }
}
