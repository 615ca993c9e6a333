/** Building the reverse index from import lists (`buildImportedBy`), and the variables of the running watcher. */
module ReverseIndex {
  import opened Prelude
  import opened Sorting
  import opened Watcher

  type ImportLists = map<Path, seq<Path>>

  function Occurrences(entries: ImportLists, p: Path, q: Path): nat {
    if p in entries then multiset(entries[p])[q] else 0
  }

  function Named(entries: ImportLists): set<Path> {
    entries.Keys + set p, q | p in entries && q in entries[p] :: q
  }

  function Counted(lists: ImportLists, q: Path, s: Path): nat {
    if q in lists then multiset(lists[q])[s] else 0
  }

  method BuildImportedBy(leq: (Path, Path) -> bool, entries: ImportLists) returns (importedBy: ImportLists)
    requires TotalPreorder(leq)
    ensures importedBy.Keys == Named(entries)
    ensures forall q :: q in importedBy ==> SortedBy(leq, importedBy[q])
    ensures forall q, p :: q in importedBy ==> Counted(importedBy, q, p) == Occurrences(entries, p, q)
  {
    importedBy := map q | q in entries :: [];
    var todo := entries.Keys;
    while todo != {}
      invariant todo <= entries.Keys
      invariant importedBy.Keys == entries.Keys + set p, q | p in entries.Keys - todo && q in entries[p] :: q
      invariant forall q, s :: q in importedBy ==>
        Counted(importedBy, q, s) == if s in todo then 0 else Occurrences(entries, s, q)
      decreases todo
    {
      var p :| p in todo;
      var before := importedBy;
      importedBy := AddImports(importedBy, p, entries[p]);
      forall q, s | q in importedBy
        ensures Counted(importedBy, q, s) == if s in todo - {p} then 0 else Occurrences(entries, s, q)
      {
        NotYet(before, entries, todo, p, q);
      }
      todo := todo - {p};
    }
    importedBy := SortLists(leq, importedBy);
  }

  lemma NotYet(lists: ImportLists, entries: ImportLists, todo: set<Path>, p: Path, q: Path)
    requires p in todo && todo <= entries.Keys
    requires lists.Keys == entries.Keys + set p, q | p in entries.Keys - todo && q in entries[p] :: q
    ensures forall s :: s !in todo && Occurrences(entries, s, q) > 0 ==> q in lists
  {
    forall s | s !in todo && Occurrences(entries, s, q) > 0
      ensures q in lists
    {
      assert s in entries.Keys - todo && q in entries[s];
    }
  }

  /** One `push`, after making the list if there is none. */
  function Pushed(lists: ImportLists, imp: Path, p: Path): ImportLists {
    lists[imp := (if imp in lists then lists[imp] else []) + [p]]
  }

  lemma PushCounts(lists: ImportLists, imp: Path, p: Path)
    ensures Pushed(lists, imp, p).Keys == lists.Keys + {imp}
    ensures forall q, s :: Counted(Pushed(lists, imp, p), q, s) == Counted(lists, q, s) + if q == imp && s == p then 1 else 0
  {
  }

  function Members(imports: seq<Path>): set<Path> {
    set q | q in imports
  }

  lemma CountAppend(imports: seq<Path>, i: nat)
    requires i < |imports|
    ensures forall q :: multiset(imports[..i + 1])[q] == multiset(imports[..i])[q] + if q == imports[i] then 1 else 0
    ensures Members(imports[..i + 1]) == Members(imports[..i]) + {imports[i]}
  {
    assert imports[..i + 1] == imports[..i] + [imports[i]];
  }

  /** Record `p` under each file it imports. */
  method AddImports(lists: ImportLists, p: Path, imports: seq<Path>) returns (lists': ImportLists)
    ensures lists'.Keys == lists.Keys + Members(imports)
    ensures forall q, s :: Counted(lists', q, s) == Counted(lists, q, s) + if s == p then multiset(imports)[q] else 0
  {
    lists' := lists;
    for i := 0 to |imports|
      invariant lists'.Keys == lists.Keys + Members(imports[..i])
      invariant forall q, s :: Counted(lists', q, s) == Counted(lists, q, s) + if s == p then multiset(imports[..i])[q] else 0
    {
      var imp := imports[i];
      ghost var before := lists';
      if imp !in lists' {
        lists' := lists'[imp := []];
      }
      lists' := lists'[imp := lists'[imp] + [p]];
      assert lists' == Pushed(before, imp, p);
      PushStep(lists, before, p, imports, i);
    }
    assert imports[..|imports|] == imports;
  }

  lemma PushStep(start: ImportLists, lists: ImportLists, p: Path, imports: seq<Path>, i: nat)
    requires i < |imports| && lists.Keys == start.Keys + Members(imports[..i])
    requires forall q, s :: Counted(lists, q, s) == Counted(start, q, s) + if s == p then multiset(imports[..i])[q] else 0
    ensures var lists' := Pushed(lists, imports[i], p);
      lists'.Keys == start.Keys + Members(imports[..i + 1])
      && forall q, s :: Counted(lists', q, s) == Counted(start, q, s) + if s == p then multiset(imports[..i + 1])[q] else 0
  {
    hide Counted, Pushed, Members;
    PushCounts(lists, imports[i], p);
    CountAppend(imports, i);
  }

  method SortLists(leq: (Path, Path) -> bool, lists: ImportLists) returns (sorted: ImportLists)
    requires TotalPreorder(leq)
    ensures sorted.Keys == lists.Keys
    ensures forall q :: q in sorted ==> SortedBy(leq, sorted[q]) && multiset(sorted[q]) == multiset(lists[q])
  {
    sorted := lists;
    var todo := lists.Keys;
    while todo != {}
      invariant todo <= lists.Keys == sorted.Keys
      invariant forall q :: q in sorted ==> multiset(sorted[q]) == multiset(lists[q])
      invariant forall q :: q in sorted && q !in todo ==> SortedBy(leq, sorted[q])
      decreases todo
    {
      var q :| q in todo;
      SortPermutes(leq, sorted[q]);
      SortSorts(leq, sorted[q]);
      sorted := sorted[q := Sort(leq, sorted[q])];
      todo := todo - {q};
    }
  }

  /** The lists hold what the reverse index of the model holds; no file is listed twice if none imports twice. */
  lemma ListsAreImporters(cache: Cache, entries: ImportLists, importedBy: ImportLists, q: Path)
    requires cache.Keys == entries.Keys && forall p :: p in cache ==> Members(entries[p]) == cache[p].imports
    requires q in importedBy && forall p :: Counted(importedBy, q, p) == Occurrences(entries, p, q)
    ensures Members(importedBy[q]) == Importers(cache, q)
    ensures (forall p :: p in entries ==> Distinct(entries[p])) ==> Distinct(importedBy[q])
  {
    forall p
      ensures p in importedBy[q] <==> p in entries && q in entries[p]
    {
      assert p in importedBy[q] <==> multiset(importedBy[q])[p] > 0;
      assert multiset(importedBy[q])[p] == Counted(importedBy, q, p) == Occurrences(entries, p, q);
      assert p in entries ==> (q in entries[p] <==> multiset(entries[p])[q] > 0);
    }
    forall p | p in cache
      ensures q in cache[p].imports <==> q in entries[p]
    {
      assert q in Members(entries[p]) <==> q in entries[p];
    }
    if forall p :: p in entries ==> Distinct(entries[p]) {
      OnceEach(entries, importedBy[q], q);
    }
  }

  lemma OnceEach(entries: ImportLists, list: seq<Path>, q: Path)
    requires forall p :: multiset(list)[p] == Occurrences(entries, p, q)
    requires forall p :: p in entries ==> Distinct(entries[p])
    ensures Distinct(list)
  {
    forall i, j | 0 <= i < j < |list|
      ensures list[i] != list[j]
    {
      RepeatCounts(list, i, j);
      if list[j] in entries {
        DistinctCounts(entries[list[j]]);
      }
    }
  }

  /** The variables `runWatcher` closes over. */
  class Variables {
    var cache: Cache
    var knownFiles: set<Path>
    var pending: set<Path>
    var timers: set<nat>
    var nextTimer: nat
    var debounceTimer: Option<nat>
    var isProcessing: bool

    /** The same as a state of the model; a running drain knows its own batch. */
    function View(phase: Phase): State
      reads this
    {
      State(cache, knownFiles, pending, timers, nextTimer, debounceTimer, phase)
    }

    method SetTimer()
      modifies this`timers, this`nextTimer, this`debounceTimer
      ensures forall phase :: View(phase) == Arm(old(View(phase)))
    {
      timers, debounceTimer, nextTimer := timers + {nextTimer}, Some(nextTimer), nextTimer + 1;
    }

    method ScheduleFile(relPath: Path)
      modifies this
      ensures forall phase :: View(phase) == Schedule(old(View(phase)), relPath)
      ensures isProcessing == old(isProcessing)
    {
      pending := pending + {relPath};
      if debounceTimer.Some? {
        timers := timers - {debounceTimer.value};
      }
      SetTimer();
    }

    /** The part of `drain` before its first await; `batch` is the pending set as an array. */
    method EnterDrain(batch: seq<Path>) returns (phase: Phase)
      requires |batch| == |pending| && forall p :: p in batch <==> p in pending
      modifies this
      ensures old(isProcessing) ==> isProcessing && forall ph :: View(ph) == old(View(ph))
      ensures !old(isProcessing) ==> View(phase) == StartDrain(old(View(Idle)), batch) && isProcessing == phase.Working?
    {
      phase := Idle;
      if isProcessing {
        return;
      }
      if debounceTimer.Some? {
        timers := timers - {debounceTimer.value};
        debounceTimer := None;
      }
      pending := {};
      if |batch| == 0 {
        return;
      }
      isProcessing := true;
      phase := Working(batch, None, false);
    }

    /** What the loop does with the first path of its batch once the file has been looked at. */
    method UpdateFile(resolve: Resolver, relPath: Path, rest: seq<Path>, seen: Seen, changed: bool) returns (changed': bool)
      modifies this`cache, this`knownFiles
      ensures View(Working(rest, None, changed')) == Settle(resolve, old(View(Working([relPath] + rest, Some(seen), changed))))
    {
      changed' := changed;
      assert ([relPath] + rest)[1..] == rest;
      if seen.Absent? {
        if relPath in cache {
          cache, knownFiles := cache - {relPath}, knownFiles - {relPath};
          changed' := true;
        }
        return;
      }
      knownFiles := knownFiles + {relPath};
      if seen.Unreadable? {
        return;
      }
      if relPath in cache && cache[relPath].sha256 == seen.hash {
        return;
      }
      var importedBy := if relPath in cache then cache[relPath].importedBy else {};
      cache := cache[relPath := Entry(seen.hash, resolve(relPath, seen.hash, knownFiles), importedBy)];
      changed' := true;
    }

    method LeaveDrain()
      modifies this
      ensures View(Idle) == EndDrain(old(View(Idle))) && !isProcessing
    {
      isProcessing := false;
      if pending != {} {
        SetTimer();
      }
    }
  }
}
