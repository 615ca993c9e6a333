/** The code-graph watcher: file events, debounce timers, the drain of pending paths, and the reverse index.
    Each segment of the program between two awaits is one step; segments of a drain interleave with events. */
module Watcher {
  import opened Prelude

  type Path = string

  datatype Entry = Entry(sha256: string, imports: set<Path>, importedBy: set<Path>)

  type Cache = map<Path, Entry>

  /** What a look at a path found: no file, a file that could not be read, or content of some hash. */
  datatype Seen = Absent | Unreadable | Content(hash: string)

  /** `Working` is the loop over a batch; `seen` is set between the look at its first path and the update. */
  datatype Phase = Idle | Working(todo: seq<Path>, seen: Option<Seen>, changed: bool) | Flushing

  datatype State = State(
    cache: Cache,
    known: set<Path>,
    pending: set<Path>,
    timers: set<nat>,
    nextTimer: nat,
    debounce: Option<nat>,
    phase: Phase)

  /** Import resolution: content and the known files give the files imported. */
  type Resolver = (Path, string, set<Path>) -> set<Path>

  // ----- timers

  function ClearDebounce(w: State): State {
    if w.debounce.Some? then w.(timers := w.timers - {w.debounce.value}) else w
  }

  function Arm(w: State): State {
    w.(timers := w.timers + {w.nextTimer}, debounce := Some(w.nextTimer), nextTimer := w.nextTimer + 1)
  }

  function Schedule(w: State, p: Path): State {
    Arm(ClearDebounce(w.(pending := w.pending + {p})))
  }

  // ----- the drain

  /** `batch` is the pending set as an array. */
  function StartDrain(w: State, batch: seq<Path>): State {
    if !w.phase.Idle? then w
    else
      var cleared := ClearDebounce(w).(debounce := None, pending := {});
      if batch == [] then cleared else cleared.(phase := Working(batch, None, false))
  }

  function Look(w: State, seen: Seen): State
    requires w.phase.Working?
  {
    w.(phase := w.phase.(seen := Some(seen)))
  }

  function Next(w: State, changed: bool): State
    requires w.phase.Working? && w.phase.todo != []
  {
    w.(phase := Working(w.phase.todo[1..], None, changed))
  }

  function Settle(resolve: Resolver, w: State): State
    requires w.phase.Working? && w.phase.todo != [] && w.phase.seen.Some?
  {
    var p := w.phase.todo[0];
    match w.phase.seen.value
    case Absent =>
      if p in w.cache then Next(w, true).(cache := w.cache - {p}, known := w.known - {p}) else Next(w, w.phase.changed)
    case Unreadable => Next(w, w.phase.changed).(known := w.known + {p})
    case Content(hash) =>
      var known := w.known + {p};
      if p in w.cache && w.cache[p].sha256 == hash then Next(w, w.phase.changed).(known := known)
      else
        var importedBy := if p in w.cache then w.cache[p].importedBy else {};
        Next(w, true).(known := known, cache := w.cache[p := Entry(hash, resolve(p, hash, known), importedBy)])
  }

  function Importers(cache: Cache, q: Path): set<Path> {
    set p | p in cache && q in cache[p].imports
  }

  function Reindexed(cache: Cache): Cache {
    map q | q in cache :: cache[q].(importedBy := Importers(cache, q))
  }

  /** The `finally` block. */
  function EndDrain(w: State): State {
    var idle := w.(phase := Idle);
    if w.pending != {} then Arm(idle) else idle
  }

  function CloseBatch(w: State): State
    requires w.phase.Working?
  {
    if w.phase.changed then w.(cache := Reindexed(w.cache), phase := Flushing) else EndDrain(w)
  }

  // ----- the world around it

  /** `undelivered`: changes of files the watcher has not been told of yet. `excused`: paths whose last look
      could not read the file, or that were out of date before the watcher started. */
  datatype World = World(w: State, disk: map<Path, string>, undelivered: set<Path>, excused: set<Path>)

  datatype Event =
    | Edit(path: Path, content: Option<string>)
    | Notify(path: Path)
    | Fire(timer: nat, batch: seq<Path>)
    | LookAt(readable: bool)
    | Update
    | Close
    | Flushed

  predicate Internal(e: Event) {
    !e.Edit? && !e.Notify?
  }

  ghost predicate Enabled(v: World, e: Event) {
    match e
    case Edit(_, _) => true
    case Notify(p) => p in v.undelivered
    case Fire(t, batch) => t in v.w.timers && |batch| == |v.w.pending| && (forall p :: p in batch <==> p in v.w.pending)
    case LookAt(_) => v.w.phase.Working? && v.w.phase.todo != [] && v.w.phase.seen.None?
    case Update => v.w.phase.Working? && v.w.phase.todo != [] && v.w.phase.seen.Some?
    case Close => v.w.phase.Working? && v.w.phase.todo == []
    case Flushed => v.w.phase.Flushing?
  }

  function SeenNow(v: World, p: Path, readable: bool): Seen {
    if !readable then Unreadable else if p in v.disk then Content(v.disk[p]) else Absent
  }

  ghost function Apply(resolve: Resolver, v: World, e: Event): World
    requires Enabled(v, e)
  {
    match e
    case Edit(p, content) =>
      v.(disk := if content.Some? then v.disk[p := content.value] else v.disk - {p}, undelivered := v.undelivered + {p})
    case Notify(p) => v.(undelivered := v.undelivered - {p}, w := Schedule(v.w, p))
    case Fire(t, batch) => v.(w := StartDrain(v.w.(timers := v.w.timers - {t}), batch))
    case LookAt(readable) =>
      var p := v.w.phase.todo[0];
      v.(w := Look(v.w, SeenNow(v, p, readable)), excused := if readable then v.excused - {p} else v.excused + {p})
    case Update => v.(w := Settle(resolve, v.w))
    case Close => v.(w := CloseBatch(v.w))
    case Flushed => v.(w := EndDrain(v.w))
  }

  // ----- invariants

  ghost predicate TimerInv(w: State) {
    w.phase.Idle? && w.pending != {} ==> w.debounce.Some? && w.debounce.value in w.timers
  }

  ghost predicate IndexExact(cache: Cache) {
    forall q :: q in cache ==> cache[q].importedBy == Importers(cache, q)
  }

  ghost predicate IndexInv(w: State) {
    (w.phase.Working? && w.phase.changed) || IndexExact(w.cache)
  }

  predicate Matches(cache: Cache, disk: map<Path, string>, p: Path) {
    if p in disk then p in cache && cache[p].sha256 == disk[p] else p !in cache
  }

  predicate SeenIsCurrent(v: World, p: Path, seen: Seen) {
    match seen
    case Absent => p !in v.disk
    case Unreadable => false
    case Content(hash) => p in v.disk && v.disk[p] == hash
  }

  /** The running drain will still bring `p` up to date. */
  predicate InBatch(v: World, p: Path) {
    && v.w.phase.Working? && v.w.phase.todo != []
    && if v.w.phase.seen.None? then p in v.w.phase.todo
       else p in v.w.phase.todo[1..] || (p == v.w.phase.todo[0] && SeenIsCurrent(v, p, v.w.phase.seen.value))
  }

  predicate Accounted(v: World, p: Path) {
    p in v.excused || p in v.undelivered || p in v.w.pending || InBatch(v, p) || Matches(v.w.cache, v.disk, p)
  }

  ghost predicate FreshInv(v: World) {
    forall p: Path :: Accounted(v, p)
  }

  /** What was seen of the file being updated is still so, or its change is on the way. */
  predicate LookInv(v: World) {
    v.w.phase.Working? && v.w.phase.todo != [] && v.w.phase.seen.Some? && !v.w.phase.seen.value.Unreadable? ==>
      var p := v.w.phase.todo[0];
      SeenIsCurrent(v, p, v.w.phase.seen.value) || p in v.undelivered || p in v.w.pending
  }

  ghost predicate Inv(v: World) {
    TimerInv(v.w) && IndexInv(v.w) && LookInv(v) && FreshInv(v)
  }

  // ----- each step keeps them

  lemma TimerStep(resolve: Resolver, v: World, e: Event)
    requires Enabled(v, e) && TimerInv(v.w)
    ensures TimerInv(Apply(resolve, v, e).w)
  {
  }

  lemma IndexStep(resolve: Resolver, v: World, e: Event)
    requires Enabled(v, e) && IndexInv(v.w)
    ensures IndexInv(Apply(resolve, v, e).w)
  {
    hide Importers, SeenNow;
    if e.Close? {
      ReindexedIsExact(v.w.cache);
    }
  }

  lemma ReindexedIsExact(cache: Cache)
    ensures IndexExact(Reindexed(cache))
    ensures forall p, d :: Matches(Reindexed(cache), d, p) == Matches(cache, d, p)
  {
    var r := Reindexed(cache);
    forall q | q in r
      ensures r[q].importedBy == Importers(r, q)
    {
    }
  }

  lemma LookStep(resolve: Resolver, v: World, e: Event)
    requires Enabled(v, e) && LookInv(v)
    ensures LookInv(Apply(resolve, v, e))
  {
  }

  lemma EditStep(resolve: Resolver, v: World, e: Event, p: Path)
    requires Enabled(v, e) && (e.Edit? || e.Notify?) && Accounted(v, p)
    ensures Accounted(Apply(resolve, v, e), p)
  {
  }

  lemma DrainStep(resolve: Resolver, v: World, e: Event, p: Path)
    requires Enabled(v, e) && (e.Fire? || e.LookAt?) && Accounted(v, p)
    ensures Accounted(Apply(resolve, v, e), p)
  {
    if e.LookAt? {
      var todo := v.w.phase.todo;
      assert todo == [todo[0]] + todo[1..];
    }
  }

  lemma UpdateStep(resolve: Resolver, v: World, e: Event, p: Path)
    requires Enabled(v, e) && e.Update? && Accounted(v, p) && LookInv(v)
    ensures Accounted(Apply(resolve, v, e), p)
  {
    var todo := v.w.phase.todo;
    assert todo == [todo[0]] + todo[1..];
  }

  lemma CloseStep(resolve: Resolver, v: World, e: Event, p: Path)
    requires Enabled(v, e) && (e.Close? || e.Flushed?) && Accounted(v, p)
    ensures Accounted(Apply(resolve, v, e), p)
  {
    ReindexedIsExact(v.w.cache);
  }

  lemma StepInv(resolve: Resolver, v: World, e: Event)
    requires Enabled(v, e) && Inv(v)
    ensures Inv(Apply(resolve, v, e))
  {
    hide TimerInv, IndexInv, LookInv, Accounted, Apply, Enabled;
    TimerStep(resolve, v, e);
    LookStep(resolve, v, e);
    IndexStep(resolve, v, e);
    forall p: Path
      ensures Accounted(Apply(resolve, v, e), p)
    {
      match e
      case Edit(_, _) => EditStep(resolve, v, e, p);
      case Notify(_) => EditStep(resolve, v, e, p);
      case Fire(_, _) => DrainStep(resolve, v, e, p);
      case LookAt(_) => DrainStep(resolve, v, e, p);
      case Update => UpdateStep(resolve, v, e, p);
      case Close => CloseStep(resolve, v, e, p);
      case Flushed => CloseStep(resolve, v, e, p);
    }
  }

  ghost predicate Moves(resolve: Resolver, v: World, v': World) {
    exists e :: Enabled(v, e) && v' == Apply(resolve, v, e)
  }

  /** The watcher starts on a cache whose reverse index is right; paths it has out of date are excused. */
  ghost predicate Starts(v: World) {
    && v.w.pending == {} && v.w.phase.Idle? && IndexExact(v.w.cache)
    && forall p: Path :: p in v.excused || p in v.undelivered || Matches(v.w.cache, v.disk, p)
  }

  ghost predicate IsRun(resolve: Resolver, run: seq<World>) {
    |run| > 0 && Starts(run[0]) && forall i :: 0 < i < |run| ==> Moves(resolve, run[i - 1], run[i])
  }

  lemma {:induction false} RunInv(resolve: Resolver, run: seq<World>, n: nat)
    requires IsRun(resolve, run) && n < |run|
    ensures Inv(run[n])
  {
    hide TimerInv, IndexInv, Apply, Enabled, FreshInv, IndexExact;
    if n == 0 {
      StartInv(run[0]);
    } else {
      RunInv(resolve, run, n - 1);
      assert Moves(resolve, run[n - 1], run[n]);
      var e :| Enabled(run[n - 1], e) && run[n] == Apply(resolve, run[n - 1], e);
      StepInv(resolve, run[n - 1], e);
    }
  }

  lemma StartInv(v: World)
    requires Starts(v)
    ensures Inv(v)
  {
  }

  // ----- what a reader of the watcher can rely on

  /** Pending work is never forgotten: there is an armed timer or a running drain. */
  lemma PendingIsServed(resolve: Resolver, run: seq<World>, n: nat)
    requires IsRun(resolve, run) && n < |run| && run[n].w.pending != {}
    ensures run[n].w.timers != {} || !run[n].w.phase.Idle?
  {
    RunInv(resolve, run, n);
  }

  /** Between drains, and while one is being flushed, the reverse index is exact. */
  lemma IndexBetweenDrains(resolve: Resolver, run: seq<World>, n: nat, p: Path, q: Path)
    requires IsRun(resolve, run) && n < |run| && !run[n].w.phase.Working? && p in run[n].w.cache && q in run[n].w.cache
    ensures p in run[n].w.cache[q].importedBy <==> q in run[n].w.cache[p].imports
  {
    RunInv(resolve, run, n);
  }

  /** With nothing pending, running or undelivered, the cache agrees with the disk, however edits, events and
      drains were interleaved; only unreadable files are excused. */
  lemma QuietMeansFresh(resolve: Resolver, run: seq<World>, n: nat, p: Path)
    requires IsRun(resolve, run) && n < |run|
    requires run[n].w.phase.Idle? && run[n].w.pending == {} && run[n].undelivered == {} && p !in run[n].excused
    ensures Matches(run[n].w.cache, run[n].disk, p)
  {
    RunInv(resolve, run, n);
    assert Accounted(run[n], p);
  }

  function PhaseWork(phase: Phase): nat {
    match phase
    case Idle => 0
    case Flushing => 2
    case Working(todo, seen, _) => if todo != [] && seen.Some? then 2 + 2 * |todo| else 3 + 2 * |todo|
  }

  function Work(w: State): nat {
    6 * |w.pending| + PhaseWork(w.phase) + |w.timers|
  }

  lemma Fewer(timers: set<nat>, t: nat)
    requires t in timers
    ensures |timers - {t}| == |timers| - 1
  {
  }

  lemma ClearedAtMost(w: State)
    ensures |ClearDebounce(w).timers| <= |w.timers|
  {
    if w.debounce.Some? {
      if w.debounce.value in w.timers {
        Fewer(w.timers, w.debounce.value);
      } else {
        assert w.timers - {w.debounce.value} == w.timers;
      }
    }
  }

  lemma ArmedAtMost(w: State)
    ensures |Arm(w).timers| <= |w.timers| + 1
  {
  }

  /** Without new events every step leaves less to do. */
  lemma WorkDecreases(resolve: Resolver, v: World, e: Event)
    requires Enabled(v, e) && Internal(e)
    ensures Work(Apply(resolve, v, e).w) < Work(v.w)
  {
    hide Settle;
    match e
    case Fire(t, batch) =>
      Fewer(v.w.timers, t);
      ClearedAtMost(v.w.(timers := v.w.timers - {t}));
    case Update => SettleWork(resolve, v.w);
    case Close => ArmedAtMost(v.w.(phase := Idle));
    case Flushed => ArmedAtMost(v.w.(phase := Idle));
    case LookAt(_) =>
  }

  lemma SettleWork(resolve: Resolver, w: State)
    requires w.phase.Working? && w.phase.todo != [] && w.phase.seen.Some?
    ensures Work(Settle(resolve, w)) < Work(w)
  {
  }

  /** Left alone, the watcher takes at most `Work` further steps. */
  lemma {:induction false} SettlesDown(resolve: Resolver, run: seq<World>, events: seq<Event>)
    requires |run| == |events| + 1
    requires forall i :: 0 <= i < |events| ==> Internal(events[i]) && Enabled(run[i], events[i]) && run[i + 1] == Apply(resolve, run[i], events[i])
    ensures |events| <= Work(run[0].w) - Work(run[|events|].w)
  {
    hide Work, Apply, Enabled;
    if events != [] {
      var n := |events| - 1;
      SettlesDown(resolve, run[..n + 1], events[..n]);
      WorkDecreases(resolve, run[n], events[n]);
    }
  }

  /** And where it stops, nothing is pending. */
  lemma StopsOnlyWhenDone(resolve: Resolver, run: seq<World>, n: nat)
    requires IsRun(resolve, run) && n < |run|
    requires forall e :: Internal(e) ==> !Enabled(run[n], e)
    ensures run[n].w.phase.Idle? && run[n].w.pending == {}
  {
    hide IsRun;
    RunInv(resolve, run, n);
    var v := run[n];
    assert !Enabled(v, Flushed) && !Enabled(v, Close) && !Enabled(v, Update) && !Enabled(v, LookAt(true));
    if v.w.pending != {} {
      var batch := AsArray(v.w.pending);
      CanFire(v, batch);
    }
  }

  lemma CanFire(v: World, batch: seq<Path>)
    requires TimerInv(v.w) && v.w.phase.Idle? && v.w.pending != {}
    requires |batch| == |v.w.pending| && forall p :: p in batch <==> p in v.w.pending
    ensures Enabled(v, Fire(v.w.debounce.value, batch))
  {
  }

  lemma {:induction false} AsArray(s: set<Path>) returns (a: seq<Path>)
    ensures |a| == |s| && forall p :: p in a <==> p in s
  {
    if s == {} {
      a := [];
    } else {
      var p :| p in s;
      a := AsArray(s - {p});
      a := a + [p];
    }
  }
}
