/** Processes sharing the workspace lock and `fixes.json`. Acquire is one step; every other step of a
    process may be interleaved with any step of another, and a process may die at any point. */
module LockProtocol {
  import opened Prelude
  import opened Locks

  /** `FixEntry`, of which only equality matters here. */
  datatype FixEntry = FixEntry(issueUrl: string, status: string)

  type Fixes = map<string, FixEntry>

  /** A call of `upsertFix`. */
  datatype Upsert = Upsert(fingerprint: string, update: Option<FixEntry> -> FixEntry)

  function Upserted(fixes: Fixes, u: Upsert): Fixes {
    var existing := if u.fingerprint in fixes then Some(fixes[u.fingerprint]) else None;
    fixes[u.fingerprint := u.update(existing)]
  }

  /** `data` is the file as the holder read it, from its read to its write. */
  datatype Handle = Handle(proc: nat, record: Record, released: bool, job: Upsert, data: Option<Fixes>)

  /** `log` lists the completed writes: whose handle, and what it did. */
  datatype World = World(
    lock: Option<Content>,
    handles: seq<Handle>,
    alive: set<nat>,
    now: int,
    fixes: Fixes,
    log: seq<(nat, Upsert)>)

  datatype Event =
    | Tick(time: int)
    | Acquire(proc: nat, job: Upsert, liveness: Liveness)
    | Refresh(handle: nat, works: bool)
    | Read(handle: nat)
    | Write(handle: nat)
    | Release(handle: nat)
    | Spawn(proc: nat)
    | Die(proc: nat)

  predicate Live(w: World, h: nat) {
    h < |w.handles| && !w.handles[h].released && w.handles[h].proc in w.alive
  }

  /** The probe says `Dead` only of a pid no living process has. */
  ghost predicate Truthful(pidOf: nat -> nat, w: World, liveness: Liveness) {
    liveness == Dead && w.lock.Some? && w.lock.value.Held? ==>
      forall p :: p in w.alive ==> pidOf(p) != w.lock.value.record.pid
  }

  /** While somebody holds the lock, the recorded heartbeat never grows stale. */
  ghost predicate Timely(w: World, time: int) {
    (exists h: nat :: Live(w, h)) && w.lock.Some? && w.lock.value.Held? ==> !IsHeartbeatStale(w.lock.value.record, time)
  }

  ghost predicate Enabled(pidOf: nat -> nat, w: World, e: Event) {
    match e
    case Tick(time) => w.now <= time && Timely(w, time)
    case Acquire(p, _, liveness) => p in w.alive && Truthful(pidOf, w, liveness)
    case Refresh(h, _) => Live(w, h)
    case Read(h) => Live(w, h) && w.handles[h].data.None? && forall i :: 0 <= i < |w.log| ==> w.log[i].0 != h
    case Write(h) => Live(w, h) && w.handles[h].data.Some?
    case Release(h) => Live(w, h)
    case Spawn(p) => p !in w.alive && forall h :: 0 <= h < |w.handles| ==> w.handles[h].proc != p
    case Die(p) => p in w.alive
  }

  function SetHandle(w: World, h: nat, now: Handle): World
    requires h < |w.handles|
  {
    w.(handles := w.handles[h := now])
  }

  ghost function Apply(pidOf: nat -> nat, w: World, e: Event): World
    requires Enabled(pidOf, w, e)
  {
    match e
    case Tick(time) => w.(now := time)
    case Acquire(p, job, liveness) =>
      if MayTake(w.lock, liveness, w.now) then
        var r := Record(pidOf(p), w.now, Some(w.now));
        w.(lock := Some(Held(r)), handles := w.handles + [Handle(p, r, false, job, None)])
      else w
    case Refresh(h, works) =>
      var r := w.handles[h].record.(heartbeatAt := Some(w.now));
      var now := SetHandle(w, h, w.handles[h].(record := r));
      if works then now.(lock := Some(Held(r))) else now
    case Read(h) => SetHandle(w, h, w.handles[h].(data := Some(w.fixes)))
    case Write(h) =>
      SetHandle(w, h, w.handles[h].(data := None))
        .(fixes := Upserted(w.handles[h].data.value, w.handles[h].job), log := w.log + [(h, w.handles[h].job)])
    case Release(h) => SetHandle(w, h, w.handles[h].(released := true)).(lock := None)
    case Spawn(p) => w.(alive := w.alive + {p})
    case Die(p) => w.(alive := w.alive - {p})
  }

  ghost predicate Step(pidOf: nat -> nat, w: World, t: World) {
    exists e :: Enabled(pidOf, w, e) && t == Apply(pidOf, w, e)
  }

  /** A run starts with no handle; a lock file left behind by an earlier run may be there. */
  ghost predicate IsRun(pidOf: nat -> nat, run: seq<World>) {
    && |run| > 0 && run[0].handles == [] && run[0].log == []
    && forall i :: 0 <= i < |run| - 1 ==> Step(pidOf, run[i], run[i + 1])
  }

  // ----- the invariant

  ghost predicate Exclusive(w: World) {
    forall g: nat, h: nat :: Live(w, g) && Live(w, h) ==> g == h
  }

  /** A live holder's lock file is its own and its heartbeat is fresh. */
  ghost predicate OwnsFile(pidOf: nat -> nat, w: World) {
    forall h: nat :: Live(w, h) ==>
      && w.lock.Some? && w.lock.value.Held? && w.lock.value.record.pid == pidOf(w.handles[h].proc)
      && !IsHeartbeatStale(w.lock.value.record, w.now)
      && w.handles[h].record.pid == pidOf(w.handles[h].proc)
  }

  /** Only the newest handle can be live. */
  ghost predicate NewestOnly(w: World) {
    forall h: nat :: Live(w, h) ==> h == |w.handles| - 1
  }

  /** What a live holder has read is still what the file says. */
  ghost predicate ReadIsCurrent(w: World) {
    forall h: nat :: Live(w, h) && w.handles[h].data.Some? ==> w.handles[h].data.value == w.fixes
  }

  function Folded(start: Fixes, log: seq<(nat, Upsert)>): Fixes {
    if log == [] then start else Upserted(Folded(start, log[..|log| - 1]), log[|log| - 1].1)
  }

  /** Writes happen in acquisition order, at most one per handle, each the handle's own job. */
  ghost predicate LogInOrder(w: World) {
    && (forall i, j :: 0 <= i < j < |w.log| ==> w.log[i].0 < w.log[j].0)
    && (forall i :: 0 <= i < |w.log| ==> w.log[i].0 < |w.handles| && w.log[i].1 == w.handles[w.log[i].0].job)
  }

  /** A handle between read and write has not written yet. */
  ghost predicate ReadersUnwritten(w: World) {
    forall h, i :: 0 <= h < |w.handles| && w.handles[h].data.Some? && 0 <= i < |w.log| ==> w.log[i].0 != h
  }

  ghost predicate Inv(pidOf: nat -> nat, start: Fixes, w: World) {
    && NewestOnly(w) && OwnsFile(pidOf, w)
    && ReadIsCurrent(w) && LogInOrder(w) && ReadersUnwritten(w)
    && w.fixes == Folded(start, w.log)
  }

  lemma SameLive(w: World, t: World)
    requires w.alive == t.alive && |w.handles| == |t.handles|
    requires forall h :: 0 <= h < |w.handles| ==> w.handles[h].released == t.handles[h].released && w.handles[h].proc == t.handles[h].proc
    ensures forall h: nat :: Live(w, h) == Live(t, h)
  {
  }

  /** No acquire takes the lock from a live holder. */
  lemma HolderKeeps(pidOf: nat -> nat, w: World, liveness: Liveness, h: nat)
    requires OwnsFile(pidOf, w) && Truthful(pidOf, w, liveness) && Live(w, h)
    ensures !MayTake(w.lock, liveness, w.now)
  {
  }

  lemma AcquireInv(pidOf: nat -> nat, start: Fixes, w: World, e: Event)
    requires Inv(pidOf, start, w) && e.Acquire? && Enabled(pidOf, w, e)
    ensures Inv(pidOf, start, Apply(pidOf, w, e))
  {
    hide Folded;
    if MayTake(w.lock, e.liveness, w.now) {
      forall h: nat
        ensures !Live(w, h)
      {
        if Live(w, h) {
          HolderKeeps(pidOf, w, e.liveness, h);
        }
      }
      var t := Apply(pidOf, w, e);
      assert forall h: nat :: Live(t, h) ==> h == |w.handles| || Live(w, h);
    }
  }

  lemma QuietInv(pidOf: nat -> nat, start: Fixes, w: World, e: Event)
    requires Inv(pidOf, start, w) && Enabled(pidOf, w, e)
    requires e.Tick? || e.Refresh? || e.Release? || e.Spawn? || e.Die?
    ensures Inv(pidOf, start, Apply(pidOf, w, e))
  {
    hide Folded;
    var t := Apply(pidOf, w, e);
    assert forall h: nat :: Live(t, h) ==> Live(w, h);
  }

  lemma ReadInv(pidOf: nat -> nat, start: Fixes, w: World, e: Event)
    requires Inv(pidOf, start, w) && e.Read? && Enabled(pidOf, w, e)
    ensures Inv(pidOf, start, Apply(pidOf, w, e))
  {
    hide Folded;
    SameLive(w, Apply(pidOf, w, e));
  }

  lemma WriteInv(pidOf: nat -> nat, start: Fixes, w: World, e: Event)
    requires Inv(pidOf, start, w) && e.Write? && Enabled(pidOf, w, e)
    ensures Inv(pidOf, start, Apply(pidOf, w, e))
  {
    hide Folded, LogInOrder, ReadersUnwritten, Upserted;
    var t := Apply(pidOf, w, e);
    SameLive(w, t);
    WriteOrder(w, t, e.handle);
    FoldedSnoc(start, w.log, (e.handle, w.handles[e.handle].job));
  }

  lemma FoldedSnoc(start: Fixes, log: seq<(nat, Upsert)>, write: (nat, Upsert))
    ensures Folded(start, log + [write]) == Upserted(Folded(start, log), write.1)
  {
    hide Upserted;
    assert (log + [write])[..|log|] == log;
  }

  lemma WriteOrder(w: World, t: World, h: nat)
    requires LogInOrder(w) && ReadersUnwritten(w) && NewestOnly(w) && Live(w, h) && w.handles[h].data.Some?
    requires t.log == w.log + [(h, w.handles[h].job)] && t.handles == w.handles[h := w.handles[h].(data := None)]
    ensures LogInOrder(t) && ReadersUnwritten(t)
  {
    assert forall i :: 0 <= i < |w.log| ==> w.log[i].0 < h;
  }

  lemma StepInv(pidOf: nat -> nat, start: Fixes, w: World, e: Event)
    requires Inv(pidOf, start, w) && Enabled(pidOf, w, e)
    ensures Inv(pidOf, start, Apply(pidOf, w, e))
  {
    hide Inv, Enabled, Apply;
    match e
    case Acquire(_, _, _) => AcquireInv(pidOf, start, w, e);
    case Read(_) => ReadInv(pidOf, start, w, e);
    case Write(_) => WriteInv(pidOf, start, w, e);
    case Tick(_) => QuietInv(pidOf, start, w, e);
    case Refresh(_, _) => QuietInv(pidOf, start, w, e);
    case Release(_) => QuietInv(pidOf, start, w, e);
    case Spawn(_) => QuietInv(pidOf, start, w, e);
    case Die(_) => QuietInv(pidOf, start, w, e);
  }

  lemma StartInv(pidOf: nat -> nat, w: World)
    requires w.handles == [] && w.log == []
    ensures Inv(pidOf, w.fixes, w)
  {
  }

  lemma {:induction false} RunInv(pidOf: nat -> nat, run: seq<World>, n: nat)
    requires IsRun(pidOf, run) && n < |run|
    ensures Inv(pidOf, run[0].fixes, run[n])
  {
    hide Inv, Enabled, Apply;
    if n == 0 {
      StartInv(pidOf, run[0]);
    } else {
      RunInv(pidOf, run, n - 1);
      assert n - 1 + 1 == n;
      assert Step(pidOf, run[n - 1], run[n - 1 + 1]);
      var e :| Enabled(pidOf, run[n - 1], e) && run[n] == Apply(pidOf, run[n - 1], e);
      StepInv(pidOf, run[0].fixes, run[n - 1], e);
    }
  }

  /** Mutual exclusion: no reachable world has two live unreleased handles. */
  lemma MutualExclusion(pidOf: nat -> nat, run: seq<World>, n: nat)
    requires IsRun(pidOf, run) && n < |run|
    ensures Exclusive(run[n])
  {
    hide IsRun, Live;
    RunInv(pidOf, run, n);
  }

  /** No update is lost: the file is the initial one with all completed updates folded in, in the order
      their locks were acquired, each handle's at most once. */
  lemma NoLostUpdate(pidOf: nat -> nat, run: seq<World>, n: nat)
    requires IsRun(pidOf, run) && n < |run|
    ensures run[n].fixes == Folded(run[0].fixes, run[n].log)
    ensures LogInOrder(run[n])
  {
    hide IsRun, Live;
    RunInv(pidOf, run, n);
  }

  /** A completed write stays: later worlds only extend the log. */
  lemma {:induction false} LogGrows(pidOf: nat -> nat, run: seq<World>, n: nat, m: nat)
    requires IsRun(pidOf, run) && n <= m < |run|
    ensures run[n].log <= run[m].log
    decreases m
  {
    if n < m {
      LogGrows(pidOf, run, n, m - 1);
      assert m - 1 + 1 == m;
      assert Step(pidOf, run[m - 1], run[m - 1 + 1]);
    }
  }

  /** An entry is what its updates made of it, in acquisition order; nobody else's update touches it. */
  lemma {:induction false} EntryIsItsUpdates(start: Fixes, log: seq<(nat, Upsert)>, fp: string)
    ensures var own := OwnUpdates(log, fp);
      (fp in Folded(start, log) <==> fp in Folded(start, own))
      && (fp in Folded(start, log) ==> Folded(start, log)[fp] == Folded(start, own)[fp])
  {
    if log != [] {
      var front, last := log[..|log| - 1], log[|log| - 1];
      EntryIsItsUpdates(start, front, fp);
      var own, before := OwnUpdates(log, fp), OwnUpdates(front, fp);
      if last.1.fingerprint == fp {
        assert own[..|own| - 1] == before && own[|own| - 1] == last;
        assert Folded(start, own) == Upserted(Folded(start, before), last.1);
      } else {
        assert own == before;
      }
    }
  }

  function OwnUpdates(log: seq<(nat, Upsert)>, fp: string): seq<(nat, Upsert)> {
    if log == [] then []
    else OwnUpdates(log[..|log| - 1], fp) + if log[|log| - 1].1.fingerprint == fp then [log[|log| - 1]] else []
  }
}
