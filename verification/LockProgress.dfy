/** What the lock gives, not only what it forbids: a lock left behind by a crash is taken again, and whoever holds the
    lock can finish its update. */
module LockProgress {
  import opened Prelude
  import opened Locks
  import opened LockProtocol

  /** No process living in `w` has this pid. */
  ghost predicate NobodyHas(pidOf: nat -> nat, w: World, pid: nat) {
    forall p :: p in w.alive ==> pidOf(p) != pid
  }

  /** `t` is `w` with one more handle, held by `p`, and with its record in the lock file. */
  ghost predicate Gains(pidOf: nat -> nat, w: World, p: nat, job: Upsert, t: World) {
    var h := |w.handles|;
    && |t.handles| == h + 1 && t.handles[..h] == w.handles && Live(t, h)
    && t.handles[h].proc == p && t.handles[h].job == job && t.handles[h].data == None
    && t.lock == Some(Held(t.handles[h].record))
    && t.handles[h].record == Record(pidOf(p), w.now, Some(w.now))
    && t.alive == w.alive && t.now == w.now && t.fixes == w.fixes && t.log == w.log
  }

  /** An acquire gains the lock exactly when the file is absent, or readable with a holder found dead, or readable with
      an unknown holder whose heartbeat is unreadable or more than five minutes old; otherwise it changes nothing. */
  lemma AcquireGainsIff(pidOf: nat -> nat, w: World, p: nat, job: Upsert, liveness: Liveness)
    requires Enabled(pidOf, w, Acquire(p, job, liveness))
    ensures var t := Apply(pidOf, w, Acquire(p, job, liveness));
      var free := match w.lock
        case None => true
        case Some(Garbage) => false
        case Some(Held(there)) =>
          liveness == Dead || (liveness == Unknown && (there.heartbeatAt == None || w.now - there.heartbeatAt.value > 300_000));
      (if free then Gains(pidOf, w, p, job, t) else t == w)
  {
  }

  /** Where no living process has the recorded pid, nobody holds the lock. */
  lemma NobodyHolds(pidOf: nat -> nat, w: World)
    requires OwnsFile(pidOf, w)
    requires w.lock == None || (w.lock.value.Held? && NobodyHas(pidOf, w, w.lock.value.record.pid))
    ensures forall h: nat :: !Live(w, h)
  {
  }

  /** Progress: in every reachable world whose lock file is absent, or readable with a pid no living process has,
      nobody holds the lock, and any living process that is told so gains it. */
  lemma CrashedLockIsTaken(pidOf: nat -> nat, run: seq<World>, n: nat, p: nat, job: Upsert)
    requires IsRun(pidOf, run) && n < |run| && p in run[n].alive
    requires var w := run[n]; w.lock == None || (w.lock.value.Held? && NobodyHas(pidOf, w, w.lock.value.record.pid))
    ensures forall h: nat :: !Live(run[n], h)
    ensures Enabled(pidOf, run[n], Acquire(p, job, Dead))
    ensures Gains(pidOf, run[n], p, job, Apply(pidOf, run[n], Acquire(p, job, Dead)))
  {
    hide IsRun, Apply, Gains, Live, Folded;
    RunInv(pidOf, run, n);
    NobodyHolds(pidOf, run[n]);
    AcquireGainsIff(pidOf, run[n], p, job, Dead);
  }

  /** The same where the holder cannot be found out but its heartbeat is stale: nobody holds the lock then either. */
  lemma StaleLockIsTaken(pidOf: nat -> nat, run: seq<World>, n: nat, p: nat, job: Upsert)
    requires IsRun(pidOf, run) && n < |run| && p in run[n].alive
    requires var w := run[n];
      && w.lock.Some? && w.lock.value.Held?
      && var beat := w.lock.value.record.heartbeatAt; beat == None || w.now - beat.value > 300_000
    ensures forall h: nat :: !Live(run[n], h)
    ensures Enabled(pidOf, run[n], Acquire(p, job, Unknown))
    ensures Gains(pidOf, run[n], p, job, Apply(pidOf, run[n], Acquire(p, job, Unknown)))
  {
    hide IsRun, Apply, Gains, Live, Folded;
    RunInv(pidOf, run, n);
    AcquireGainsIff(pidOf, run[n], p, job, Unknown);
  }

  /** A crash is survived: when the holder dies and no other living process has its pid, any living process gains the
      lock at once. */
  lemma CrashIsSurvived(pidOf: nat -> nat, run: seq<World>, n: nat, h: nat, p: nat, job: Upsert)
    requires IsRun(pidOf, run) && n < |run| && Live(run[n], h)
    requires var holder := run[n].handles[h].proc;
      p in run[n].alive && p != holder && forall q :: q in run[n].alive && q != holder ==> pidOf(q) != pidOf(holder)
    ensures var holder := run[n].handles[h].proc;
      && Enabled(pidOf, run[n], Die(holder))
      && var w := Apply(pidOf, run[n], Die(holder));
        && Enabled(pidOf, w, Acquire(p, job, Dead)) && Gains(pidOf, w, p, job, Apply(pidOf, w, Acquire(p, job, Dead)))
  {
    hide IsRun, Folded, Gains;
    RunInv(pidOf, run, n);
    var w := Apply(pidOf, run[n], Die(run[n].handles[h].proc));
    assert w.lock == run[n].lock;
    AcquireGainsIff(pidOf, w, p, job, Dead);
  }

  /** A process that gains the lock can read, write and release, and then its update is in the file, on top of what was
      there when it came, and the lock is free. */
  lemma UpdateCompletes(pidOf: nat -> nat, w: World, p: nat, job: Upsert, t: World)
    requires Gains(pidOf, w, p, job, t) && (forall i :: 0 <= i < |t.log| ==> t.log[i].0 < |w.handles|)
    ensures var h := |w.handles|;
      && Enabled(pidOf, t, Read(h))
      && var t1 := Apply(pidOf, t, Read(h));
        && Enabled(pidOf, t1, Write(h))
        && var t2 := Apply(pidOf, t1, Write(h));
          && Enabled(pidOf, t2, LockProtocol.Release(h))
          && var t3 := Apply(pidOf, t2, LockProtocol.Release(h));
            t3.fixes == Upserted(w.fixes, job) && t3.log == w.log + [(h, job)] && t3.lock == None
  {
  }

  /** A refresh that works renews the file for its own process: for five minutes from then the clock may go on without
      the lock growing stale, and nobody takes it unless the probe calls that process dead. */
  lemma RefreshBuysTime(pidOf: nat -> nat, w: World, h: nat, time: int, liveness: Liveness)
    requires Enabled(pidOf, w, LockProtocol.Refresh(h, true)) && w.now <= time <= w.now + 300_000
    ensures var t := Apply(pidOf, w, LockProtocol.Refresh(h, true));
      && t.lock == Some(Held(t.handles[h].record))
      && t.handles[h].record == w.handles[h].record.(heartbeatAt := Some(w.now))
      && Enabled(pidOf, t, Tick(time))
      && (liveness != Dead ==> !MayTake(t.lock, liveness, time))
  {
  }

  // ----- what an entry becomes

  function Entry(fixes: Fixes, fp: string): Option<FixEntry> {
    if fp in fixes then Some(fixes[fp]) else None
  }

  /** The updates of one fingerprint, one after the other. */
  function Chain(entry: Option<FixEntry>, log: seq<(nat, Upsert)>, fp: string): Option<FixEntry> {
    if log == [] then entry
    else
      var before, last := Chain(entry, log[..|log| - 1], fp), log[|log| - 1].1;
      if last.fingerprint == fp then Some(last.update(before)) else before
  }

  /** In every reachable world each entry is its initial one with its own completed updates applied one after the
      other, in acquisition order; every other update leaves it alone. */
  lemma EntryIsItsChain(pidOf: nat -> nat, run: seq<World>, n: nat, fp: string)
    requires IsRun(pidOf, run) && n < |run|
    ensures Entry(run[n].fixes, fp) == Chain(Entry(run[0].fixes, fp), run[n].log, fp)
  {
    hide IsRun, Folded;
    NoLostUpdate(pidOf, run, n);
    FoldedChain(run[0].fixes, run[n].log, fp);
  }

  lemma {:induction false} FoldedChain(start: Fixes, log: seq<(nat, Upsert)>, fp: string)
    ensures Entry(Folded(start, log), fp) == Chain(Entry(start, fp), log, fp)
  {
    if log != [] {
      FoldedChain(start, log[..|log| - 1], fp);
    }
  }
}
