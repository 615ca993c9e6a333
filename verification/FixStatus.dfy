/** `upsertFix`: the locked read-modify-write of `fixes.json`, on the file objects themselves. */
module FixStatus {
  import opened Prelude
  import opened Locks
  import opened LockProtocol

  /** `Broken` is anything `readFixesFile` throws on. */
  datatype Stored = Missing | Broken | Holding(fixes: Fixes)

  class FixesFile {
    var stored: Stored

    constructor (stored: Stored)
      ensures this.stored == stored
    {
      this.stored := stored;
    }
  }

  datatype UpsertError = WorkspaceLocked(holder: Locked) | Unreadable

  /** What readers of the file see. */
  function Contents(s: Stored): Option<Fixes> {
    match s
    case Missing => Some(map[])
    case Broken => None
    case Holding(fixes) => Some(fixes)
  }

  /** Either the lock is refused and nothing changes, or the lock is taken, one update is applied to the file as
      it stood, and the lock is given back; an unreadable file is left alone and the lock is given back too. */
  method UpsertFix(lock: LockFile, file: FixesFile, u: Upsert, pid: nat, now: int, liveness: Liveness)
    returns (r: Result<(), UpsertError>)
    modifies lock, file
    ensures !MayTake(old(lock.content), liveness, now) ==>
      && lock.content == old(lock.content) && lock.content.Some? && file.stored == old(file.stored)
      && r == Err(WorkspaceLocked(Refusal(lock.content.value)))
    ensures MayTake(old(lock.content), liveness, now) ==> lock.content == None
    ensures MayTake(old(lock.content), liveness, now) && old(file.stored).Broken? ==>
      r == Err(Unreadable) && file.stored == old(file.stored)
    ensures MayTake(old(lock.content), liveness, now) && !old(file.stored).Broken? ==>
      r == Ok(()) && file.stored == Holding(Upserted(Contents(old(file.stored)).value, u))
    ensures MayTake(old(lock.content), liveness, now) <==> match old(lock.content)
      case None => true
      case Some(Garbage) => false
      case Some(Held(there)) =>
        liveness == Dead || (liveness == Unknown && (there.heartbeatAt == None || now - there.heartbeatAt.value > 300_000))
    ensures r.Ok? ==>
      && file.stored.Holding? && old(file.stored) != Broken
      && var before := if old(file.stored).Holding? then old(file.stored).fixes else map[]; var after := file.stored.fixes;
        && after.Keys == before.Keys + {u.fingerprint}
        && after[u.fingerprint] == u.update(if u.fingerprint in before then Some(before[u.fingerprint]) else None)
        && forall other :: other in before && other != u.fingerprint ==> after[other] == before[other]
  {
    var acquired := AcquireLock(lock, pid, now, liveness);
    if acquired.Err? {
      return Err(WorkspaceLocked(acquired.error));
    }
    var handle := acquired.value;
    var data := ReadFixesFile(file);
    if data.None? {
      handle.Release();
      return Err(Unreadable);
    }
    var existing := if u.fingerprint in data.value then Some(data.value[u.fingerprint]) else None;
    file.stored := Holding(data.value[u.fingerprint := u.update(existing)]);
    handle.Release();
    return Ok(());
  }

  method ReadFixesFile(file: FixesFile) returns (data: Option<Fixes>)
    ensures data == Contents(file.stored)
  {
    match file.stored
    case Missing => data := Some(map[]);
    case Broken => data := None;
    case Holding(fixes) => data := Some(fixes);
  }
}
