/** The workspace lock (`acquireLock`, `LockHandle`): a lock file, a liveness probe, a heartbeat. */
module Locks {
  import opened Prelude

  const HEARTBEAT_INTERVAL_MS := 60_000
  const STALE_THRESHOLD_MS := 5 * HEARTBEAT_INTERVAL_MS

  /** `heartbeatAt` is `None` when the recorded time cannot be parsed. */
  datatype Record = Record(pid: nat, startedAt: int, heartbeatAt: Option<int>)

  /** What the lock file holds; `Garbage` is anything `readLockRecord` rejects. */
  datatype Content = Garbage | Held(record: Record)

  datatype Liveness = Dead | Alive | Unknown

  predicate IsHeartbeatStale(r: Record, now: int) {
    r.heartbeatAt.None? || now - r.heartbeatAt.value > STALE_THRESHOLD_MS
  }

  predicate CanBreak(r: Record, liveness: Liveness, now: int) {
    match liveness
    case Dead => true
    case Alive => false
    case Unknown => IsHeartbeatStale(r, now)
  }

  predicate MayTake(lock: Option<Content>, liveness: Liveness, now: int) {
    lock.None? || (lock.value.Held? && CanBreak(lock.value.record, liveness, now))
  }

  datatype Locked = Locked(pid: nat, heartbeatAt: Option<int>)

  function Refusal(lock: Content): Locked {
    match lock
    case Garbage => Locked(0, None)
    case Held(r) => Locked(r.pid, r.heartbeatAt)
  }

  /** The file at the lock path, shared by all processes. */
  class LockFile {
    var content: Option<Content>

    constructor ()
      ensures content == None
    {
      content := None;
    }

    /** Exclusive create: fails when the file is there. */
    method CreateExclusive(r: Record) returns (created: bool)
      modifies this
      ensures created == old(content).None?
      ensures content == if created then Some(Held(r)) else old(content)
    {
      created := content.None?;
      if created {
        content := Some(Held(r));
      }
    }

    method Unlink()
      modifies this
      ensures content == None
    {
      content := None;
    }
  }

  class LockHandle {
    const file: LockFile
    var record: Record
    var released: bool

    constructor (file: LockFile, record: Record)
      ensures this.file == file && this.record == record && !released
    {
      this.file, this.record, released := file, record, false;
    }

    /** Rewrite the lock file with a fresh heartbeat; `works` tells whether the rename succeeds. */
    method Refresh(now: int, works: bool)
      modifies this`record, file
      ensures record == if old(released) then old(record) else old(record).(heartbeatAt := Some(now))
      ensures file.content == if old(released) || !works then old(file.content) else Some(Held(record))
    {
      if released {
        return;
      }
      record := record.(heartbeatAt := Some(now));
      if works {
        file.content := Some(Held(record));
      }
    }

    method Release()
      modifies this`released, file
      ensures released
      ensures file.content == if old(released) then old(file.content) else None
    {
      if released {
        return;
      }
      released := true;
      file.Unlink();
    }
  }

  /** One uninterrupted acquire; `liveness` is the probe's answer about the recorded holder. */
  method AcquireLock(file: LockFile, pid: nat, now: int, liveness: Liveness) returns (r: Result<LockHandle, Locked>)
    modifies file
    ensures r.Ok? <==> MayTake(old(file.content), liveness, now)
    ensures r.Ok? <==> match old(file.content)
      case None => true
      case Some(Garbage) => false
      case Some(Held(there)) =>
        liveness == Dead || (liveness == Unknown && (there.heartbeatAt == None || now - there.heartbeatAt.value > 300_000))
    ensures r.Ok? ==>
      && fresh(r.value) && r.value.file == file && !r.value.released
      && r.value.record == Record(pid, now, Some(now))
      && file.content == Some(Held(r.value.record))
    ensures r.Err? ==> file.content == old(file.content) && old(file.content).Some? && r.error == Refusal(old(file.content).value)
    ensures r.Err? ==> r.error == match old(file.content).value
      case Garbage => Locked(0, None)
      case Held(there) => Locked(there.pid, there.heartbeatAt)
  {
    var record := Record(pid, now, Some(now));
    var acquired := file.CreateExclusive(record);
    if !acquired {
      var existing := file.content.value;
      if existing.Held? && CanBreak(existing.record, liveness, now) {
        file.Unlink();
        acquired := file.CreateExclusive(record);
      }
      if !acquired {
        return Err(Refusal(existing));
      }
    }
    var handle := new LockHandle(file, record);
    return Ok(handle);
  }
}
