/** The lease object as one process uses it (`core/workspace/lease.go`): the methods
    as written, on the two files of the state root, and their place in the protocol. */
module Lease {
  import opened Wrappers
  import opened LeaseSystem

  /** The lock file and the record file of one workspace. */
  class StateRoot {
    var lock: Option<int>
    var record: Option<int>

    constructor ()
      ensures lock.None? && record.None?
    {
      lock, record := None, None;
    }

    /** `DetectAbandoned`; the trial lock is given back. */
    method DetectAbandoned() returns (abandoned: bool)
      ensures abandoned <==> record.Some? && lock.None?
    {
      if record.None? {
        return false;
      }
      if lock.Some? {
        return false;
      }
      return true;
    }

    /** `Acquire`; `written` says whether the new record could be written and synced. */
    method Acquire(p: int, written: bool) returns (lease: Option<WriterLease>)
      modifies this
      ensures lease.Some? <==> Free(old(lock), old(record)) && written
      ensures lock == LockAfter(old(lock), old(record), p, written)
      ensures record == RecordAfter(old(lock), old(record), p)
      ensures lease.Some? ==> fresh(lease.value) && lease.value.root == this && lease.value.owner == p
                              && !lease.value.released && lease.value.Valid()
    {
      if lock.Some? {
        return None;
      }
      lock := Some(p);
      if record.Some? {
        lock := None;
        return None;
      }
      record := Some(p);
      if !written {
        lock := None;
        return None;
      }
      var l := new WriterLease(this, p);
      lease := Some(l);
    }
  }

  predicate Free(lock: Option<int>, record: Option<int>) {
    lock.None? && record.None?
  }

  function LockAfter(lock: Option<int>, record: Option<int>, p: int, written: bool): Option<int> {
    if Free(lock, record) && written then Some(p) else lock
  }

  /** A record that could not be written out stays. */
  function RecordAfter(lock: Option<int>, record: Option<int>, p: int): Option<int> {
    if Free(lock, record) then Some(p) else record
  }

  class WriterLease {
    const root: StateRoot
    const owner: int
    var released: bool

    /** The lock is held until the release. */
    predicate Valid()
      reads this, root
    {
      !released ==> root.lock == Some(owner)
    }

    constructor (root: StateRoot, owner: int)
      requires root.lock == Some(owner)
      ensures this.root == root && this.owner == owner && !released && Valid()
    {
      this.root, this.owner, released := root, owner, false;
    }

    method ActiveWorkspace() returns (ok: bool)
      requires Valid()
      ensures ok <==> !released && root.record.Some?
      ensures ok ==> root.lock == Some(owner)
    {
      ok := !released && root.record.Some?;
    }

    /** `Release`: the first call removes the record, if it can, and frees the lock in
        any case; later calls do nothing. `removed` says that the removal does not fail,
        `synced` that the directory can be synced after it, `unlocked` that the unlock
        reports no error. A record already gone is no error and needs no sync. */
    method Release(removed: bool, synced: bool, unlocked: bool) returns (ok: bool)
      requires Valid()
      modifies this, root
      ensures released && Valid()
      ensures ok <==> old(released) || (removed && (old(root.record).None? || synced) && unlocked)
      ensures root.lock == if old(released) then old(root.lock) else None
      ensures root.record == if !old(released) && removed then None else old(root.record)
    {
      if released {
        return true;
      }
      ok := removed;
      if removed && root.record.Some? {
        root.record := None;
        ok := synced;
      }
      root.lock := None;
      released := true;
      ok := ok && unlocked;
    }
  }

  // ---------- The same, as steps of the protocol ----------

  function After(s: Option<Sys>, a: Action): Option<Sys> {
    if s.None? then None else Step(s.value, a)
  }

  /** Acquire run without interruption takes the steps of the protocol to the state
      the method leaves, whatever it finds. */
  lemma AcquireIsSteps(s: Sys, p: int, written: bool)
    requires p in s.procs && s.procs[p].Acquiring? && s.lock != Some(p)
    ensures var t := if s.lock.Some? then After(Some(s), TryLock(p))
                     else if s.record.Some? then After(After(Some(s), TryLock(p)), ExamineRecord(p))
                     else After(After(After(After(Some(s), TryLock(p)), ExamineRecord(p)), CreateRecord(p)),
                                WriteRecord(p, written));
      && t.Some? && p in t.value.procs
      && (t.value.procs[p].Leased? <==> Free(s.lock, s.record) && written)
      && t.value.lock == LockAfter(s.lock, s.record, p, written)
      && t.value.record == RecordAfter(s.lock, s.record, p)
  {
  }

  /** So does Release. */
  lemma ReleaseIsSteps(s: Sys, p: int, removed: bool)
    requires p in s.procs && s.procs[p].Releasing? && s.lock == Some(p)
    ensures var t := After(After(Some(s), RemoveRecord(p, removed)), Unlock(p));
      && t.Some? && p in t.value.procs && t.value.procs[p].Ended?
      && t.value.lock.None? && t.value.record == if removed then None else s.record
  {
  }
}
