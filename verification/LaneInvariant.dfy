/** The invariant of the lane system: what is true of the shared state and of
    every process between any two steps. */
module LaneInvariant {
  import opened Wrappers
  import opened Manifest
  import opened Evidence
  import opened Policy
  import opened LaneLog
  import opened LaneSystem
  import opened LaneMeaning

  ghost predicate Committed(log: Log, p: int) {
    exists i :: 0 <= i < |log| && log[i].owner == p
  }

  /** The history has the commit of this process, of this change, with this content. */
  ghost predicate CommittedAs(log: Log, p: int, job: Job, m: Manifest) {
    exists i :: 0 <= i < |log| && log[i] == CommitOf(p, job, m)
  }

  ghost predicate JobOk(job: Job, ground: Ground, log: Log, receipts: Receipts) {
    match job
    case CreateJob(m) => m == OpenManifest(m.laneId, m.dispatch)
    case ChangeJob(txn, base, proposal) =>
      Named(txn) && Proposal(txn, base) == Some(proposal) && Grounded(txn, ground, log, receipts)
  }

  /** The content about to be stored is the next one after the file. */
  ghost predicate NextOk(hasher: Hasher, job: Job, next: Manifest, file: Option<Manifest>) {
    match job
    case CreateJob(m) => file.None? && IsOpening(hasher, next)
    case ChangeJob(txn, base, proposal) => file == Some(base) && IsStep(hasher, txn, base, next.updatedAt, next)
  }

  ghost predicate WriterOk(s: Sys, p: int, phase: Phase, job: Job, next: Manifest) {
    match phase
    case Checked => NextOk(s.hasher, job, next, s.file) && !Committed(s.log, p) && p !in s.temps
    case Scanned => NextOk(s.hasher, job, next, s.file) && !Committed(s.log, p) && s.temps == {}
    case Staged => NextOk(s.hasher, job, next, s.file) && !Committed(s.log, p) && s.temps == {p}
    case Linked => CommittedAs(s.log, p, job, next) && s.temps == {p}
    case Installed => CommittedAs(s.log, p, job, next) && s.temps == {}
  }

  /** A receipt about to be added is bound to a lane of the history. */
  ghost predicate AddingOk(seen: Manifest, receipt: Receipt, log: Log) {
    match seen.freeze
    case None => false
    case Some(f) =>
      Seen(log, seen) && receipt.candidateHash == f.candidate && receipt.manifestHash == seen.dispatchHash
  }

  ghost predicate StageOk(s: Sys, p: int, stage: Stage) {
    match stage
    case Starting(_) => !Committed(s.log, p) && p !in s.temps
    case Checking(_, seen) => Seen(s.log, seen) && !Committed(s.log, p) && p !in s.temps
    case Adding(seen, receipt) => AddingOk(seen, receipt, s.log) && !Committed(s.log, p) && p !in s.temps
    case Calling(txn, ground) =>
      Named(txn) && Grounded(txn, ground, s.log, s.receipts) && !Committed(s.log, p) && p !in s.temps
    case Waiting(job, ground) => JobOk(job, ground, s.log, s.receipts) && !Committed(s.log, p) && p !in s.temps
    case Locked(job, ground) => JobOk(job, ground, s.log, s.receipts) && !Committed(s.log, p) && p !in s.temps
    case Writing(phase, job, next, ground) => JobOk(job, ground, s.log, s.receipts) && WriterOk(s, p, phase, job, next)
    case Succeeded(job, result) => CommittedAs(s.log, p, job, result) && p !in s.temps
    case _ => true
  }

  ghost predicate HistoryOk(s: Sys) {
    match s.file
    case None => s.log == []
    case Some(m) => s.log != [] && m == Last(s.log) && Legal(s.hasher, s.log)
  }

  ghost predicate OwnersOk(s: Sys) {
    && (forall i :: 0 <= i < |s.log| ==> s.log[i].owner in s.procs)
    && (forall i, j :: 0 <= i < j < |s.log| ==> s.log[i].owner != s.log[j].owner)
  }

  ghost predicate ContentsOk(s: Sys) {
    forall i :: 0 <= i < |s.log| ==> ContentOk(s.log[i].content, s.receipts)
  }

  /** The lock is held by exactly the process that is inside `Create` or `Update`. */
  ghost predicate LockOk(s: Sys) {
    && (s.lock.Some? ==> s.lock.value in s.procs && Holding(s.procs[s.lock.value]))
    && (forall p :: p in s.procs && Holding(s.procs[p]) ==> s.lock == Some(p))
  }

  ghost predicate Shared(s: Sys) {
    match s
    case Sys(_, _, _, _, _, _, _) =>
      HistoryOk(s) && OwnersOk(s) && ContentsOk(s) && LockOk(s) && ReceiptsValid(s.receipts) && s.temps <= s.procs.Keys
  }

  ghost predicate StagesOk(s: Sys) {
    forall p :: p in s.procs ==> StageOk(s, p, s.procs[p])
  }

  ghost predicate Inv(s: Sys) {
    match s
    case Sys(_, _, _, _, _, _, _) => Shared(s) && StagesOk(s)
  }

  // ---------- Steps of others ----------

  /** From `s` to `t` only process `p` moved: the log may have one more commit of
      `p`, receipts may have been added, and while another process holds the lock
      the file, the log and the temporaries stay. */
  ghost predicate Undisturbed(s: Sys, t: Sys, p: int) {
    && t.hasher == s.hasher && Grew(s.receipts, t.receipts)
    && (t.log == s.log || (|t.log| == |s.log| + 1 && t.log[..|s.log|] == s.log && t.log[|s.log|].owner == p))
    && (forall q :: q != p ==> (q in t.temps <==> q in s.temps))
    && (forall q :: q != p ==> (q in t.procs <==> q in s.procs))
    && (forall q :: q != p && q in s.procs ==> t.procs[q] == s.procs[q])
    && ((exists q :: q != p && q in s.procs && Holding(s.procs[q])) ==>
          t.file == s.file && t.log == s.log && t.temps == s.temps)
  }

  lemma SeenKept(s: Sys, t: Sys, p: int, seen: Manifest)
    requires Undisturbed(s, t, p) && Seen(s.log, seen)
    ensures Seen(t.log, seen)
  {
    var i :| 0 <= i < |s.log| && s.log[i].content == seen;
    assert t.log[i] == s.log[i];
  }

  lemma CommitKept(s: Sys, t: Sys, p: int, q: int, job: Job, m: Manifest)
    requires Undisturbed(s, t, p) && CommittedAs(s.log, q, job, m)
    ensures CommittedAs(t.log, q, job, m)
  {
    var i :| 0 <= i < |s.log| && s.log[i] == CommitOf(q, job, m);
    assert t.log[i] == s.log[i];
  }

  lemma UncommittedKept(s: Sys, t: Sys, p: int, q: int)
    requires Undisturbed(s, t, p) && !Committed(s.log, q) && q != p
    ensures !Committed(t.log, q)
  {
    forall i | 0 <= i < |t.log|
      ensures t.log[i].owner != q
    {
      if i < |s.log| {
        assert t.log[i] == s.log[i];
      }
    }
  }

  lemma GroundedKept(s: Sys, t: Sys, p: int, txn: Txn, ground: Ground)
    requires Undisturbed(s, t, p) && Grounded(txn, ground, s.log, s.receipts)
    ensures Grounded(txn, ground, t.log, t.receipts)
  {
    if !ground.Unconditional? {
      SeenKept(s, t, p, ground.seen);
      if !ground.OnEvidence? {
        GrewVerified(ground.seen, ground.seen, s.receipts, t.receipts);
      }
    }
  }

  lemma JobKept(s: Sys, t: Sys, p: int, job: Job, ground: Ground)
    requires Undisturbed(s, t, p) && JobOk(job, ground, s.log, s.receipts)
    ensures JobOk(job, ground, t.log, t.receipts)
  {
    if job.ChangeJob? {
      GroundedKept(s, t, p, job.txn, ground);
    }
  }

  lemma WriterKept(s: Sys, t: Sys, p: int, q: int, phase: Phase, job: Job, next: Manifest)
    requires Undisturbed(s, t, p) && q != p && WriterOk(s, q, phase, job, next)
    requires t.file == s.file && t.log == s.log && t.temps == s.temps
    ensures WriterOk(t, q, phase, job, next)
  {
  }

  /** What is true of a process stays true when another one moves. */
  lemma StageKept(s: Sys, t: Sys, p: int, q: int, stage: Stage)
    requires Undisturbed(s, t, p) && q != p && q in s.procs && s.procs[q] == stage && StageOk(s, q, stage)
    ensures StageOk(t, q, stage)
  {
    if stage.Writing? {
      JobKept(s, t, p, stage.job, stage.ground);
      WriterKept(s, t, p, q, stage.phase, stage.job, stage.next);
    } else if stage.Succeeded? {
      CommitKept(s, t, p, q, stage.job, stage.result);
    } else if !Ended(stage) {
      UncommittedKept(s, t, p, q);
      if stage.Checking? || stage.Adding? {
        SeenKept(s, t, p, stage.seen);
      } else if stage.Calling? {
        GroundedKept(s, t, p, stage.txn, stage.ground);
      } else if stage.Waiting? || stage.Locked? {
        JobKept(s, t, p, stage.job, stage.ground);
      }
    }
  }

  /** One step keeps the invariant if it keeps the shared part and its own stage. */
  lemma StepKeeps(s: Sys, t: Sys, p: int)
    requires Inv(s) && Undisturbed(s, t, p) && Shared(t)
    requires p in t.procs ==> StageOk(t, p, t.procs[p])
    ensures Inv(t)
  {
    forall q | q in t.procs
      ensures StageOk(t, q, t.procs[q])
    {
      if q != p {
        StageKept(s, t, p, q, s.procs[q]);
      }
    }
  }
}
