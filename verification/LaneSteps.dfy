/** Every step of the lane system keeps its invariant. */
module LaneSteps {
  import opened Wrappers
  import opened Manifest
  import opened Evidence
  import opened LaneLog
  import opened LaneHistory
  import opened LaneSystem
  import opened LaneMeaning
  import opened LaneInvariant

  // ---------- Steps of one process outside the lock ----------

  lemma LocalShared(s: Sys, p: int, stage: Stage)
    requires Shared(s) && !Holding(stage) && (p in s.procs ==> !Holding(s.procs[p]))
    ensures Shared(Moved(s, p, stage)) && Undisturbed(s, Moved(s, p, stage), p)
  {
  }

  lemma LocalKeeps(s: Sys, p: int, stage: Stage)
    requires Inv(s) && !Holding(stage) && (p in s.procs ==> !Holding(s.procs[p])) && StageOk(s, p, stage)
    ensures Inv(Moved(s, p, stage))
  {
    LocalShared(s, p, stage);
    LocalStage(s, p, stage);
    StepKeeps(s, Moved(s, p, stage), p);
  }

  lemma LocalStage(s: Sys, p: int, stage: Stage)
    requires StageOk(s, p, stage)
    ensures StageOk(Moved(s, p, stage), p, stage)
  {
  }

  lemma SpawnKeeps(s: Sys, p: int, command: Command)
    requires Inv(s) && p !in s.procs
    ensures Inv(Moved(s, p, Starting(command)))
  {
    LocalKeeps(s, p, Starting(command));
  }

  lemma FileSeen(s: Sys)
    requires HistoryOk(s) && s.file.Some?
    ensures Seen(s.log, s.file.value)
  {
    var i := |s.log| - 1;
    assert s.log[i].content == s.file.value;
  }

  lemma LoadKeeps(s: Sys, p: int, command: Command)
    requires Inv(s) && p in s.procs && s.procs[p] == Starting(command)
    ensures Inv(Moved(s, p, Start(command, s.file)))
  {
    assert StageOk(s, p, s.procs[p]);
    StartOk(s, p, command);
    LocalKeeps(s, p, Start(command, s.file));
  }

  lemma StartOk(s: Sys, p: int, command: Command)
    requires HistoryOk(s) && StageOk(s, p, Starting(command))
    ensures var stage := Start(command, s.file); StageOk(s, p, stage) && !Holding(stage)
  {
    if s.file.Some? {
      FileSeen(s);
    }
  }

  /** What a handler decides is grounded in the lane it saw. */
  lemma DecisionGrounded(s: Sys, p: int, command: Command, m: Manifest, world: World)
    requires StageOk(s, p, Checking(command, m))
    ensures var stage := Decide(command, m, world, s.receipts); StageOk(s, p, stage) && !Holding(stage)
  {
  }

  lemma CheckKeeps(s: Sys, p: int, command: Command, seen: Manifest, world: World)
    requires Inv(s) && p in s.procs && s.procs[p] == Checking(command, seen)
    ensures Inv(Moved(s, p, Decide(command, seen, world, s.receipts)))
  {
    assert StageOk(s, p, s.procs[p]);
    DecisionGrounded(s, p, command, seen, world);
    LocalKeeps(s, p, Decide(command, seen, world, s.receipts));
  }

  lemma ProposeKeeps(s: Sys, p: int, txn: Txn, ground: Ground)
    requires Inv(s) && p in s.procs && s.procs[p] == Calling(txn, ground)
    ensures Inv(Moved(s, p, ProposeOn(txn, ground, s.file)))
  {
    assert StageOk(s, p, s.procs[p]);
    ProposalOk(s, p, txn, ground);
    LocalKeeps(s, p, ProposeOn(txn, ground, s.file));
  }

  lemma ProposalOk(s: Sys, p: int, txn: Txn, ground: Ground)
    requires StageOk(s, p, Calling(txn, ground))
    ensures var stage := ProposeOn(txn, ground, s.file); StageOk(s, p, stage) && !Holding(stage)
  {
  }

  // ---------- Receipts ----------

  /** Installing a receipt disturbs nobody. */
  lemma ReceiptKeeps(s: Sys, h: string, r: Receipt)
    requires Inv(s) && IsHash(h) && ReceiptValid(r) && (h in s.receipts ==> s.receipts[h] == r)
    ensures Inv(s.(receipts := s.receipts[h := r]))
  {
    var t := s.(receipts := s.receipts[h := r]);
    ContentsGrow(s, t);
    assert Shared(t);
    StagesUnmoved(s, t);
  }

  lemma StagesUnmoved(s: Sys, t: Sys)
    requires Inv(s) && t == s.(receipts := t.receipts) && Grew(s.receipts, t.receipts)
    ensures StagesOk(t)
  {
    forall q | q in t.procs
      ensures StageOk(t, q, t.procs[q])
    {
      StageKept(s, t, q + 1, q, s.procs[q]);
    }
  }

  lemma ContentsGrow(s: Sys, t: Sys)
    requires ContentsOk(s) && t.log == s.log && Grew(s.receipts, t.receipts)
    ensures ContentsOk(t)
  {
    forall i | 0 <= i < |t.log|
      ensures ContentOk(t.log[i].content, t.receipts)
    {
      ContentOkGrows(s.log[i].content, s.receipts, t.receipts);
    }
  }

  lemma AddReceiptKeeps(s: Sys, p: int, stage: Stage, h: string, stamp: Instant, synced: bool)
    requires Inv(s) && p in s.procs && s.procs[p] == stage && stage.Adding?
    ensures Inv(AddReceiptStep(s, p, stage, h, stamp, synced))
  {
    var r := stage.receipt.(timestamp := stamp);
    assert StageOk(s, p, stage);
    if !IsHash(h) || !ReceiptValid(r) || (h in s.receipts && s.receipts[h] != r) {
      LocalKeeps(s, p, Failed);
    } else {
      ReceiptKeeps(s, h, r);
      var added := s.(receipts := s.receipts[h := r]);
      assert StageOk(added, p, stage);
      AddedOk(s, p, stage, h, stamp, synced, added);
      LocalKeeps(added, p, AddReceiptStep(s, p, stage, h, stamp, synced).procs[p]);
    }
  }

  lemma AddedOk(s: Sys, p: int, stage: Stage, h: string, stamp: Instant, synced: bool, added: Sys)
    requires stage.Adding? && IsHash(h) && ReceiptValid(stage.receipt.(timestamp := stamp))
    requires added == s.(receipts := s.receipts[h := stage.receipt.(timestamp := stamp)]) && StageOk(added, p, stage)
    requires h in s.receipts ==> s.receipts[h] == stage.receipt.(timestamp := stamp)
    ensures var t := AddReceiptStep(s, p, stage, h, stamp, synced);
      && p in t.procs && t == Moved(added, p, t.procs[p]) && StageOk(added, p, t.procs[p]) && !Holding(t.procs[p])
  {
  }

  lemma OtherReceiptKeeps(s: Sys, h: string, r: Receipt)
    requires Inv(s)
    ensures Inv(OtherReceiptStep(s, h, r))
  {
    if h !in s.receipts && IsHash(h) && ReceiptValid(r) {
      ReceiptKeeps(s, h, r);
    }
  }

  // ---------- The lock ----------

  lemma TakeLockKeeps(s: Sys, p: int, job: Job, ground: Ground)
    requires Inv(s) && p in s.procs && s.procs[p] == Waiting(job, ground) && s.lock.None?
    ensures Inv(Moved(s, p, Locked(job, ground)).(lock := Some(p)))
  {
    var t := Moved(s, p, Locked(job, ground)).(lock := Some(p));
    assert StageOk(s, p, s.procs[p]);
    TakeLockShared(s, p, Locked(job, ground));
    StepKeeps(s, t, p);
  }

  lemma TakeLockShared(s: Sys, p: int, stage: Stage)
    requires Shared(s) && p in s.procs && s.lock.None? && Holding(stage)
    ensures var t := Moved(s, p, stage).(lock := Some(p)); Shared(t) && Undisturbed(s, t, p)
  {
  }

  /** Ending in any way: the lock is let go, the temporary stays or is removed. */
  lemma EndKeeps(s: Sys, p: int, stage: Stage, temps: set<int>)
    requires Inv(s) && p in s.procs && !Ended(s.procs[p]) && (stage == Failed || stage == Dead)
    requires temps == s.temps || temps == s.temps - {p}
    ensures Inv(EndedAs(s, p, stage).(temps := temps))
  {
    var t := EndedAs(s, p, stage).(temps := temps);
    assert StageOk(s, p, s.procs[p]);
    EndShared(s, p, stage, temps);
    OthersTemps(s, t, p);
    StepKeeps(s, t, p);
  }

  lemma EndShared(s: Sys, p: int, stage: Stage, temps: set<int>)
    requires Shared(s) && p in s.procs && Ended(stage) && temps <= s.temps
    ensures Shared(EndedAs(s, p, stage).(temps := temps))
  {
    var t := EndedAs(s, p, stage).(temps := temps);
    assert t.procs.Keys == s.procs.Keys;
    EndLock(s, p, stage, t);
  }

  lemma EndLock(s: Sys, p: int, stage: Stage, t: Sys)
    requires LockOk(s) && p in s.procs && Ended(stage) && t.procs == s.procs[p := stage]
    requires t.lock == if s.lock == Some(p) then None else s.lock
    ensures LockOk(t)
  {
  }

  /** While another process holds the lock, `p` has no temporary to remove. */
  lemma OthersTemps(s: Sys, t: Sys, p: int)
    requires Inv(s) && p in s.procs && !Ended(s.procs[p])
    requires t.temps == s.temps || t.temps == s.temps - {p}
    ensures (exists q :: q != p && q in s.procs && Holding(s.procs[q])) ==> t.temps == s.temps
  {
    if q :| q != p && q in s.procs && Holding(s.procs[q]) {
      assert StageOk(s, p, s.procs[p]);
      assert !Holding(s.procs[p]);
      assert p !in s.temps;
    }
  }

  // ---------- The write under the lock ----------

  /** A step of the lock holder that touches neither file nor log. */
  lemma HolderKeeps(s: Sys, p: int, stage: Stage, temps: set<int>)
    requires Inv(s) && p in s.procs && Holding(s.procs[p]) && Holding(stage)
    requires temps == s.temps || temps == s.temps + {p} || temps == s.temps - {p}
    requires StageOk(Moved(s, p, stage).(temps := temps), p, stage)
    ensures Inv(Moved(s, p, stage).(temps := temps))
  {
    var t := Moved(s, p, stage).(temps := temps);
    assert LockOk(t);
    assert Shared(t);
    StepKeeps(s, t, p);
  }

  lemma FileTidy(s: Sys)
    requires HistoryOk(s) && s.file.Some?
    ensures Tidy(s.hasher, s.file.value)
  {
    var k := |s.log| - 1;
    AllTidy(s.hasher, s.log, k);
  }

  /** What the checks under the lock let through is the next content. */
  lemma NextContentOk(s: Sys, job: Job, ground: Ground, now: Instant, next: Manifest)
    requires HistoryOk(s) && JobOk(job, ground, s.log, s.receipts)
    requires NextContent(s.hasher, job, s.file, now) == Some(next)
    ensures NextOk(s.hasher, job, next, s.file)
  {
    if job.ChangeJob? {
      FileTidy(s);
      UpdateExact(s.hasher, job.txn, job.base, now);
      UpdatedValid(s.hasher, job.base, job.proposal, now, next);
    } else {
      OpeningCreated(s.hasher, job.manifest, now, next);
    }
  }

  lemma UpdatedValid(hasher: Hasher, base: Manifest, proposal: Manifest, now: Instant, next: Manifest)
    requires Updated(hasher, base, base, proposal, now) == Some(next)
    ensures Valid(hasher, next)
  {
    ValidateIff(hasher, next);
  }

  lemma OpeningCreated(hasher: Hasher, m: Manifest, now: Instant, next: Manifest)
    requires m == OpenManifest(m.laneId, m.dispatch) && Created(hasher, m, now) == Some(next)
    ensures IsOpening(hasher, next)
  {
    assert next.laneId == m.laneId && next.dispatch == m.dispatch;
  }

  lemma CheckUpdateKeeps(s: Sys, p: int, stage: Stage, now: Instant)
    requires Inv(s) && p in s.procs && s.procs[p] == stage && stage.Locked?
    ensures Inv(CheckUpdateStep(s, p, stage, now))
  {
    assert StageOk(s, p, stage);
    match NextContent(s.hasher, stage.job, s.file, now)
    case None => EndKeeps(s, p, Failed, s.temps);
    case Some(next) =>
      NextContentOk(s, stage.job, stage.ground, now, next);
      HolderKeeps(s, p, Writing(Checked, stage.job, next, stage.ground), s.temps);
  }

  lemma ScanKeeps(s: Sys, p: int, stage: Stage)
    requires Inv(s) && p in s.procs && s.procs[p] == stage && stage.Writing? && stage.phase.Checked?
    ensures Inv(ScanStep(s, p, stage))
  {
    assert StageOk(s, p, stage);
    if s.temps != {} {
      EndKeeps(s, p, Failed, s.temps);
    } else {
      HolderKeeps(s, p, stage.(phase := Scanned), s.temps);
    }
  }

  lemma StageStepKeeps(s: Sys, p: int, stage: Stage)
    requires Inv(s) && p in s.procs && s.procs[p] == stage && stage.Writing? && stage.phase.Scanned?
    ensures Inv(StageStep(s, p, stage))
  {
    assert StageOk(s, p, stage);
    HolderKeeps(s, p, stage.(phase := Staged), s.temps + {p});
  }

  lemma UnlinkKeeps(s: Sys, p: int, stage: Stage)
    requires Inv(s) && p in s.procs && s.procs[p] == stage && stage.Writing? && stage.phase.Linked?
    ensures Inv(Moved(s, p, stage.(phase := Installed)).(temps := s.temps - {p}))
  {
    assert StageOk(s, p, stage);
    HolderKeeps(s, p, stage.(phase := Installed), s.temps - {p});
  }

  lemma FinishKeeps(s: Sys, p: int, stage: Stage)
    requires Inv(s) && p in s.procs && s.procs[p] == stage && stage.Writing? && stage.phase.Installed?
    ensures Inv(EndedAs(s, p, Succeeded(stage.job, stage.next)))
  {
    var t := EndedAs(s, p, Succeeded(stage.job, stage.next));
    assert StageOk(s, p, stage);
    EndShared(s, p, Succeeded(stage.job, stage.next), s.temps);
    StepKeeps(s, t, p);
  }

  // ---------- The install ----------

  lemma LegalAppend(hasher: Hasher, log: Log, c: Commit)
    requires Legal(hasher, log)
    requires if log == [] then c.txn.None? && IsOpening(hasher, c.content) else Follows(hasher, Last(log), c)
    ensures Legal(hasher, log + [c])
  {
    var all, n := log + [c], |log|;
    forall i | 0 <= i < |all|
      ensures CommitAt(hasher, all, i)
    {
      if i < n {
        SameCommit(hasher, log, all, i);
      } else {
        AppendedAt(hasher, log, c, all, n);
      }
    }
  }

  lemma AppendedAt(hasher: Hasher, log: Log, c: Commit, all: Log, n: nat)
    requires all == log + [c] && n == |log|
    requires if log == [] then c.txn.None? && IsOpening(hasher, c.content) else Follows(hasher, Last(log), c)
    ensures CommitAt(hasher, all, n)
  {
    assert all[n] == c;
    if n > 0 {
      var k := n - 1;
      assert all[k] == log[k];
    }
  }

  lemma OpeningMeaning(hasher: Hasher, m: Manifest, receipts: Receipts)
    requires IsOpening(hasher, m)
    ensures ContentOk(m, receipts)
  {
  }

  /** The commit a writer is about to make is legal and keeps the meaning. */
  lemma CommitOk(s: Sys, p: int, job: Job, next: Manifest, ground: Ground)
    requires Shared(s) && JobOk(job, ground, s.log, s.receipts) && NextOk(s.hasher, job, next, s.file)
    ensures Legal(s.hasher, s.log + [CommitOf(p, job, next)]) && ContentOk(next, s.receipts)
  {
    var c := CommitOf(p, job, next);
    if job.ChangeJob? {
      var k := |s.log| - 1;
      assert Last(s.log) == s.log[k].content;
      CommitKeepsMeaning(s.hasher, s.log, c, ground, s.receipts);
    } else {
      OpeningMeaning(s.hasher, next, s.receipts);
    }
    LegalAppend(s.hasher, s.log, c);
  }

  lemma InstallShared(s: Sys, p: int, stage: Stage)
    requires Inv(s) && p in s.procs && s.procs[p] == stage && stage.Writing? && stage.phase.Staged?
    ensures Shared(InstallStep(s, p, stage))
  {
    assert StageOk(s, p, stage);
    var t := InstallStep(s, p, stage);
    var c := CommitOf(p, stage.job, stage.next);
    CommitOk(s, p, stage.job, stage.next, stage.ground);
    assert HistoryOk(t);
    OwnersAppend(s, t, c);
    assert LockOk(t);
  }

  lemma OwnersAppend(s: Sys, t: Sys, c: Commit)
    requires OwnersOk(s) && ContentsOk(s) && t.log == s.log + [c] && t.procs.Keys == s.procs.Keys
    requires t.receipts == s.receipts && c.owner in s.procs && !Committed(s.log, c.owner)
    requires ContentOk(c.content, s.receipts)
    ensures OwnersOk(t) && ContentsOk(t)
  {
  }

  lemma InstallKeeps(s: Sys, p: int, stage: Stage)
    requires Inv(s) && p in s.procs && s.procs[p] == stage && stage.Writing? && stage.phase.Staged?
    ensures Inv(InstallStep(s, p, stage))
  {
    assert StageOk(s, p, stage);
    InstallShared(s, p, stage);
    InstallUndisturbed(s, p, stage);
    InstallStageOk(s, p, stage);
    StepKeeps(s, InstallStep(s, p, stage), p);
  }

  lemma InstallUndisturbed(s: Sys, p: int, stage: Stage)
    requires LockOk(s) && p in s.procs && s.procs[p] == stage && stage.Writing?
    requires s.temps == {p} && (stage.job.CreateJob? ==> s.file.None?)
    ensures Undisturbed(s, InstallStep(s, p, stage), p)
  {
  }

  lemma InstallStageOk(s: Sys, p: int, stage: Stage)
    requires StageOk(s, p, stage) && stage.Writing? && stage.phase.Staged?
    ensures var t := InstallStep(s, p, stage); StageOk(t, p, t.procs[p])
  {
    var t := InstallStep(s, p, stage);
    var i := |s.log|;
    assert t.log[i] == CommitOf(p, stage.job, stage.next);
    if stage.job.ChangeJob? {
      GroundedOn(s, t, stage.job.txn, stage.ground);
    }
  }

  lemma GroundedOn(s: Sys, t: Sys, txn: Txn, ground: Ground)
    requires |t.log| >= |s.log| && t.log[..|s.log|] == s.log && t.receipts == s.receipts
    requires Grounded(txn, ground, s.log, s.receipts)
    ensures Grounded(txn, ground, t.log, t.receipts)
  {
    if !ground.Unconditional? {
      var i :| 0 <= i < |s.log| && s.log[i].content == ground.seen;
      assert t.log[i] == s.log[i];
    }
  }

  // ---------- All steps, all runs ----------

  lemma ProcStepKeeps(s: Sys, a: Action)
    requires Inv(s) && !a.Spawn? && !a.OtherReceipt? && a.p in s.procs && ProcStep(s, a, s.procs[a.p]).Some?
    ensures Inv(ProcStep(s, a, s.procs[a.p]).value)
  {
    var p, stage := a.p, s.procs[a.p];
    match a
    case Load(_) => LoadKeeps(s, p, stage.command);
    case Check(_, world) => CheckKeeps(s, p, stage.command, stage.seen, world);
    case AddReceipt(_, h, stamp, synced) => AddReceiptKeeps(s, p, stage, h, stamp, synced);
    case Propose(_) => ProposeKeeps(s, p, stage.txn, stage.ground);
    case TakeLock(_) => TakeLockKeeps(s, p, stage.job, stage.ground);
    case CheckUpdate(_, now) => CheckUpdateKeeps(s, p, stage, now);
    case Scan(_) => ScanKeeps(s, p, stage);
    case Stage(_) => StageStepKeeps(s, p, stage);
    case Install(_) => InstallKeeps(s, p, stage);
    case Unlink(_) => UnlinkKeeps(s, p, stage);
    case Finish(_) => FinishKeeps(s, p, stage);
    case Fail(_, cleaned) => EndKeeps(s, p, Failed, if cleaned then s.temps - {p} else s.temps);
    case Crash(_) => EndKeeps(s, p, Dead, s.temps);
  }

  lemma StepInv(s: Sys, a: Action)
    requires Inv(s) && Step(s, a).Some?
    ensures Inv(Step(s, a).value)
  {
    if a.Spawn? {
      SpawnKeeps(s, a.p, a.command);
    } else if a.OtherReceipt? {
      OtherReceiptKeeps(s, a.hash, a.receipt);
    } else {
      ProcStepKeeps(s, a);
    }
  }

  /** The invariant holds after every run, whatever the interleaving. */
  lemma {:induction false} RunInv(hasher: Hasher, actions: seq<Action>)
    requires Run(hasher, actions).Some?
    ensures Inv(Run(hasher, actions).value)
  {
    if actions != [] {
      var before := actions[..|actions| - 1];
      RunInv(hasher, before);
      StepInv(Run(hasher, before).value, actions[|actions| - 1]);
    }
  }
}
