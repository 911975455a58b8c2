/** The store's methods and the steps of the protocol agree: a process that runs alone,
    with some outcome of its file operations, leaves what the method leaves. */
module LaneStoreSteps {
  import opened Wrappers
  import opened Manifest
  import opened LaneSystem
  import opened LaneStore
  import opened LaneProgress

  /** The next step of a process whose file operations go as `io` says. */
  function Turn(stage: Stage, p: int, now: Instant, io: Io): Action {
    match stage
    case Calling(_, _) => Propose(p)
    case Waiting(_, _) => TakeLock(p)
    case Locked(_, _) => CheckUpdate(p, now)
    case Writing(phase, _, _, _) =>
      (match phase
       case Checked => Scan(p)
       case Scanned => if io.created then LaneSystem.Action.Stage(p) else Fail(p, io.cleaned)
       case Staged => if io.filled && io.installed then Install(p) else Fail(p, io.cleaned)
       case Linked => if io.removed then Unlink(p) else Fail(p, io.cleaned)
       case Installed => if io.synced then Finish(p) else Fail(p, io.cleaned))
    case _ => Finish(p)
  }

  /** The system after all the turns the process can take. */
  ghost function Driven(s: Sys, p: int, now: Instant, io: Io): Sys
    requires p in s.procs
    decreases Distance(s.procs[p])
  {
    var t := Step(s, Turn(s.procs[p], p, now, io));
    if t.None? || p !in t.value.procs || Distance(t.value.procs[p]) >= Distance(s.procs[p]) then s
    else Driven(t.value, p, now, io)
  }

  lemma OneTurn(s: Sys, p: int, now: Instant, io: Io, t: Sys)
    requires p in s.procs && Step(s, Turn(s.procs[p], p, now, io)) == Some(t)
    requires p in t.procs && Distance(t.procs[p]) < Distance(s.procs[p])
    ensures Driven(s, p, now, io) == Driven(t, p, now, io)
  {
  }

  lemma NoTurn(s: Sys, p: int, now: Instant, io: Io)
    requires p in s.procs && Ended(s.procs[p])
    ensures Driven(s, p, now, io) == s
  {
  }

  /** The process has ended, freed the lock, and left this effect. */
  ghost predicate Leaves(u: Sys, p: int, e: Effect) {
    && p in u.procs && (u.procs[p].Succeeded? || u.procs[p].Failed?) && u.lock.None?
    && u.file == e.content && |u.temps| == e.residue && (u.procs[p].Succeeded? <==> e.success)
  }

  /** A process about to take its turn at a phase of its write. */
  predicate At(s: Sys, p: int, phase: Phase) {
    p in s.procs && s.lock == Some(p) && s.procs[p].Writing? && s.procs[p].phase == phase
  }

  lemma FromInstalled(s: Sys, p: int, now: Instant, io: Io)
    requires At(s, p, Installed) && s.temps == {}
    ensures Leaves(Driven(s, p, now, io), p, Effect(s.file, 0, io.synced))
  {
    var stage := s.procs[p];
    var t := if io.synced then EndedAs(s, p, Succeeded(stage.job, stage.next))
             else EndedAs(s, p, Failed).(temps := if io.cleaned then s.temps - {p} else s.temps);
    OneTurn(s, p, now, io, t);
    NoTurn(t, p, now, io);
    assert t.temps == {};
  }

  /** An error while the temporary is there. */
  lemma FromError(s: Sys, p: int, now: Instant, io: Io)
    requires p in s.procs && s.lock == Some(p) && s.procs[p].Writing? && s.temps == {p}
    requires Turn(s.procs[p], p, now, io) == Fail(p, io.cleaned)
    ensures Leaves(Driven(s, p, now, io), p, Effect(s.file, if io.cleaned then 0 else 1, false))
  {
    var t := EndedAs(s, p, Failed).(temps := if io.cleaned then s.temps - {p} else s.temps);
    OneTurn(s, p, now, io, t);
    NoTurn(t, p, now, io);
    assert t.temps == if io.cleaned then {} else {p};
  }

  lemma FromLinked(s: Sys, p: int, now: Instant, io: Io)
    requires At(s, p, Linked) && s.temps == {p}
    ensures Leaves(Driven(s, p, now, io), p,
                   Effect(s.file, if io.removed || io.cleaned then 0 else 1, io.removed && io.synced))
  {
    if io.removed {
      var t := Moved(s, p, s.procs[p].(phase := Installed)).(temps := s.temps - {p});
      OneTurn(s, p, now, io, t);
      assert t.temps == {};
      FromInstalled(t, p, now, io);
    } else {
      FromError(s, p, now, io);
    }
  }

  lemma FromStaged(s: Sys, p: int, now: Instant, io: Io)
    requires At(s, p, Staged) && s.temps == {p} && s.procs[p].job.ChangeJob?
    ensures Leaves(Driven(s, p, now, io), p,
                   if io.filled && io.installed then Effect(Some(s.procs[p].next), 0, io.synced)
                   else Effect(s.file, if io.cleaned then 0 else 1, false))
  {
    if io.filled && io.installed {
      var t := InstallStep(s, p, s.procs[p]);
      OneTurn(s, p, now, io, t);
      assert t.temps == {};
      FromInstalled(t, p, now, io);
    } else {
      FromError(s, p, now, io);
    }
  }

  lemma FromStagedNew(s: Sys, p: int, now: Instant, io: Io)
    requires At(s, p, Staged) && s.temps == {p} && s.procs[p].job.CreateJob? && s.file.None?
    ensures Leaves(Driven(s, p, now, io), p,
                   if io.filled && io.installed then
                     Effect(Some(s.procs[p].next), if io.removed || io.cleaned then 0 else 1, io.removed && io.synced)
                   else Effect(None, if io.cleaned then 0 else 1, false))
  {
    if io.filled && io.installed {
      var t := InstallStep(s, p, s.procs[p]);
      OneTurn(s, p, now, io, t);
      FromLinked(t, p, now, io);
    } else {
      FromError(s, p, now, io);
    }
  }

  /** What storing `next` for a job comes to. */
  function Stored(job: Job, file: Option<Manifest>, residue: nat, next: Option<Manifest>, io: Io): Effect {
    if job.ChangeJob? then Renamed(file, residue, next, io) else LinkedIn(residue, next, io)
  }

  lemma FromScanned(s: Sys, p: int, now: Instant, io: Io)
    requires At(s, p, Scanned) && s.temps == {} && (s.procs[p].job.CreateJob? ==> s.file.None?)
    ensures Leaves(Driven(s, p, now, io), p, Stored(s.procs[p].job, s.file, 0, Some(s.procs[p].next), io))
  {
    if io.created {
      var t := StageStep(s, p, s.procs[p]);
      OneTurn(s, p, now, io, t);
      assert t.temps == {p};
      if s.procs[p].job.ChangeJob? {
        FromStaged(t, p, now, io);
      } else {
        FromStagedNew(t, p, now, io);
      }
    } else {
      var t := EndedAs(s, p, Failed).(temps := if io.cleaned then s.temps - {p} else s.temps);
      OneTurn(s, p, now, io, t);
      NoTurn(t, p, now, io);
      assert t.temps == {};
    }
  }

  lemma FromChecked(s: Sys, p: int, now: Instant, io: Io)
    requires At(s, p, Checked) && (s.procs[p].job.CreateJob? ==> s.file.None?)
    ensures Leaves(Driven(s, p, now, io), p, Stored(s.procs[p].job, s.file, |s.temps|, Some(s.procs[p].next), io))
  {
    var t := ScanStep(s, p, s.procs[p]);
    OneTurn(s, p, now, io, t);
    if s.temps == {} {
      FromScanned(t, p, now, io);
    } else {
      NoTurn(t, p, now, io);
      assert |s.temps| > 0;
    }
  }

  lemma FromLocked(s: Sys, p: int, now: Instant, io: Io)
    requires p in s.procs && s.lock == Some(p) && s.procs[p].Locked? && (s.procs[p].job.CreateJob? ==> s.file.None?)
    ensures Leaves(Driven(s, p, now, io), p,
                   Stored(s.procs[p].job, s.file, |s.temps|, NextContent(s.hasher, s.procs[p].job, s.file, now), io))
  {
    var t := CheckUpdateStep(s, p, s.procs[p], now);
    OneTurn(s, p, now, io, t);
    if NextContent(s.hasher, s.procs[p].job, s.file, now).Some? {
      FromChecked(t, p, now, io);
    } else {
      NoTurn(t, p, now, io);
    }
  }

  lemma FromWaiting(s: Sys, p: int, now: Instant, io: Io)
    requires p in s.procs && s.lock.None? && s.procs[p].Waiting? && (s.procs[p].job.CreateJob? ==> s.file.None?)
    ensures Leaves(Driven(s, p, now, io), p,
                   Stored(s.procs[p].job, s.file, |s.temps|, NextContent(s.hasher, s.procs[p].job, s.file, now), io))
  {
    var t := Moved(s, p, Locked(s.procs[p].job, s.procs[p].ground)).(lock := Some(p));
    OneTurn(s, p, now, io, t);
    FromLocked(t, p, now, io);
  }

  // ---------- The methods are runs of the protocol ----------

  /** `LaneFile.Update` leaves what the steps of an update leave, whatever the file
      operations do. */
  lemma UpdateIsSteps(s: Sys, p: int, now: Instant, io: Io)
    requires p in s.procs && s.lock.None? && s.procs[p].Waiting? && s.procs[p].job.ChangeJob?
    ensures var job := s.procs[p].job;
            Leaves(Driven(s, p, now, io), p,
                   Renamed(s.file, |s.temps|, UpdateOf(s.hasher, s.file, HashOf(job.base), job.proposal, now), io))
  {
    FromWaiting(s, p, now, io);
  }

  /** `LaneFile.Create` leaves what the steps of a creation leave. */
  lemma CreateIsSteps(s: Sys, p: int, now: Instant, io: Io)
    requires p in s.procs && s.lock.None? && s.procs[p].Waiting? && s.procs[p].job.CreateJob?
    ensures Leaves(Driven(s, p, now, io), p,
                   if s.file.Some? then Effect(s.file, |s.temps|, false)
                   else LinkedIn(|s.temps|, Created(s.hasher, s.procs[p].job.manifest, now), io))
  {
    if s.file.None? {
      FromWaiting(s, p, now, io);
    } else {
      var t := Moved(s, p, Locked(s.procs[p].job, s.procs[p].ground)).(lock := Some(p));
      OneTurn(s, p, now, io, t);
      OneTurn(t, p, now, io, EndedAs(t, p, Failed));
      NoTurn(EndedAs(t, p, Failed), p, now, io);
    }
  }

  /** `LaneFile.Apply` leaves what the steps of a handler's change leave. */
  lemma ApplyIsSteps(s: Sys, p: int, now: Instant, io: Io)
    requires p in s.procs && s.lock.None? && s.procs[p].Calling?
    ensures Leaves(Driven(s, p, now, io), p,
                   Renamed(s.file, |s.temps|, Outcome(s.hasher, s.procs[p].txn, s.file, now), io))
  {
    var t := Moved(s, p, ProposeOn(s.procs[p].txn, s.procs[p].ground, s.file));
    OneTurn(s, p, now, io, t);
    if t.procs[p].Waiting? {
      UpdateIsSteps(t, p, now, io);
    } else {
      NoTurn(t, p, now, io);
    }
  }
}
