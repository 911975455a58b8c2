/** The one-writer lease of a workspace: a lock the system frees when its holder
    dies, and a durable record that outlives its holder. Any number of `agent run`
    processes interleave step by step and may fail or die at any of them. */
module LeaseSystem {
  import opened Wrappers

  datatype Stage =
    | Detecting              // before DetectAbandoned looks for the record
    | Probing                // the record was there; before its trial of the lock
    | Abandoned              // reported an abandoned lease
    | Acquiring              // before Acquire tries the lock
    | Examining              // has the lock; before it looks for the record
    | Recording              // before the exclusive creation of the record
    | Recorded               // the record exists but is not yet written and synced
    | Leased                 // Acquire has returned the lease
    | Running                // the agent child has been started
    | Reaped                 // the child has been waited for
    | Releasing              // before Release removes the record
    | Unlocking              // before Release frees the lock
    | Ended
    | Dead

  /** `record` names the process that created the durable record, `children` the
      processes whose direct child is alive. */
  datatype Sys = Sys(lock: Option<int>, record: Option<int>, children: set<int>, procs: map<int, Stage>)

  datatype Action =
    | Spawn(p: int)
    | DetectRecord(p: int)
    | ProbeLock(p: int)
    | DetectFails(p: int)
    | TryLock(p: int)
    | AcquireFails(p: int)
    | ExamineRecord(p: int)
    | CreateRecord(p: int)
    | WriteRecord(p: int, ok: bool)
    | StartChild(p: int, ok: bool)
    | GiveUp(p: int)
    | Reap(p: int)
    | BeginRelease(p: int)
    | RemoveRecord(p: int, ok: bool)
    | Unlock(p: int)
    | Crash(p: int)
    | OrphanExits(p: int)

  predicate Holding(stage: Stage) {
    stage.Examining? || stage.Recording? || stage.Recorded? || stage.Leased? || stage.Running?
    || stage.Reaped? || stage.Releasing? || stage.Unlocking?
  }

  predicate Over(stage: Stage) {
    stage.Ended? || stage.Dead? || stage.Abandoned?
  }

  /** The stages at which `Acquire` has succeeded. */
  predicate Acquired(stage: Stage) {
    stage.Leased? || stage.Running? || stage.Reaped? || stage.Releasing?
  }

  function Moved(s: Sys, p: int, stage: Stage): Sys {
    s.(procs := s.procs[p := stage])
  }

  function Freed(s: Sys, p: int, stage: Stage): Sys {
    s.(procs := s.procs[p := stage], lock := if s.lock == Some(p) then None else s.lock)
  }

  /** `ActiveWorkspace` for the lease object of `p`: its lock is not released and
      a record file is there. */
  predicate ActiveWorkspace(s: Sys, p: int) {
    p in s.procs && s.procs[p].Leased? && s.record.Some?
  }

  function Step(s: Sys, a: Action): Option<Sys> {
    match a
    case Spawn(p) => if p in s.procs then None else Some(Moved(s, p, Detecting))
    case OrphanExits(p) =>
      if p in s.children && p in s.procs && s.procs[p].Dead? then Some(s.(children := s.children - {p})) else None
    case _ => if a.p in s.procs then ProcStep(s, a, s.procs[a.p]) else None
  }

  function ProcStep(s: Sys, a: Action, stage: Stage): Option<Sys> {
    match a
    case DetectRecord(p) =>
      if !stage.Detecting? then None
      else Some(Moved(s, p, if s.record.Some? then Probing else Acquiring))
    case ProbeLock(p) =>
      if !stage.Probing? then None
      else Some(Moved(s, p, if s.lock.None? then Abandoned else Acquiring))
    // An error of the detection other than a report is passed over.
    case DetectFails(p) => if stage.Detecting? || stage.Probing? then Some(Moved(s, p, Acquiring)) else None
    case AcquireFails(p) =>
      if stage.Acquiring? || stage.Examining? || stage.Recording? then Some(Freed(s, p, Ended)) else None
    case TryLock(p) =>
      if !stage.Acquiring? then None
      else if s.lock.Some? then Some(Moved(s, p, Ended))
      else Some(Moved(s, p, Examining).(lock := Some(p)))
    case ExamineRecord(p) =>
      if !stage.Examining? then None
      else if s.record.Some? then Some(Freed(s, p, Ended))
      else Some(Moved(s, p, Recording))
    case CreateRecord(p) =>
      if !stage.Recording? then None
      else if s.record.Some? then Some(Freed(s, p, Ended))
      else Some(Moved(s, p, Recorded).(record := Some(p)))
    case WriteRecord(p, ok) =>
      if !stage.Recorded? then None
      else if ok then Some(Moved(s, p, Leased)) else Some(Freed(s, p, Ended))
    case StartChild(p, ok) =>
      if !stage.Leased? then None
      else if ok && ActiveWorkspace(s, p) then Some(Moved(s, p, Running).(children := s.children + {p}))
      else Some(Moved(s, p, Releasing))
    case GiveUp(p) => if stage.Leased? then Some(Moved(s, p, Releasing)) else None
    case Reap(p) => if stage.Running? then Some(Moved(s, p, Reaped).(children := s.children - {p})) else None
    case BeginRelease(p) => if stage.Reaped? then Some(Moved(s, p, Releasing)) else None
    case RemoveRecord(p, ok) =>
      if !stage.Releasing? then None
      else if ok then Some(Moved(s, p, Unlocking).(record := None)) else Some(Moved(s, p, Unlocking))
    case Unlock(p) => if stage.Unlocking? then Some(Freed(s, p, Ended)) else None
    case Crash(p) => if Over(stage) then None else Some(Freed(s, p, Dead))
    case _ => None
  }

  const INIT := Sys(None, None, {}, map[])

  function Run(actions: seq<Action>): Option<Sys> {
    if actions == [] then Some(INIT)
    else
      match Run(actions[..|actions| - 1])
      case None => None
      case Some(s) => Step(s, actions[|actions| - 1])
  }
}
