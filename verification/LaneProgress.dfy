/** Operations that are left alone: that they end, and how they end. */
module LaneProgress {
  import opened Wrappers
  import opened Manifest
  import opened Evidence
  import opened Policy
  import opened LaneSystem
  import opened LaneInvariant
  import opened LaneSteps
  import L = Lifecycle

  ghost function Steps(s: Sys, actions: seq<Action>): Option<Sys> {
    if actions == [] then Some(s)
    else
      match Steps(s, actions[..|actions| - 1])
      case None => None
      case Some(t) => Step(t, actions[|actions| - 1])
  }

  /** A step of this process, and neither an error nor its death. */
  predicate Own(a: Action, p: int) {
    match a
    case OtherReceipt(_, _) => false
    case Fail(_, _) => false
    case Crash(_) => false
    case _ => a.p == p
  }

  /** Nothing happens but the process's own steps. */
  predicate Alone(actions: seq<Action>, p: int) {
    forall i :: 0 <= i < |actions| ==> Own(actions[i], p)
  }

  lemma {:induction false} StepsInv(s: Sys, actions: seq<Action>)
    requires Inv(s) && Steps(s, actions).Some?
    ensures Inv(Steps(s, actions).value)
  {
    if actions != [] {
      var before := actions[..|actions| - 1];
      StepsInv(s, before);
      StepInv(Steps(s, before).value, actions[|actions| - 1]);
    }
  }

  // ---------- Left alone, a process ends ----------

  /** How many steps a process has before it at most. */
  function Distance(stage: Stage): nat {
    match stage
    case Starting(_) => 11
    case Checking(_, _) => 10
    case Adding(_, _) => 9
    case Calling(_, _) => 8
    case Waiting(_, _) => 7
    case Locked(_, _) => 6
    case Writing(phase, _, _, _) =>
      (match phase
       case Checked => 5
       case Scanned => 4
       case Staged => 3
       case Linked => 2
       case Installed => 1)
    case _ => 0
  }

  /** What the world supplies to the steps of one process. */
  datatype Supply = Supply(world: World, hash: string, stamp: Instant, now: Instant)

  function NextAction(stage: Stage, p: int, w: Supply): Action {
    match stage
    case Starting(_) => Load(p)
    case Checking(_, _) => Check(p, w.world)
    case Adding(_, _) => AddReceipt(p, w.hash, w.stamp, true)
    case Calling(_, _) => Propose(p)
    case Waiting(_, _) => TakeLock(p)
    case Locked(_, _) => CheckUpdate(p, w.now)
    case Writing(phase, _, _, _) =>
      (match phase
       case Checked => Scan(p)
       case Scanned => LaneSystem.Action.Stage(p)
       case Staged => Install(p)
       case Linked => Unlink(p)
       case Installed => Finish(p))
    case _ => Finish(p)
  }

  /** No other process holds the lock. */
  predicate LockFree(s: Sys, p: int) {
    s.lock.None? || s.lock == Some(p)
  }

  lemma StartNearer(command: Command, file: Option<Manifest>)
    ensures Distance(Start(command, file)) < 11
  {
  }

  lemma DecideNearer(command: Command, m: Manifest, world: World, receipts: Receipts)
    ensures Distance(Decide(command, m, world, receipts)) < 10
  {
  }

  lemma AddNearer(s: Sys, p: int, stage: Stage, hash: string, stamp: Instant)
    requires stage.Adding?
    ensures var t := AddReceiptStep(s, p, stage, hash, stamp, true);
            p in t.procs && t.lock == s.lock && Distance(t.procs[p]) < 9
  {
  }

  /** What a step of process `p` leaves when it came nearer to the end. */
  predicate Nearer(s: Sys, t: Option<Sys>, p: int) {
    && t.Some? && p in s.procs && p in t.value.procs && LockFree(t.value, p)
    && Distance(t.value.procs[p]) < Distance(s.procs[p])
  }

  lemma NextEarly(s: Sys, p: int, w: Supply)
    requires p in s.procs && LockFree(s, p)
    requires var g := s.procs[p]; g.Starting? || g.Checking? || g.Adding? || g.Calling?
    ensures var a := NextAction(s.procs[p], p, w); Own(a, p) && Nearer(s, Step(s, a), p)
  {
    var g := s.procs[p];
    if g.Starting? {
      StartNearer(g.command, s.file);
    } else if g.Checking? {
      DecideNearer(g.command, g.seen, w.world, s.receipts);
    } else if g.Adding? {
      AddNearer(s, p, g, w.hash, w.stamp);
    }
  }

  lemma NextLocked(s: Sys, p: int, w: Supply)
    requires p in s.procs && LockFree(s, p) && (s.procs[p].Waiting? ==> s.lock.None?)
    requires s.procs[p].Waiting? || s.procs[p].Locked?
    ensures var a := NextAction(s.procs[p], p, w); Own(a, p) && Nearer(s, Step(s, a), p)
  {
  }

  lemma NextWriting(s: Sys, p: int, w: Supply)
    requires p in s.procs && LockFree(s, p) && s.procs[p].Writing?
    ensures var a := NextAction(s.procs[p], p, w); Own(a, p) && Nearer(s, Step(s, a), p)
  {
  }

  /** There is always a next step of one's own, and it comes nearer to the end. */
  lemma NextStep(s: Sys, p: int, w: Supply)
    requires LockOk(s) && p in s.procs && !Ended(s.procs[p]) && LockFree(s, p)
    ensures var a := NextAction(s.procs[p], p, w); Own(a, p) && Nearer(s, Step(s, a), p)
  {
    if s.procs[p].Writing? {
      NextWriting(s, p, w);
    } else if s.procs[p].Waiting? || s.procs[p].Locked? {
      NextLocked(s, p, w);
    } else {
      NextEarly(s, p, w);
    }
  }

  lemma {:induction false} AfterFirst(s: Sys, a: Action, u: Sys, more: seq<Action>)
    requires Step(s, a) == Some(u)
    ensures Steps(s, [a] + more) == Steps(u, more)
    decreases |more|
  {
    var all := [a] + more;
    if more == [] {
      assert all[..|all| - 1] == [];
    } else {
      var n := |more| - 1;
      AfterFirst(s, a, u, more[..n]);
      assert all[..|all| - 1] == [a] + more[..n];
    }
  }

  /** The checks of a handler are made on this world. */
  predicate Supplied(actions: seq<Action>, world: World) {
    forall i :: 0 <= i < |actions| && actions[i].Check? ==> actions[i].world == world
  }

  /** Every operation, at whatever stage, has a run of its own steps that ends it,
      unless another process holds the lock. */
  lemma AloneEnds(s: Sys, p: int, w: Supply) returns (actions: seq<Action>, t: Sys)
    requires Inv(s) && p in s.procs && LockFree(s, p)
    ensures Alone(actions, p) && Steps(s, actions) == Some(t) && p in t.procs && Ended(t.procs[p])
    ensures Supplied(actions, w.world)
    decreases Distance(s.procs[p])
  {
    if Ended(s.procs[p]) {
      actions, t := [], s;
    } else {
      var a := NextAction(s.procs[p], p, w);
      NextStep(s, p, w);
      StepInv(s, a);
      var u := Step(s, a).value;
      var more;
      more, t := AloneEnds(u, p, w);
      AfterFirst(s, a, u, more);
      AloneFirst(a, more, p, w.world);
      actions := [a] + more;
    }
  }

  lemma AloneFirst(a: Action, more: seq<Action>, p: int, world: World)
    requires Own(a, p) && Alone(more, p) && (a.Check? ==> a.world == world) && Supplied(more, world)
    ensures Alone([a] + more, p) && Supplied([a] + more, world)
  {
  }

  // ---------- How an update ends ----------

  /** The file still holds the base, the record fits, and there is no residue. */
  predicate Goes(s: Sys, job: Job)
    requires job.ChangeJob?
  {
    s.file == Some(job.base) && Fitting(job.base, job.txn.mutator) && s.temps == {}
  }

  predicate Refreshed(job: Job, m: Manifest)
    requires job.ChangeJob?
  {
    m == job.proposal.(updatedAt := m.updatedAt)
  }

  predicate Untouched(s: Sys, t: Sys) {
    t.file == s.file && t.temps == s.temps
  }

  /** Where a write that began in `s` stands in `t`. */
  predicate PhaseAlong(s: Sys, t: Sys, p: int, job: Job, phase: Phase, next: Manifest)
    requires job.ChangeJob?
  {
    match phase
    case Checked => s.file == Some(job.base) && Fitting(job.base, job.txn.mutator) && Untouched(s, t)
    case Scanned => Goes(s, job) && Untouched(s, t)
    case Staged => Goes(s, job) && t.file == s.file && t.temps == {p}
    case Linked => false
    case Installed => Goes(s, job) && t.file == Some(next) && t.temps == {}
  }

  /** Where an update that waited for the lock in `s` stands in `t`. */
  ghost predicate Along(s: Sys, t: Sys, p: int, job: Job)
    requires job.ChangeJob?
  {
    p in t.procs && t.hasher == s.hasher &&
    match t.procs[p]
    case Waiting(j, _) => j == job && Untouched(s, t) && t.lock.None?
    case Locked(j, _) => j == job && Untouched(s, t) && t.lock == Some(p)
    case Writing(phase, j, next, _) =>
      j == job && Refreshed(job, next) && t.lock == Some(p) && PhaseAlong(s, t, p, job, phase, next)
    case Succeeded(j, m) =>
      j == job && Refreshed(job, m) && Goes(s, job) && t.file == Some(m) && t.temps == {} && t.lock.None?
    case Failed => !Goes(s, job) && Untouched(s, t) && t.lock.None?
    case _ => false
  }

  lemma CheckedContent(s: Sys, job: Job, now: Instant)
    requires HistoryOk(s) && job.ChangeJob? && Named(job.txn) && Proposal(job.txn, job.base) == Some(job.proposal)
    ensures NextContent(s.hasher, job, s.file, now) ==
            if s.file == Some(job.base) && Fitting(job.base, job.txn.mutator) then Some(job.proposal.(updatedAt := now))
            else None
  {
    if s.file == Some(job.base) {
      FileTidy(s);
      UpdateExact(s.hasher, job.txn, job.base, now);
    }
  }

  /** The checks under the lock. */
  lemma AlongCheck(s: Sys, t: Sys, p: int, job: Job, now: Instant)
    requires HistoryOk(s) && job.ChangeJob? && Named(job.txn) && Proposal(job.txn, job.base) == Some(job.proposal)
    requires Along(s, t, p, job) && t.procs[p].Locked?
    ensures Along(s, CheckUpdateStep(t, p, t.procs[p], now), p, job)
  {
    CheckedContent(s, job, now);
  }

  lemma AlongWrite(s: Sys, t: Sys, p: int, job: Job, a: Action)
    requires job.ChangeJob? && Along(s, t, p, job) && t.procs[p].Writing?
    requires Own(a, p) && Step(t, a).Some?
    ensures Along(s, Step(t, a).value, p, job)
  {
    var stage := t.procs[p];
    if stage.phase.Staged? {
      assert t.temps - {p} == {};
    }
  }

  lemma AlongStep(s: Sys, t: Sys, p: int, job: Job, a: Action)
    requires HistoryOk(s) && job.ChangeJob? && Named(job.txn) && Proposal(job.txn, job.base) == Some(job.proposal)
    requires Along(s, t, p, job) && Own(a, p) && Step(t, a).Some?
    ensures Along(s, Step(t, a).value, p, job)
  {
    if t.procs[p].Writing? {
      AlongWrite(s, t, p, job, a);
    } else if t.procs[p].Locked? {
      AlongCheck(s, t, p, job, a.now);
    }
  }

  lemma {:induction false} AlongRun(s: Sys, actions: seq<Action>, p: int, job: Job)
    requires HistoryOk(s) && job.ChangeJob? && Named(job.txn) && Proposal(job.txn, job.base) == Some(job.proposal)
    requires Along(s, s, p, job) && Alone(actions, p) && Steps(s, actions).Some?
    ensures Along(s, Steps(s, actions).value, p, job)
  {
    if actions != [] {
      var n := |actions| - 1;
      assert Own(actions[n], p);
      AlongRun(s, actions[..n], p, job);
      AlongStep(s, Steps(s, actions[..n]).value, p, job, actions[n]);
    }
  }

  /** Every run of its own steps that ends an update waiting for a free lock ends it the
      same way: it succeeds exactly when the file still holds the base, the record fits
      and there is no residue. Then the proposal is in the file with the time refreshed;
      otherwise nothing has changed. Such a run exists (`AloneEnds`). */
  lemma {:induction false} SoloUpdate(s: Sys, p: int, job: Job, actions: seq<Action>)
    requires Inv(s) && s.lock.None? && p in s.procs && s.procs[p].Waiting? && s.procs[p].job == job && job.ChangeJob?
    requires Alone(actions, p) && Steps(s, actions).Some? && p in Steps(s, actions).value.procs
    requires Ended(Steps(s, actions).value.procs[p])
    ensures var t := Steps(s, actions).value;
      && t.lock.None?
      && if s.file == Some(job.base) && Fitting(job.base, job.txn.mutator) && s.temps == {} then
           && t.procs[p].Succeeded? && t.procs[p].job == job && t.file == Some(t.procs[p].result) && t.temps == {}
           && t.procs[p].result == job.proposal.(updatedAt := t.procs[p].result.updatedAt)
         else t.procs[p] == Failed && t.file == s.file && t.temps == s.temps
  {
    assert StageOk(s, p, s.procs[p]);
    AlongRun(s, actions, p, job);
  }

  // ---------- How a command ends ----------

  /** The change a command makes of this lane, if it makes one. Adding evidence first needs
      the receipt. */
  ghost function Wanted(c: Command, m: Manifest, world: World, receipts: Receipts): Option<Txn> {
    var stage := if c.LaneTransition? then Start(c, Some(m)) else Decide(c, m, world, receipts);
    if stage.Calling? then Some(stage.txn) else None
  }

  /** Whatever world a check of this command sees, it wants this change. */
  ghost predicate DecidesOn(a: Action, c: Command, m: Manifest, receipts: Receipts, w: Option<Txn>) {
    match a
    case Check(_, world) => Wanted(c, m, world, receipts) == w
    case _ => true
  }

  ghost predicate AllDecideOn(actions: seq<Action>, c: Command, m: Manifest, receipts: Receipts, w: Option<Txn>) {
    forall i :: 0 <= i < |actions| ==> DecidesOn(actions[i], c, m, receipts, w)
  }

  predicate Before(s: Sys, t: Sys) {
    Untouched(s, t) && t.receipts == s.receipts && t.lock.None?
  }

  /** The change applies to the lane, its record fits, and there is no residue. */
  predicate Takes(s: Sys, m: Manifest, w: Option<Txn>) {
    w.Some? && Proposal(w.value, m).Some? && Fitting(m, w.value.mutator) && s.temps == {}
  }

  predicate Applies(m: Manifest, w: Option<Txn>) {
    w.Some? && Named(w.value) && Proposal(w.value, m).Some?
  }

  function JobOf(m: Manifest, w: Txn): Job
    requires Proposal(w, m).Some?
  {
    ChangeJob(w, m, Proposal(w, m).value)
  }

  /** Where a command that began in `s` on lane `m` stands in `t`. */
  ghost predicate CommandAlong(s: Sys, t: Sys, p: int, c: Command, m: Manifest, w: Option<Txn>) {
    p in t.procs && t.hasher == s.hasher &&
    match t.procs[p]
    case Starting(d) => d == c && Before(s, t)
    case Checking(d, seen) => d == c && seen == m && !c.LaneTransition? && Before(s, t)
    case Calling(txn, _) => w == Some(txn) && Named(txn) && Before(s, t)
    case Failed => !Takes(s, m, w) && Untouched(s, t) && t.lock.None?
    case Adding(_, _) => false
    case Dead => false
    case _ => Applies(m, w) && Along(s, t, p, JobOf(m, w.value))
  }

  /** A command on a lane that is there, other than the one that first adds a receipt. */
  predicate Direct(c: Command) {
    !c.LaneOpen? && !c.EvidenceAdd?
  }

  lemma WantedNamed(c: Command, m: Manifest, world: World, receipts: Receipts)
    requires Direct(c)
    ensures Wanted(c, m, world, receipts).Some? ==> Named(Wanted(c, m, world, receipts).value)
  {
  }

  lemma DecidedStage(c: Command, m: Manifest, world: World, receipts: Receipts)
    requires Direct(c) && !c.LaneTransition?
    ensures var stage := Decide(c, m, world, receipts); stage.Calling? || stage == Failed
  {
  }

  lemma StartedStage(c: Command, m: Manifest, world: World, receipts: Receipts)
    requires Direct(c)
    ensures var stage := Start(c, Some(m));
      if c.LaneTransition? then stage == Failed || stage.Calling? else stage == Checking(c, m)
  {
  }

  lemma CommandStarts(s: Sys, t: Sys, p: int, c: Command, m: Manifest, w: Option<Txn>, world: World)
    requires s.file == Some(m) && Direct(c) && CommandAlong(s, t, p, c, m, w) && t.procs[p].Starting?
    requires c.LaneTransition? ==> w == Wanted(c, m, world, s.receipts)
    ensures CommandAlong(s, Moved(t, p, Start(c, t.file)), p, c, m, w)
  {
    StartedStage(c, m, world, s.receipts);
    WantedNamed(c, m, world, s.receipts);
  }

  lemma CommandChecks(s: Sys, t: Sys, p: int, c: Command, m: Manifest, w: Option<Txn>, world: World)
    requires Direct(c) && CommandAlong(s, t, p, c, m, w) && t.procs[p].Checking?
    requires w == Wanted(c, m, world, s.receipts)
    ensures CommandAlong(s, Moved(t, p, Decide(c, m, world, t.receipts)), p, c, m, w)
  {
    DecidedStage(c, m, world, s.receipts);
    WantedNamed(c, m, world, s.receipts);
  }

  lemma CommandCalls(s: Sys, t: Sys, p: int, c: Command, m: Manifest, w: Option<Txn>)
    requires s.file == Some(m) && CommandAlong(s, t, p, c, m, w) && t.procs[p].Calling?
    ensures CommandAlong(s, Moved(t, p, ProposeOn(t.procs[p].txn, t.procs[p].ground, t.file)), p, c, m, w)
  {
  }

  lemma CommandWrites(s: Sys, t: Sys, p: int, c: Command, m: Manifest, w: Option<Txn>, a: Action)
    requires HistoryOk(s) && s.file == Some(m) && CommandAlong(s, t, p, c, m, w)
    requires t.procs[p].Waiting? || t.procs[p].Locked? || t.procs[p].Writing?
    requires Own(a, p) && Step(t, a).Some?
    ensures CommandAlong(s, Step(t, a).value, p, c, m, w)
  {
    AlongStep(s, t, p, JobOf(m, w.value), a);
  }

  lemma CommandStep(s: Sys, t: Sys, p: int, c: Command, m: Manifest, w: Option<Txn>, world: World, a: Action)
    requires HistoryOk(s) && s.file == Some(m) && Direct(c) && CommandAlong(s, t, p, c, m, w)
    requires c.LaneTransition? ==> w == Wanted(c, m, world, s.receipts)
    requires Own(a, p) && DecidesOn(a, c, m, s.receipts, w) && Step(t, a).Some?
    ensures CommandAlong(s, Step(t, a).value, p, c, m, w)
  {
    var stage := t.procs[p];
    if stage.Starting? {
      CommandStarts(s, t, p, c, m, w, world);
    } else if stage.Checking? {
      CommandChecks(s, t, p, c, m, w, a.world);
    } else if stage.Calling? {
      CommandCalls(s, t, p, c, m, w);
    } else if !Ended(stage) {
      CommandWrites(s, t, p, c, m, w, a);
    }
  }

  lemma {:induction false} CommandRun(
      s: Sys, actions: seq<Action>, p: int, c: Command, m: Manifest, w: Option<Txn>, world: World)
    requires HistoryOk(s) && s.file == Some(m) && Direct(c) && CommandAlong(s, s, p, c, m, w)
    requires c.LaneTransition? ==> w == Wanted(c, m, world, s.receipts)
    requires Alone(actions, p) && AllDecideOn(actions, c, m, s.receipts, w) && Steps(s, actions).Some?
    ensures CommandAlong(s, Steps(s, actions).value, p, c, m, w)
  {
    if actions != [] {
      var n := |actions| - 1;
      assert Own(actions[n], p) && DecidesOn(actions[n], c, m, s.receipts, w);
      CommandRun(s, actions[..n], p, c, m, w, world);
      CommandStep(s, Steps(s, actions[..n]).value, p, c, m, w, world, actions[n]);
    }
  }

  /** What a command leaves that wanted this change of this lane. */
  predicate EndsAs(s: Sys, t: Sys, p: int, m: Manifest, w: Option<Txn>)
    requires p in t.procs
  {
    t.lock.None? &&
    if Takes(s, m, w) then
      && t.procs[p].Succeeded? && t.file == Some(t.procs[p].result) && t.temps == {}
      && t.procs[p].result == Proposal(w.value, m).value.(updatedAt := t.procs[p].result.updatedAt)
    else t.procs[p] == Failed && t.file == s.file && t.temps == s.temps
  }

  /** Every run of its own steps that ends a command begun under a free lock ends it the same
      way: it succeeds exactly when it wants a change, the change applies to the lane, its
      record fits and there is no residue. Then that change is in the file, with the time
      refreshed; otherwise nothing has changed at all. */
  lemma SoloCommand(s: Sys, p: int, c: Command, m: Manifest, w: Option<Txn>, world: World, actions: seq<Action>)
    requires Inv(s) && s.lock.None? && p in s.procs && s.procs[p] == Starting(c) && s.file == Some(m) && Direct(c)
    requires c.LaneTransition? ==> w == Wanted(c, m, world, s.receipts)
    requires Alone(actions, p) && AllDecideOn(actions, c, m, s.receipts, w) && Steps(s, actions).Some?
    requires p in Steps(s, actions).value.procs && Ended(Steps(s, actions).value.procs[p])
    ensures EndsAs(s, Steps(s, actions).value, p, m, w)
  {
    CommandRun(s, actions, p, c, m, w, world);
  }

  // ---------- How `ready` ends ----------

  const READY_TXN := Txn(NO_EXPECTATION, Some(L.MarkReady), NoChange)

  /** The fingerprint, as a check on lane `m` sees it, is this one throughout. */
  predicate Sees(actions: seq<Action>, m: Manifest, current: Fingerprint) {
    forall i :: 0 <= i < |actions| ==> SeenBy(actions[i], m, current)
  }

  predicate SeenBy(a: Action, m: Manifest, current: Fingerprint) {
    match a
    case Check(_, world) => world.current.(manifestHash := m.dispatchHash) == current
    case _ => true
  }

  lemma ReadyDecides(actions: seq<Action>, m: Manifest, current: Fingerprint, receipts: Receipts)
    requires Sees(actions, m, current)
    ensures AllDecideOn(actions, Ready, m, receipts, if Approved(m, current, receipts) then Some(READY_TXN) else None)
  {
    forall i | 0 <= i < |actions|
      ensures DecidesOn(actions[i], Ready, m, receipts,
                        if Approved(m, current, receipts) then Some(READY_TXN) else None)
    {
      assert SeenBy(actions[i], m, current);
    }
  }

  lemma ReadyTakes(s: Sys, m: Manifest, current: Fingerprint)
    requires Approved(m, current, s.receipts) && Valid(s.hasher, m)
    ensures Takes(s, m, Some(READY_TXN)) <==> s.temps == {}
    ensures Proposal(READY_TXN, m) == Some(m.(state := L.Ready))
  {
  }

  /** `ready` succeeds exactly when the lane on disk is approved for the current fingerprint
      and there is no residue. Then the lane is READY with the time refreshed and nothing
      else in it has changed; otherwise nothing has changed at all. */
  lemma SoloReady(s: Sys, p: int, m: Manifest, current: Fingerprint, actions: seq<Action>)
    requires Inv(s) && s.lock.None? && p in s.procs && s.procs[p] == Starting(Ready) && s.file == Some(m)
    requires Alone(actions, p) && Sees(actions, m, current) && Steps(s, actions).Some?
    requires p in Steps(s, actions).value.procs && Ended(Steps(s, actions).value.procs[p])
    ensures var t := Steps(s, actions).value;
      && t.lock.None?
      && if Approved(m, current, s.receipts) && s.temps == {} then
           && t.procs[p].Succeeded? && t.file == Some(t.procs[p].result) && t.temps == {}
           && t.procs[p].result == m.(state := L.Ready, updatedAt := t.procs[p].result.updatedAt)
         else t.procs[p] == Failed && t.file == s.file && t.temps == s.temps
  {
    FileTidy(s);
    var w := if Approved(m, current, s.receipts) then Some(READY_TXN) else None;
    ReadyDecides(actions, m, current, s.receipts);
    SoloCommand(s, p, Ready, m, w, World(current, 0, false), actions);
    if w.Some? {
      ReadyTakes(s, m, current);
    }
  }
}
