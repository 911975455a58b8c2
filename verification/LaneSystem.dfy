/** One lane file worked on by any number of command processes that interleave
    step by step and may fail or die at any of them. */
module LaneSystem {
  import opened Wrappers
  import opened Manifest
  import opened Evidence
  import opened Policy
  import opened LaneLog
  import L = Lifecycle

  // ---------- Processes ----------

  /** The command handlers, each with its flags. */
  datatype Command =
    | LaneOpen(laneId: string, dispatch: Dispatch)
    | Freeze(freezeHash: ContentHash)
    | EvidenceAdd(receipt: Receipt)
    | ReviewRecord(input: ReviewInput)
    | Ready
    | Close(closeHash: ContentHash)
    | LaneTransition(event: L.Event, priorHash: ContentHash)
    | AgentBlock

  /** Why a process makes its change: what it saw and decided on. */
  datatype Ground =
    | Unconditional
    | OnEvidence(seen: Manifest)
    | OnReview(seen: Manifest, input: ReviewInput, current: Fingerprint)
    | OnReady(seen: Manifest, current: Fingerprint)

  /** What is handed to the store: a manifest for `Create`, or the proposal made
      from the content loaded without the lock, for `Update`. */
  datatype Job =
    | CreateJob(manifest: Manifest)
    | ChangeJob(txn: Txn, base: Manifest, proposal: Manifest)

  /** The steps of a write under the lock; `Linked` is passed by `Create` only. */
  datatype Phase = Checked | Scanned | Staged | Linked | Installed

  datatype Stage =
    | Starting(command: Command)
    | Checking(command: Command, seen: Manifest)
    | Adding(seen: Manifest, receipt: Receipt)
    | Calling(txn: Txn, ground: Ground)
    | Waiting(job: Job, ground: Ground)
    | Locked(job: Job, ground: Ground)
    | Writing(phase: Phase, job: Job, next: Manifest, ground: Ground)
    | Succeeded(job: Job, result: Manifest)
    | Failed
    | Dead

  /** The state root as far as this lane goes. `temps` names the processes whose
      temporary file exists; `log` is a record of installs that nothing reads. */
  datatype Sys = Sys(
    hasher: Hasher,
    file: Option<Manifest>,
    temps: set<int>,
    lock: Option<int>,
    receipts: Receipts,
    procs: map<int, Stage>,
    log: Log)

  /** What the world supplies to a check. */
  datatype World = World(current: Fingerprint, now: Instant, abandoned: bool)

  datatype Action =
    | Spawn(p: int, command: Command)
    | Load(p: int)
    | Check(p: int, world: World)
    | AddReceipt(p: int, hash: string, stamp: Instant, synced: bool)
    | OtherReceipt(hash: string, receipt: Receipt)
    | Propose(p: int)
    | TakeLock(p: int)
    | CheckUpdate(p: int, now: Instant)
    | Scan(p: int)
    | Stage(p: int)
    | Install(p: int)
    | Unlink(p: int)
    | Finish(p: int)
    | Fail(p: int, cleaned: bool)
    | Crash(p: int)

  // ---------- Deciding ----------

  const NO_EXPECTATION := ExpectedHash(NoHash, false)

  predicate NoEmptyValue(list: Option<seq<string>>) {
    list.Some? && "" !in list.value
  }

  /** `completeDispatch`, apart from the shape of the lane name. */
  predicate CompleteDispatch(d: Dispatch) {
    && DispatchComplete(d) && d.maxSeconds >= 0 && d.maxOutputBytes >= 0 && d.maxMemoryBytes >= 0
    && NoEmptyValue(d.allowedPaths) && NoEmptyValue(d.forbiddenPaths)
    && NoEmptyValue(d.nonGoals) && NoEmptyValue(d.requiredChecks)
  }

  /** What a handler does first: `lane open` and the transitions load nothing. */
  function Start(command: Command, file: Option<Manifest>): Stage {
    match command
    case LaneOpen(id, d) =>
      if CompleteDispatch(d) then Waiting(CreateJob(OpenManifest(id, d)), Unconditional) else Failed
    case LaneTransition(event, prior) =>
      if prior.NoHash? || !(event.Block? || event.Resume? || event.Abandon? || event.IncidentEvent?) then Failed
      else Calling(Txn(ExpectedHash(prior, true), Some(event), NoChange), Unconditional)
    case _ => if file.Some? then Checking(command, file.value) else Failed
  }

  function FreezeOf(f: Fingerprint, now: Instant): FreezeRecord {
    FreezeRecord(f.base, f.head, f.equivalent, f.tree, f.diff, now)
  }

  /** What a handler decides on the lane it loaded. */
  ghost function Decide(command: Command, m: Manifest, world: World, receipts: Receipts): Stage {
    var current := world.current.(manifestHash := m.dispatchHash);
    match command
    case Freeze(expected) =>
      if m.state != L.Active then Failed
      else
        var record := FreezeOf(current, world.now);
        Calling(Txn(ExpectedHash(expected, false), Some(L.Freeze), SetFreeze(record)), Unconditional)
    case EvidenceAdd(r) =>
      if m.state != L.Frozen || m.freeze.None? || r.methodId in Names(m.evidence) then Failed
      else Adding(m, r.(candidateHash := m.freeze.value.candidate, manifestHash := m.dispatchHash))
    case ReviewRecord(input) =>
      if !ReviewGate(m, input, current, receipts) then Failed
      else
        var record := ReviewOf(m, input);
        Calling(Txn(NO_EXPECTATION, Some(L.RecordReview), SetReview(record)), OnReview(m, input, current))
    case Ready =>
      if !Approved(m, current, receipts) then Failed
      else Calling(Txn(NO_EXPECTATION, Some(L.MarkReady), NoChange), OnReady(m, current))
    case Close(expected) =>
      if m.state != L.Ready then Failed
      else Calling(Txn(ExpectedHash(expected, false), Some(L.Close), NoChange), Unconditional)
    case AgentBlock =>
      if m.state != L.Active || !world.abandoned then Failed
      else Calling(Txn(NO_EXPECTATION, Some(L.Block), NoChange), Unconditional)
    case _ => Failed
  }

  /** The unlocked half of `Apply` and `Mutate`. */
  function ProposeOn(txn: Txn, ground: Ground, file: Option<Manifest>): Stage {
    if file.None? || Proposal(txn, file.value).None? then Failed
    else Waiting(ChangeJob(txn, file.value, Proposal(txn, file.value).value), ground)
  }

  /** The content to store, computed under the lock; None is any refusal. */
  function NextContent(hasher: Hasher, job: Job, file: Option<Manifest>, now: Instant): Option<Manifest> {
    match job
    case CreateJob(m) => if file.Some? then None else Created(hasher, m, now)
    case ChangeJob(_, base, proposal) =>
      if file.None? then None else Updated(hasher, base, file.value, proposal, now)
  }

  function CommitOf(p: int, job: Job, next: Manifest): Commit {
    Commit(p, if job.ChangeJob? then Some(job.txn) else None, next)
  }

  predicate Holding(stage: Stage) {
    stage.Locked? || stage.Writing?
  }

  predicate Ended(stage: Stage) {
    stage.Succeeded? || stage.Failed? || stage.Dead?
  }

  // ---------- Steps ----------

  function Moved(s: Sys, p: int, stage: Stage): Sys {
    s.(procs := s.procs[p := stage])
  }

  /** A process ends and lets go of the lock if it holds it. */
  function EndedAs(s: Sys, p: int, stage: Stage): Sys {
    s.(procs := s.procs[p := stage], lock := if s.lock == Some(p) then None else s.lock)
  }

  function CheckUpdateStep(s: Sys, p: int, stage: Stage, now: Instant): Sys
    requires stage.Locked?
  {
    match NextContent(s.hasher, stage.job, s.file, now)
    case None => EndedAs(s, p, Failed)
    case Some(next) => Moved(s, p, Writing(Checked, stage.job, next, stage.ground))
  }

  /** The residue scan: any temporary of this lane stops the write. */
  function ScanStep(s: Sys, p: int, stage: Stage): Sys
    requires stage.Writing?
  {
    if s.temps != {} then EndedAs(s, p, Failed) else Moved(s, p, stage.(phase := Scanned))
  }

  function StageStep(s: Sys, p: int, stage: Stage): Sys
    requires stage.Writing?
  {
    Moved(s, p, stage.(phase := Staged)).(temps := s.temps + {p})
  }

  /** Rename replaces the file and takes the temporary away; link needs the name
      free and leaves the temporary. */
  function InstallStep(s: Sys, p: int, stage: Stage): Sys
    requires stage.Writing?
  {
    if stage.job.CreateJob? && s.file.Some? then EndedAs(s, p, Failed).(temps := s.temps - {p})
    else
      var installed := s.(file := Some(stage.next), log := s.log + [CommitOf(p, stage.job, stage.next)]);
      if stage.job.CreateJob? then Moved(installed, p, stage.(phase := Linked))
      else Moved(installed, p, stage.(phase := Installed)).(temps := s.temps - {p})
  }

  /** Adding a receipt: absent, installed; present, compared. */
  ghost function AddReceiptStep(s: Sys, p: int, stage: Stage, hash: string, stamp: Instant, synced: bool): Sys
    requires stage.Adding?
  {
    var r := stage.receipt.(timestamp := stamp);
    if !IsHash(hash) || !ReceiptValid(r) || (hash in s.receipts && s.receipts[hash] != r) then Moved(s, p, Failed)
    else
      var added := s.(receipts := s.receipts[hash := r]);
      if !synced || hash in Hashes(stage.seen.evidence) then Moved(added, p, Failed)
      else
        var append := AppendEvidence(EvidenceReference(r.methodId, hash));
        Moved(added, p, Calling(Txn(NO_EXPECTATION, None, append), OnEvidence(stage.seen)))
  }

  function OtherReceiptStep(s: Sys, hash: string, r: Receipt): Sys {
    if hash in s.receipts || !IsHash(hash) || !ReceiptValid(r) then s else s.(receipts := s.receipts[hash := r])
  }

  /** One step of the system; None when the action is not enabled. */
  ghost function Step(s: Sys, a: Action): Option<Sys> {
    match a
    case Spawn(p, command) => if p in s.procs then None else Some(Moved(s, p, Starting(command)))
    case OtherReceipt(h, r) => Some(OtherReceiptStep(s, h, r))
    case _ =>
      if a.p !in s.procs then None else ProcStep(s, a, s.procs[a.p])
  }

  ghost function ProcStep(s: Sys, a: Action, stage: Stage): Option<Sys>
    requires !a.Spawn? && !a.OtherReceipt?
  {
    match a
    case Load(p) => if stage.Starting? then Some(Moved(s, p, Start(stage.command, s.file))) else None
    case Check(p, world) =>
      if stage.Checking? then Some(Moved(s, p, Decide(stage.command, stage.seen, world, s.receipts))) else None
    case AddReceipt(p, h, stamp, synced) =>
      if stage.Adding? then Some(AddReceiptStep(s, p, stage, h, stamp, synced)) else None
    case Propose(p) => if stage.Calling? then Some(Moved(s, p, ProposeOn(stage.txn, stage.ground, s.file))) else None
    case TakeLock(p) =>
      if !stage.Waiting? || s.lock.Some? then None
      else Some(Moved(s, p, Locked(stage.job, stage.ground)).(lock := Some(p)))
    case CheckUpdate(p, now) => if stage.Locked? then Some(CheckUpdateStep(s, p, stage, now)) else None
    case Scan(p) => if stage.Writing? && stage.phase.Checked? then Some(ScanStep(s, p, stage)) else None
    case Stage(p) => if stage.Writing? && stage.phase.Scanned? then Some(StageStep(s, p, stage)) else None
    case Install(p) => if stage.Writing? && stage.phase.Staged? then Some(InstallStep(s, p, stage)) else None
    case Unlink(p) =>
      if stage.Writing? && stage.phase.Linked? then
        Some(Moved(s, p, stage.(phase := Installed)).(temps := s.temps - {p}))
      else None
    case Finish(p) =>
      if stage.Writing? && stage.phase.Installed? then Some(EndedAs(s, p, Succeeded(stage.job, stage.next))) else None
    case Fail(p, cleaned) =>
      if Ended(stage) then None
      else Some(EndedAs(s, p, Failed).(temps := if cleaned then s.temps - {p} else s.temps))
    case Crash(p) => if Ended(stage) then None else Some(EndedAs(s, p, Dead))
    case _ => None
  }

  function Init(hasher: Hasher): Sys {
    Sys(hasher, None, {}, None, map[], map[], [])
  }

  /** All the actions in order, from an absent lane; None when one is not enabled. */
  ghost function Run(hasher: Hasher, actions: seq<Action>): Option<Sys> {
    if actions == [] then Some(Init(hasher))
    else
      match Run(hasher, actions[..|actions| - 1])
      case None => None
      case Some(s) => Step(s, actions[|actions| - 1])
  }
}
