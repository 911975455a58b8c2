/** Where commits come from: in every run each one is the change that the command of
    its owner asks for, decided on a lane that was then in the history. */
module LaneOrigins {
  import opened Wrappers
  import opened Order
  import opened Manifest
  import opened Evidence
  import opened Policy
  import opened LaneLog
  import opened LaneSystem
  import opened LaneMeaning
  import opened LaneInvariant
  import opened LaneSteps
  import opened LaneTheorems
  import L = Lifecycle

  // ---------- What a command may change ----------

  /** What has happened up to some moment. */
  datatype Past = Past(hasher: Hasher, actions: seq<Action>, log: Log, receipts: Receipts)

  /** Nothing that had happened has been undone. */
  ghost predicate Extends(a: Past, b: Past) {
    b.hasher == a.hasher && a.actions <= b.actions && a.log <= b.log && Grew(a.receipts, b.receipts)
  }

  /** A check of process `p` was made on this world. */
  predicate Checked(past: Past, p: int, world: World) {
    Check(p, world) in past.actions
  }

  /** `freeze` on an ACTIVE lane: the fields of the fingerprint it computed. */
  predicate FreezeOn(seen: Manifest, world: World, expected: ContentHash, txn: Txn) {
    var f := world.current;
    && seen.state == L.Active
    && txn == Txn(ExpectedHash(expected, false), Some(L.Freeze),
                  SetFreeze(FreezeRecord(f.base, f.head, f.equivalent, f.tree, f.diff, world.now)))
  }

  /** `evidence add` on a FROZEN lane that has neither the name nor the hash: a receipt of
      the method, bound to candidate and dispatch, is installed under the hash. */
  predicate EvidenceOn(seen: Manifest, receipts: Receipts, r: Receipt, h: string, txn: Txn) {
    && seen.state == L.Frozen && seen.freeze.Some? && h in receipts
    && (forall i :: 0 <= i < |seen.evidence| ==> seen.evidence[i].name != r.methodId && seen.evidence[i].hash != h)
    && receipts[h] == r.(candidateHash := seen.freeze.value.candidate, manifestHash := seen.dispatchHash,
                         timestamp := receipts[h].timestamp)
    && txn == Txn(ExpectedHash(NoHash, false), None, AppendEvidence(EvidenceReference(r.methodId, h)))
  }

  /** The word of a reviewer, in lower case, and what is recorded for it. */
  predicate Verdict(word: string, recorded: string) {
    (word in {"pass", "approve", "approved"} && recorded == "PASS")
    || (word in {"fail", "reject", "rejected"} && recorded == "FAIL")
  }

  /** The fingerprint is in every part the one the lane was frozen on. */
  predicate OnCandidate(seen: Manifest, f: Fingerprint) {
    && seen.freeze.Some? && f.base == seen.freeze.value.base && f.head == seen.freeze.value.head
    && f.tree == seen.freeze.value.tree && f.diff == seen.freeze.value.diff
    && f.equivalent == seen.freeze.value.candidate
  }

  /** `review record` on a FROZEN lane that has not drifted, by someone of another family
      and seat: the reviewer's own words and time, the frozen candidate, and the hashes of
      all the evidence, sorted. */
  predicate ReviewOn(seen: Manifest, world: World, input: ReviewInput, r: ReviewRecord, txn: Txn) {
    && seen.state == L.Frozen && OnCandidate(seen, world.current)
    && r.reviewer == input.reviewer && r.family == input.family && r.seatId == input.seatId && r.at == input.at
    && r.reviewer != "" && r.family !in {"", seen.dispatch.family} && r.seatId !in {"", seen.dispatch.seatId}
    && Verdict(input.verdict, r.verdict) && r.fingerprint == seen.freeze.value.candidate
    && Sorted(r.evidenceHashes) && multiset(r.evidenceHashes) == multiset(Hashes(seen.evidence))
    && txn == Txn(ExpectedHash(NoHash, false), Some(L.RecordReview), SetReview(r))
  }

  /** `ready` on a REVIEWED lane with a PASS that has not drifted. */
  predicate ReadyOn(seen: Manifest, world: World, txn: Txn) {
    && seen.state == L.Reviewed && OnCandidate(seen, world.current)
    && seen.review.Some? && seen.review.value.verdict == "PASS"
    && txn == Txn(ExpectedHash(NoHash, false), Some(L.MarkReady), NoChange)
  }

  /** `close` on a READY lane. */
  predicate CloseOn(seen: Manifest, expected: ContentHash, txn: Txn) {
    seen.state == L.Ready && txn == Txn(ExpectedHash(expected, false), Some(L.Close), NoChange)
  }

  /** `agent run` blocks an ACTIVE lane when it finds an abandoned lease. */
  predicate BlockOn(seen: Manifest, world: World, txn: Txn) {
    && seen.state == L.Active && world.abandoned
    && txn == Txn(ExpectedHash(NoHash, false), Some(L.Block), NoChange)
  }

  /** `lane block`, `resume`, `abandon` and `incident`. */
  predicate TransitionOf(event: L.Event, prior: ContentHash, txn: Txn) {
    && event in {L.Block, L.Resume, L.Abandon, L.IncidentEvent} && !prior.NoHash?
    && txn == Txn(ExpectedHash(prior, true), Some(event), NoChange)
  }

  /** The change is the one this command asks for, decided on this lane. */
  predicate AskedOn(seen: Manifest, world: World, receipts: Receipts, command: Command, txn: Txn) {
    match command
    case Freeze(expected) => FreezeOn(seen, world, expected, txn)
    case EvidenceAdd(r) =>
      txn.mutator.AppendEvidence? && EvidenceOn(seen, receipts, r, txn.mutator.reference.hash, txn)
    case ReviewRecord(input) =>
      txn.mutator.SetReview? && ReviewOn(seen, world, input, txn.mutator.review, txn)
    case Ready => ReadyOn(seen, world, txn)
    case Close(expected) => CloseOn(seen, expected, txn)
    case AgentBlock => BlockOn(seen, world, txn)
    case _ => false
  }

  /** The change is the one this command asks for. All but the transitions decide on a
      content of the history, on a world their check saw. */
  ghost predicate AskedBy(past: Past, p: int, command: Command, txn: Txn) {
    match command
    case LaneTransition(event, prior) => TransitionOf(event, prior, txn)
    case _ =>
      exists seen, world ::
        Seen(past.log, seen) && Checked(past, p, world) && AskedOn(seen, world, past.receipts, command, txn)
  }

  /** A new lane: ACTIVE, with nothing recorded and both times equal. */
  predicate NewLane(hasher: Hasher, laneId: string, d: Dispatch, m: Manifest) {
    m == Manifest(1, laneId, L.Active, L.Other(""), d, hasher(d), None, None, [], [], m.createdAt, m.createdAt, true)
  }

  /** The commit is what this command of its owner asks for. */
  ghost predicate MadeBy(past: Past, command: Command, c: Commit) {
    match command
    case LaneOpen(id, d) => c.txn.None? && NewLane(past.hasher, id, d, c.content)
    case _ => c.txn.Some? && AskedBy(past, c.owner, command, c.txn.value)
  }

  // ---------- The command of a process ----------

  /** The first command spawned as this process. */
  function CommandOf(actions: seq<Action>, p: int): Option<Command> {
    if actions == [] then None
    else
      var a := actions[|actions| - 1];
      match CommandOf(actions[..|actions| - 1], p)
      case Some(c) => Some(c)
      case None => if a.Spawn? && a.p == p then Some(a.command) else None
  }

  lemma CommandNext(actions: seq<Action>, a: Action, p: int)
    ensures CommandOf(actions + [a], p) ==
            if CommandOf(actions, p).Some? then CommandOf(actions, p)
            else if a.Spawn? && a.p == p then Some(a.command) else None
  {
    var all := actions + [a];
    assert all[..|all| - 1] == actions && all[|all| - 1] == a;
  }

  lemma {:induction false} CommandSpawned(actions: seq<Action>, p: int)
    ensures CommandOf(actions, p).Some? ==> Spawn(p, CommandOf(actions, p).value) in actions
  {
    if actions != [] {
      var n := |actions| - 1;
      CommandSpawned(actions[..n], p);
      assert actions == actions[..n] + [actions[n]];
    }
  }

  // ---------- Nothing is undone ----------

  lemma SeenLater(a: Past, b: Past, m: Manifest)
    requires Extends(a, b) && Seen(a.log, m)
    ensures Seen(b.log, m)
  {
    var i :| 0 <= i < |a.log| && a.log[i].content == m;
    assert b.log[i] == a.log[i];
  }

  lemma CheckedLater(a: Past, b: Past, p: int, world: World)
    requires Extends(a, b) && Checked(a, p, world)
    ensures Checked(b, p, world)
  {
  }

  lemma AskedOnLater(seen: Manifest, world: World, receipts: Receipts, later: Receipts, command: Command, txn: Txn)
    requires AskedOn(seen, world, receipts, command, txn) && Grew(receipts, later)
    ensures AskedOn(seen, world, later, command, txn)
  {
  }

  lemma AskedLater(a: Past, b: Past, p: int, command: Command, txn: Txn)
    requires Extends(a, b) && AskedBy(a, p, command, txn)
    ensures AskedBy(b, p, command, txn)
  {
    if !command.LaneTransition? {
      var seen, world :|
        Seen(a.log, seen) && Checked(a, p, world) && AskedOn(seen, world, a.receipts, command, txn);
      SeenLater(a, b, seen);
      CheckedLater(a, b, p, world);
      AskedOnLater(seen, world, a.receipts, b.receipts, command, txn);
    }
  }

  // ---------- What holds of every process and every commit ----------

  ghost predicate JobFrom(past: Past, p: int, command: Command, job: Job) {
    match job
    case CreateJob(m) => command.LaneOpen? && m == OpenManifest(command.laneId, command.dispatch)
    case ChangeJob(txn, _, _) => !command.LaneOpen? && AskedBy(past, p, command, txn)
  }

  /** What a process is at belongs to its command. */
  ghost predicate StageFrom(past: Past, p: int, command: Command, stage: Stage) {
    match stage
    case Starting(c) => c == command
    case Checking(c, seen) => c == command && !c.LaneOpen? && !c.LaneTransition? && Seen(past.log, seen)
    case Adding(seen, r) => AddingFrom(past, p, command, seen, r)
    case Calling(txn, _) => !command.LaneOpen? && AskedBy(past, p, command, txn)
    case Waiting(job, _) => JobFrom(past, p, command, job)
    case Locked(job, _) => JobFrom(past, p, command, job)
    case Writing(_, job, next, _) =>
      JobFrom(past, p, command, job)
      && (job.CreateJob? ==> NewLane(past.hasher, job.manifest.laneId, job.manifest.dispatch, next))
    case _ => true
  }

  ghost predicate AddingFrom(past: Past, p: int, command: Command, seen: Manifest, r: Receipt) {
    && command.EvidenceAdd? && Seen(past.log, seen) && (exists world :: Checked(past, p, world))
    && seen.state == L.Frozen && seen.freeze.Some? && command.receipt.methodId !in Names(seen.evidence)
    && r == command.receipt.(candidateHash := seen.freeze.value.candidate, manifestHash := seen.dispatchHash)
  }

  lemma JobLater(a: Past, b: Past, p: int, command: Command, job: Job)
    requires Extends(a, b) && JobFrom(a, p, command, job)
    ensures JobFrom(b, p, command, job)
  {
    if job.ChangeJob? {
      AskedLater(a, b, p, command, job.txn);
    }
  }

  lemma AddingLater(a: Past, b: Past, p: int, command: Command, seen: Manifest, r: Receipt)
    requires Extends(a, b) && AddingFrom(a, p, command, seen, r)
    ensures AddingFrom(b, p, command, seen, r)
  {
    SeenLater(a, b, seen);
    var world :| Checked(a, p, world);
    CheckedLater(a, b, p, world);
  }

  lemma StageLater(a: Past, b: Past, p: int, command: Command, stage: Stage)
    requires Extends(a, b) && StageFrom(a, p, command, stage)
    ensures StageFrom(b, p, command, stage)
  {
    match stage
    case Checking(_, seen) => SeenLater(a, b, seen);
    case Adding(seen, r) => AddingLater(a, b, p, command, seen, r);
    case Calling(txn, _) => AskedLater(a, b, p, command, txn);
    case Waiting(job, _) => JobLater(a, b, p, command, job);
    case Locked(job, _) => JobLater(a, b, p, command, job);
    case Writing(_, job, _, _) => JobLater(a, b, p, command, job);
    case _ =>
  }

  lemma MadeLater(a: Past, b: Past, command: Command, c: Commit)
    requires Extends(a, b) && MadeBy(a, command, c)
    ensures MadeBy(b, command, c)
  {
    if !command.LaneOpen? {
      AskedLater(a, b, c.owner, command, c.txn.value);
    }
  }

  // ---------- One step of a process ----------

  function PastOf(actions: seq<Action>, s: Sys): Past {
    Past(s.hasher, actions, s.log, s.receipts)
  }

  lemma FileSeenAt(past: Past, s: Sys)
    requires HistoryOk(s) && past.log == s.log && s.file.Some?
    ensures Seen(past.log, s.file.value)
  {
    FileSeen(s);
  }

  lemma StartFrom(past: Past, s: Sys, p: int, command: Command)
    requires HistoryOk(s) && past.log == s.log
    ensures StageFrom(past, p, command, Start(command, s.file))
  {
    if s.file.Some? {
      FileSeenAt(past, s);
    }
  }

  lemma FreezeDecided(seen: Manifest, world: World, expected: ContentHash, receipts: Receipts)
    ensures var stage := Decide(Command.Freeze(expected), seen, world, receipts);
            stage == Failed || (stage.Calling? && FreezeOn(seen, world, expected, stage.txn))
  {
  }

  lemma ReviewDecided(seen: Manifest, world: World, input: ReviewInput, receipts: Receipts)
    ensures var stage := Decide(Command.ReviewRecord(input), seen, world, receipts);
            stage == Failed ||
            (stage.Calling? && stage.txn.mutator.SetReview? &&
             ReviewOn(seen, world, input, stage.txn.mutator.review, stage.txn))
  {
    SortCorrect(Hashes(seen.evidence));
  }

  lemma ReadyDecided(seen: Manifest, world: World, receipts: Receipts)
    ensures var stage := Decide(Command.Ready, seen, world, receipts);
            stage == Failed || (stage.Calling? && ReadyOn(seen, world, stage.txn))
  {
  }

  lemma OtherDecided(seen: Manifest, world: World, command: Command, receipts: Receipts)
    requires command.Close? || command.AgentBlock?
    ensures var stage := Decide(command, seen, world, receipts);
            stage == Failed || (stage.Calling? && AskedOn(seen, world, receipts, command, stage.txn))
  {
  }

  lemma EvidenceDecided(past: Past, p: int, seen: Manifest, world: World, r: Receipt)
    requires Seen(past.log, seen) && Checked(past, p, world)
    ensures var stage := Decide(EvidenceAdd(r), seen, world, past.receipts);
            stage == Failed || (stage.Adding? && AddingFrom(past, p, EvidenceAdd(r), stage.seen, stage.receipt))
  {
  }

  lemma DecideFrom(past: Past, p: int, command: Command, seen: Manifest, world: World)
    requires Seen(past.log, seen) && Checked(past, p, world) && !command.LaneOpen? && !command.LaneTransition?
    ensures StageFrom(past, p, command, Decide(command, seen, world, past.receipts))
  {
    match command
    case Freeze(expected) => FreezeDecided(seen, world, expected, past.receipts);
    case EvidenceAdd(r) => EvidenceDecided(past, p, seen, world, r);
    case ReviewRecord(input) => ReviewDecided(seen, world, input, past.receipts);
    case Ready => ReadyDecided(seen, world, past.receipts);
    case _ => OtherDecided(seen, world, command, past.receipts);
  }

  lemma AddedOn(s: Sys, p: int, stage: Stage, h: string, stamp: Instant, synced: bool, r: Receipt)
    requires stage.Adding? && stage.seen.state == L.Frozen && stage.seen.freeze.Some?
    requires r.methodId !in Names(stage.seen.evidence)
    requires stage.receipt == r.(candidateHash := stage.seen.freeze.value.candidate,
                                 manifestHash := stage.seen.dispatchHash)
    ensures var t := AddReceiptStep(s, p, stage, h, stamp, synced);
      && p in t.procs && t.log == s.log && t.hasher == s.hasher
      && (t.procs[p] == Failed || (t.procs[p].Calling? && EvidenceOn(stage.seen, t.receipts, r, h, t.procs[p].txn)))
  {
    assert forall i :: 0 <= i < |stage.seen.evidence| ==> Names(stage.seen.evidence)[i] == stage.seen.evidence[i].name;
    assert forall i :: 0 <= i < |stage.seen.evidence| ==> Hashes(stage.seen.evidence)[i] == stage.seen.evidence[i].hash;
  }

  lemma AddReceiptFrom(past: Past, s: Sys, t: Sys, p: int, command: Command, stage: Stage,
                       h: string, stamp: Instant, synced: bool)
    requires stage.Adding? && AddingFrom(past, p, command, stage.seen, stage.receipt)
    requires t == AddReceiptStep(s, p, stage, h, stamp, synced) && past.receipts == t.receipts
    ensures p in t.procs && StageFrom(past, p, command, t.procs[p])
  {
    AddedOn(s, p, stage, h, stamp, synced, command.receipt);
    var world :| Checked(past, p, world);
    if t.procs[p] != Failed {
      assert AskedOn(stage.seen, world, past.receipts, command, t.procs[p].txn);
    }
  }

  lemma CheckedFrom(past: Past, s: Sys, p: int, command: Command, stage: Stage, now: Instant)
    requires stage.Locked? && JobFrom(past, p, command, stage.job) && past.hasher == s.hasher && p in s.procs
    ensures var t := CheckUpdateStep(s, p, stage, now); p in t.procs && StageFrom(past, p, command, t.procs[p])
  {
    if stage.job.CreateJob? {
      CreatedNew(s.hasher, stage.job.manifest, now);
    }
  }

  /** What `Create` stores of a manifest of `lane open`. */
  lemma CreatedNew(hasher: Hasher, m: Manifest, now: Instant)
    requires m == OpenManifest(m.laneId, m.dispatch)
    ensures Created(hasher, m, now).Some? ==>
              NewLane(hasher, m.laneId, m.dispatch, Created(hasher, m, now).value)
              && Created(hasher, m, now).value.createdAt == now
  {
  }

  lemma InstalledFrom(past: Past, s: Sys, p: int, command: Command, stage: Stage)
    requires StageFrom(past, p, command, stage) && stage.Writing?
    ensures var t := InstallStep(s, p, stage); p in t.procs && StageFrom(past, p, command, t.procs[p])
  {
  }

  /** Loading and checking. */
  lemma LookFrom(b: Past, s: Sys, x: Action, t: Sys, command: Command)
    requires HistoryOk(s) && (x.Load? || x.Check?) && x.p in s.procs && ProcStep(s, x, s.procs[x.p]) == Some(t)
    requires b.log == s.log && b.receipts == s.receipts && x in b.actions
    requires StageFrom(b, x.p, command, s.procs[x.p])
    ensures x.p in t.procs && StageFrom(b, x.p, command, t.procs[x.p])
  {
    if x.Load? {
      StartFrom(b, s, x.p, command);
    } else {
      DecideFrom(b, x.p, command, s.procs[x.p].seen, x.world);
    }
  }

  /** Adding a receipt, preparing the next content and installing it. */
  lemma MakeFrom(b: Past, s: Sys, x: Action, t: Sys, command: Command)
    requires (x.AddReceipt? || x.CheckUpdate? || x.Install?) && x.p in s.procs
    requires ProcStep(s, x, s.procs[x.p]) == Some(t) && b.hasher == s.hasher && b.receipts == t.receipts
    requires StageFrom(b, x.p, command, s.procs[x.p])
    ensures x.p in t.procs && StageFrom(b, x.p, command, t.procs[x.p])
  {
    var p, stage := x.p, s.procs[x.p];
    match x
    case AddReceipt(_, h, stamp, synced) => AddReceiptFrom(b, s, t, p, command, stage, h, stamp, synced);
    case CheckUpdate(_, now) => CheckedFrom(b, s, p, command, stage, now);
    case Install(_) => InstalledFrom(b, s, p, command, stage);
  }

  /** The unlocked proposal and the lock. */
  lemma CallFrom(b: Past, s: Sys, x: Action, t: Sys, command: Command)
    requires (x.Propose? || x.TakeLock?) && x.p in s.procs && ProcStep(s, x, s.procs[x.p]) == Some(t)
    requires StageFrom(b, x.p, command, s.procs[x.p])
    ensures x.p in t.procs && StageFrom(b, x.p, command, t.procs[x.p])
  {
  }

  /** Ending in any way. */
  lemma EndFrom(b: Past, s: Sys, x: Action, t: Sys, command: Command)
    requires (x.Finish? || x.Fail? || x.Crash?) && x.p in s.procs && ProcStep(s, x, s.procs[x.p]) == Some(t)
    ensures x.p in t.procs && StageFrom(b, x.p, command, t.procs[x.p])
  {
  }

  /** The other steps of a write. */
  lemma MoveFrom(b: Past, s: Sys, x: Action, t: Sys, command: Command)
    requires x.Scan? || x.Stage? || x.Unlink?
    requires x.p in s.procs && ProcStep(s, x, s.procs[x.p]) == Some(t) && StageFrom(b, x.p, command, s.procs[x.p])
    ensures x.p in t.procs && StageFrom(b, x.p, command, t.procs[x.p])
  {
  }

  /** The step of a process leaves it at something its command asks for. */
  lemma StepFrom(a: Past, b: Past, s: Sys, x: Action, t: Sys, command: Command)
    requires HistoryOk(s) && !x.Spawn? && !x.OtherReceipt? && x.p in s.procs && ProcStep(s, x, s.procs[x.p]) == Some(t)
    requires a.hasher == s.hasher && a.log == s.log && Extends(a, b) && x in b.actions
    requires b.receipts == t.receipts && StageFrom(a, x.p, command, s.procs[x.p])
    requires x.Load? || x.Check? ==> b.log == s.log && b.receipts == s.receipts
    ensures x.p in t.procs && StageFrom(b, x.p, command, t.procs[x.p])
  {
    StageLater(a, b, x.p, command, s.procs[x.p]);
    if x.Load? || x.Check? {
      LookFrom(b, s, x, t, command);
    } else if x.AddReceipt? || x.CheckUpdate? || x.Install? {
      MakeFrom(b, s, x, t, command);
    } else if x.Propose? || x.TakeLock? {
      CallFrom(b, s, x, t, command);
    } else if x.Finish? || x.Fail? || x.Crash? {
      EndFrom(b, s, x, t, command);
    } else {
      MoveFrom(b, s, x, t, command);
    }
  }

  // ---------- Every run ----------

  /** The history before a commit. */
  function Until(past: Past, i: nat): Past
    requires i <= |past.log|
  {
    past.(log := past.log[..i])
  }

  ghost predicate CommitFrom(past: Past, i: nat)
    requires i < |past.log|
  {
    var command := CommandOf(past.actions, past.log[i].owner);
    command.Some? && MadeBy(Until(past, i), command.value, past.log[i])
  }

  ghost predicate ProcessFrom(past: Past, s: Sys, p: int)
    requires p in s.procs
  {
    var command := CommandOf(past.actions, p);
    command.Some? && StageFrom(past, p, command.value, s.procs[p])
  }

  ghost predicate Origins(actions: seq<Action>, s: Sys) {
    && (forall p :: p in s.procs ==> ProcessFrom(PastOf(actions, s), s, p))
    && (forall i :: 0 <= i < |s.log| ==> CommitFrom(PastOf(actions, s), i))
    && (forall p :: CommandOf(actions, p).Some? ==> p in s.procs)
  }

  lemma PastExtends(actions: seq<Action>, s: Sys, x: Action, t: Sys)
    requires Step(s, x) == Some(t)
    ensures Extends(PastOf(actions, s), PastOf(actions + [x], t))
  {
    LogGrows(s, x);
    ReceiptsGrow(s, x);
    StepHasher(s, x);
  }

  lemma CommitLater(a: Past, b: Past, i: nat)
    requires Extends(a, b) && i < |a.log| && CommitFrom(a, i)
    requires CommandOf(b.actions, a.log[i].owner) == CommandOf(a.actions, a.log[i].owner)
    ensures CommitFrom(b, i)
  {
    assert b.log[i] == a.log[i] && b.log[..i] == a.log[..i];
    MadeLater(Until(a, i), Until(b, i), CommandOf(a.actions, a.log[i].owner).value, a.log[i]);
  }

  /** The commit a writer makes is what its command asks for. */
  lemma InstalledMade(a: Past, b: Past, p: int, command: Command, job: Job, next: Manifest)
    requires Extends(a, b) && b.log == a.log && JobFrom(a, p, command, job)
    requires job.CreateJob? ==> NewLane(a.hasher, job.manifest.laneId, job.manifest.dispatch, next)
    ensures MadeBy(b, command, CommitOf(p, job, next))
  {
    JobLater(a, b, p, command, job);
  }

  lemma CommitsStep(actions: seq<Action>, s: Sys, x: Action, t: Sys)
    requires Origins(actions, s) && Step(s, x) == Some(t)
    ensures forall i :: 0 <= i < |t.log| ==> CommitFrom(PastOf(actions + [x], t), i)
  {
    var a, b := PastOf(actions, s), PastOf(actions + [x], t);
    PastExtends(actions, s, x, t);
    forall i | 0 <= i < |t.log|
      ensures CommitFrom(b, i)
    {
      CommandNext(actions, x, t.log[i].owner);
      if i < |s.log| {
        assert t.log[i] == s.log[i];
        CommitLater(a, b, i);
      } else {
        LastCommit(actions, s, x, t, i);
      }
    }
  }

  lemma LastCommit(actions: seq<Action>, s: Sys, x: Action, t: Sys, i: nat)
    requires Origins(actions, s) && Step(s, x) == Some(t) && |s.log| <= i < |t.log|
    ensures CommitFrom(PastOf(actions + [x], t), i)
  {
    var a, b := PastOf(actions, s), PastOf(actions + [x], t);
    PastExtends(actions, s, x, t);
    OnlyInstallChanges(s, x);
    var p, stage := x.p, s.procs[x.p];
    assert i == |s.log| && t.log[i] == CommitOf(p, stage.job, stage.next) && t.log[..i] == s.log;
    CommandNext(actions, x, p);
    assert ProcessFrom(a, s, p);
    InstalledMade(a, Until(b, i), p, CommandOf(actions, p).value, stage.job, stage.next);
  }

  lemma OthersStep(s: Sys, x: Action, t: Sys, p: int)
    requires Step(s, x) == Some(t) && p in t.procs && (x.OtherReceipt? || x.p != p)
    ensures p in s.procs && t.procs[p] == s.procs[p]
  {
  }

  /** Loading and checking change nothing that is shared. */
  lemma LookingChangesNothing(s: Sys, x: Action, t: Sys)
    requires Step(s, x) == Some(t) && (x.Load? || x.Check?)
    ensures t.log == s.log && t.receipts == s.receipts
  {
  }

  lemma ProcessStep(actions: seq<Action>, s: Sys, x: Action, t: Sys, p: int)
    requires HistoryOk(s) && Origins(actions, s) && Step(s, x) == Some(t) && p in t.procs
    ensures ProcessFrom(PastOf(actions + [x], t), t, p)
  {
    var a, b := PastOf(actions, s), PastOf(actions + [x], t);
    PastExtends(actions, s, x, t);
    CommandNext(actions, x, p);
    if x.OtherReceipt? || x.p != p {
      OthersStep(s, x, t, p);
      assert ProcessFrom(a, s, p);
      StageLater(a, b, p, CommandOf(actions, p).value, s.procs[p]);
    } else if !x.Spawn? {
      assert ProcessFrom(a, s, p);
      if x.Load? || x.Check? {
        LookingChangesNothing(s, x, t);
      }
      StepFrom(a, b, s, x, t, CommandOf(actions, p).value);
    }
  }

  lemma SpawnedStep(actions: seq<Action>, s: Sys, x: Action, t: Sys, p: int)
    requires Step(s, x) == Some(t) && (CommandOf(actions, p).Some? ==> p in s.procs)
    ensures CommandOf(actions + [x], p).Some? ==> p in t.procs
  {
    CommandNext(actions, x, p);
    if p in s.procs {
      ProcsStay(s, x, t, p);
    }
  }

  lemma ProcsStay(s: Sys, x: Action, t: Sys, p: int)
    requires Step(s, x) == Some(t) && p in s.procs
    ensures p in t.procs
  {
  }

  lemma OriginsStep(actions: seq<Action>, s: Sys, x: Action, t: Sys)
    requires HistoryOk(s) && Origins(actions, s) && Step(s, x) == Some(t)
    ensures Origins(actions + [x], t)
  {
    CommitsStep(actions, s, x, t);
    forall p | p in t.procs
      ensures ProcessFrom(PastOf(actions + [x], t), t, p)
    {
      ProcessStep(actions, s, x, t, p);
    }
    forall p
      ensures CommandOf(actions + [x], p).Some? ==> p in t.procs
    {
      SpawnedStep(actions, s, x, t, p);
    }
  }

  lemma {:induction false} RunOrigins(hasher: Hasher, actions: seq<Action>)
    requires Run(hasher, actions).Some?
    ensures Origins(actions, Run(hasher, actions).value)
  {
    if actions != [] {
      var n := |actions| - 1;
      var before, x := actions[..n], actions[n];
      RunOrigins(hasher, before);
      RunInv(hasher, before);
      assert actions == before + [x];
      OriginsStep(before, Run(hasher, before).value, x, Run(hasher, actions).value);
    }
  }

  // ---------- One command for each process ----------

  /** The process was spawned with this command, and never again. */
  ghost predicate SpawnedOnce(actions: seq<Action>, p: int, command: Command) {
    exists k :: 0 <= k < |actions| && actions[k] == Spawn(p, command)
      && forall j :: 0 <= j < |actions| && actions[j].Spawn? && actions[j].p == p ==> j == k
  }

  lemma {:induction false} OneSpawn(hasher: Hasher, actions: seq<Action>, p: int)
    requires Run(hasher, actions).Some?
    ensures CommandOf(actions, p).Some? ==> SpawnedOnce(actions, p, CommandOf(actions, p).value)
    ensures CommandOf(actions, p).None? ==>
              forall j :: 0 <= j < |actions| ==> !(actions[j].Spawn? && actions[j].p == p)
  {
    if actions != [] {
      var n := |actions| - 1;
      var before, x := actions[..n], actions[n];
      OneSpawn(hasher, before, p);
      RunOrigins(hasher, before);
      assert actions == before + [x];
      CommandNext(before, x, p);
      SpawnedNext(Run(hasher, before).value, before, x, p);
    }
  }

  lemma SpawnedNext(s: Sys, before: seq<Action>, x: Action, p: int)
    requires Step(s, x).Some? && (CommandOf(before, p).Some? ==> p in s.procs)
    requires CommandOf(before, p).Some? ==> SpawnedOnce(before, p, CommandOf(before, p).value)
    requires CommandOf(before, p).None? ==>
               forall j :: 0 <= j < |before| ==> !(before[j].Spawn? && before[j].p == p)
    ensures CommandOf(before, p).Some? ==> SpawnedOnce(before + [x], p, CommandOf(before, p).value)
    ensures CommandOf(before, p).None? && x.Spawn? && x.p == p ==> SpawnedOnce(before + [x], p, x.command)
  {
    var all, n := before + [x], |before|;
    if CommandOf(before, p).Some? {
      var k :| 0 <= k < |before| && before[k] == Spawn(p, CommandOf(before, p).value)
        && forall j :: 0 <= j < |before| && before[j].Spawn? && before[j].p == p ==> j == k;
      assert all[k] == before[k];
      assert !(x.Spawn? && x.p == p);
    } else if x.Spawn? && x.p == p {
      assert all[n] == Spawn(p, x.command);
    }
  }

  /** In every run each commit is what one command asked for: its owner was spawned once,
      with that command, and nothing is committed in its name but the change the command
      asks for, decided on a lane that was in the history before the commit. */
  lemma CommitCommand(hasher: Hasher, actions: seq<Action>, i: nat) returns (command: Command)
    requires Run(hasher, actions).Some? && i < |Run(hasher, actions).value.log|
    ensures var s := Run(hasher, actions).value;
      && SpawnedOnce(actions, s.log[i].owner, command)
      && MadeBy(Past(hasher, actions, s.log[..i], s.receipts), command, s.log[i])
  {
    RunOrigins(hasher, actions);
    RunHasher(hasher, actions);
    var s := Run(hasher, actions).value;
    assert CommitFrom(PastOf(actions, s), i);
    command := CommandOf(actions, s.log[i].owner).value;
    OneSpawn(hasher, actions, s.log[i].owner);
  }
}
