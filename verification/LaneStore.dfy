/** The manifest store as one caller uses it (`core/manifest/store.go` and
    `ops.go`): the methods as written, on a file whose operations can fail. */
module LaneStore {
  import opened Wrappers
  import opened Manifest
  import L = Lifecycle

  datatype StoreError =
    | Exists | NotLoaded | MissingHash | StaleHash | ExpectedHashMismatch | TransitionRefused
    | Rejected | ResidueFound | WriteFailed | InstalledNotSynced

  /** Which file operations of one write succeed: creating the temporary, filling
      it, installing it, removing it where that is a step, syncing the directory;
      `cleaned` is the removal attempted after an error. */
  datatype Io = Io(created: bool, filled: bool, installed: bool, removed: bool, synced: bool, cleaned: bool)

  /** What a call leaves: the file, the number of temporaries, and whether it
      reported success. */
  datatype Effect = Effect(content: Option<Manifest>, residue: nat, success: bool)

  predicate Installs(residue: nat, io: Io) {
    residue == 0 && io.created && io.filled && io.installed
  }

  /** A temporary was created, did not go away by itself, and was not cleaned up. */
  function Left(residue: nat, io: Io, gone: bool): nat {
    if residue == 0 && io.created && !gone && !io.cleaned then 1 else 0
  }

  /** Storing a content by rename, None being any refusal before the write. */
  function Renamed(content: Option<Manifest>, residue: nat, next: Option<Manifest>, io: Io): Effect {
    if next.None? then Effect(content, residue, false)
    else
      Effect(if Installs(residue, io) then next else content,
             residue + Left(residue, io, io.filled && io.installed),
             Installs(residue, io) && io.synced)
  }

  /** Storing a content on an absent file by link. */
  function LinkedIn(residue: nat, next: Option<Manifest>, io: Io): Effect {
    if next.None? then Effect(None, residue, false)
    else
      Effect(if Installs(residue, io) then next else None,
             residue + Left(residue, io, io.filled && io.installed && io.removed),
             Installs(residue, io) && io.removed && io.synced)
  }

  /** The content an update made from `base` stores on `content`, if it stores any. */
  function UpdateOf(
      hasher: Hasher, content: Option<Manifest>, base: ContentHash, m: Manifest, now: Instant): Option<Manifest> {
    if content.Some? && base == HashOf(content.value) then Updated(hasher, content.value, content.value, m, now)
    else None
  }

  /** What `Apply` or `Mutate` stores on a content, if it stores anything. */
  function Outcome(hasher: Hasher, txn: Txn, content: Option<Manifest>, now: Instant): Option<Manifest> {
    if content.None? || Proposal(txn, content.value).None? then None
    else Updated(hasher, content.value, content.value, Proposal(txn, content.value).value, now)
  }

  class LaneFile {
    const hasher: Hasher
    var content: Option<Manifest>
    /** Temporaries left behind. */
    var residue: nat
    var locked: bool

    constructor (hasher: Hasher)
      ensures this.hasher == hasher && content.None? && residue == 0 && !locked
    {
      this.hasher := hasher;
      content, residue, locked := None, 0, false;
    }

    method Load() returns (r: Result<Manifest, StoreError>)
      ensures r == if content.Some? then Success(content.value) else Failure(NotLoaded)
    {
      r := if content.Some? then Success(content.value) else Failure(NotLoaded);
    }

    /** The deferred cleanup of a temporary after an error. */
    method Cleanup(io: Io)
      modifies `residue
      ensures residue == if io.cleaned then old(residue) else old(residue) + 1
    {
      if !io.cleaned {
        residue := residue + 1;
      }
    }

    /** `writeAtomic`: the error after the rename comes with the new content. */
    method WriteAtomic(next: Manifest, io: Io) returns (error: Option<StoreError>)
      modifies `content, `residue
      ensures Effect(content, residue, error.None?) == Renamed(old(content), old(residue), Some(next), io)
      ensures error == Some(InstalledNotSynced) <==> Installs(old(residue), io) && !io.synced
    {
      if residue > 0 {
        return Some(ResidueFound);
      }
      if !io.created {
        return Some(WriteFailed);
      }
      if !io.filled || !io.installed {
        Cleanup(io);
        return Some(WriteFailed);
      }
      content := Some(next);
      return if io.synced then None else Some(InstalledNotSynced);
    }

    /** `writeExclusive`: link, then remove the temporary. A file that is there is never
        replaced. */
    method WriteExclusive(next: Manifest, io: Io) returns (error: Option<StoreError>)
      modifies `content, `residue
      ensures old(content).None? ==> Effect(content, residue, error.None?) == LinkedIn(old(residue), Some(next), io)
      ensures old(content).Some? ==>
                Effect(content, residue, error.None?) ==
                Effect(old(content), old(residue) + Left(old(residue), io, false), false)
    {
      if residue > 0 {
        return Some(ResidueFound);
      }
      if !io.created {
        return Some(WriteFailed);
      }
      if !io.filled || !io.installed || content.Some? {
        Cleanup(io);
        return Some(if io.filled && io.installed then Exists else WriteFailed);
      }
      content := Some(next);
      if !io.removed {
        Cleanup(io);
        return Some(WriteFailed);
      }
      return if io.synced then None else Some(InstalledNotSynced);
    }

    /** `Create`. */
    method Create(m: Manifest, now: Instant, io: Io) returns (r: Result<Manifest, StoreError>)
      requires !locked
      modifies this
      ensures !locked
      ensures old(content).Some? ==> r == Failure(Exists) && content == old(content) && residue == old(residue)
      ensures old(content).None? ==>
                Effect(content, residue, r.Success?) == LinkedIn(old(residue), Created(hasher, m, now), io)
      ensures r.Success? ==> Some(r.value) == Created(hasher, m, now)
    {
      locked := true;
      if content.Some? {
        locked := false;
        return Failure(Exists);
      }
      var normal := Normalize(hasher, m.(createdAt := now, updatedAt := now));
      if normal.Failure? || Validate(hasher, normal.value) != None {
        locked := false;
        return Failure(Rejected);
      }
      var error := WriteExclusive(normal.value, io);
      locked := false;
      r := if error.Some? then Failure(error.value) else Success(normal.value);
    }

    /** `Update`: an empty or stale expected hash is never a wildcard. */
    method Update(expected: ContentHash, m: Manifest, now: Instant, io: Io) returns (r: Result<Manifest, StoreError>)
      requires !locked
      modifies this
      ensures !locked
      ensures var next := UpdateOf(hasher, old(content), expected, m, now);
        && Effect(content, residue, r.Success?) == Renamed(old(content), old(residue), next, io)
        && (r.Success? ==> Some(r.value) == next)
        && (r == Failure(InstalledNotSynced) <==> next.Some? && Installs(old(residue), io) && !io.synced)
    {
      if expected.NoHash? {
        return Failure(MissingHash);
      }
      locked := true;
      var current := Load();
      if current.Failure? {
        locked := false;
        return Failure(NotLoaded);
      }
      if expected != HashOf(current.value) {
        locked := false;
        return Failure(StaleHash);
      }
      var normal := Normalize(hasher, m.(createdAt := current.value.createdAt, updatedAt := now));
      if normal.Failure? || ValidateUpdate(hasher, expected, current.value, normal.value) != None
         || Validate(hasher, normal.value) != None {
        locked := false;
        return Failure(Rejected);
      }
      var error := WriteAtomic(normal.value, io);
      locked := false;
      r := if error.Some? then Failure(error.value) else Success(normal.value);
    }

    /** `Apply` with an event, `Mutate` without: the manifest returned is the one
        handed to the store, which stored it with a new `updatedAt`. */
    method Apply(txn: Txn, now: Instant, io: Io) returns (r: Result<(Manifest, Manifest), StoreError>)
      requires !locked
      modifies this
      ensures !locked
      ensures var next := Outcome(hasher, txn, old(content), now);
        && Effect(content, residue, r.Success?) == Renamed(old(content), old(residue), next, io)
        && (r.Success? ==> Proposal(txn, old(content).value) == Some(r.value.0) && next == Some(r.value.1))
        && (r == Failure(InstalledNotSynced) <==> next.Some? && Installs(old(residue), io) && !io.synced)
    {
      var loaded := Load();
      if loaded.Failure? {
        return Failure(NotLoaded);
      }
      var m := loaded.value;
      if !Meets(txn.expected, m) {
        return Failure(ExpectedHashMismatch);
      }
      if txn.event.Some? {
        var snapshot := L.Apply(L.Snapshot(m.state, m.blockedFrom), txn.event.value);
        if snapshot.None? {
          return Failure(TransitionRefused);
        }
        m := m.(state := snapshot.value.state, blockedFrom := snapshot.value.blockedFrom);
      }
      m := Mutated(m, txn.mutator);
      var stored := Update(HashOf(loaded.value), m, now, io);
      r := if stored.Failure? then Failure(stored.error) else Success((m, stored.value));
    }
  }

  // ---------- Outcomes ----------

  /** A named change on a valid lane is stored exactly when its prior hash is met, its
      event is legal and its record fits; it is then the whole difference. */
  lemma OutcomeExact(hasher: Hasher, txn: Txn, m: Manifest, now: Instant)
    requires Valid(hasher, m) && Named(txn)
    ensures Outcome(hasher, txn, Some(m), now).Some? <==>
            Meets(txn.expected, m) && Stepped(m, txn.event).Some? && Fitting(m, txn.mutator)
    ensures var next := Outcome(hasher, txn, Some(m), now);
            next.Some? ==> IsStep(hasher, txn, m, now, next.value)
  {
    if Proposal(txn, m).Some? {
      UpdateExact(hasher, txn, m, now);
      if Outcome(hasher, txn, Some(m), now).Some? {
        ValidateIff(hasher, Outcome(hasher, txn, Some(m), now).value);
      }
    }
  }
}
