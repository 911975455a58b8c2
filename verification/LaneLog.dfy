/** Histories of a lane: the contents its file has held, each made from the one
    before by a named change. */
module LaneLog {
  import opened Wrappers
  import opened Manifest
  import L = Lifecycle

  /** One installed content, the process that installed it, and its change;
      None is the creation of the lane. */
  datatype Commit = Commit(owner: int, txn: Option<Txn>, content: Manifest)

  type Log = seq<Commit>

  function Last(log: Log): Manifest
    requires log != []
  {
    log[|log| - 1].content
  }

  /** What `lane open` asks the store to create. */
  function OpenManifest(laneId: string, dispatch: Dispatch): Manifest {
    Manifest(1, laneId, L.Active, L.Other(""), dispatch, "", None, None, [], [], 0, 0, true)
  }

  ghost predicate IsOpening(hasher: Hasher, m: Manifest) {
    exists now :: Created(hasher, OpenManifest(m.laneId, m.dispatch), now) == Some(m)
  }

  ghost predicate Follows(hasher: Hasher, before: Manifest, c: Commit) {
    match c.txn
    case None => false
    case Some(t) => Named(t) && IsStep(hasher, t, before, c.content.updatedAt, c.content)
  }

  /** The first commit creates the lane, each later one changes the content before it. */
  ghost predicate CommitAt(hasher: Hasher, log: Log, i: nat)
    requires i < |log|
  {
    if i == 0 then log[0].txn.None? && IsOpening(hasher, log[0].content)
    else Follows(hasher, log[i - 1].content, log[i])
  }

  ghost predicate Legal(hasher: Hasher, log: Log) {
    forall i :: 0 <= i < |log| ==> CommitAt(hasher, log, i)
  }

  /** Valid, and no record from a later state of the lane. */
  predicate Tidy(hasher: Hasher, m: Manifest) {
    match L.Position(LaneSnapshot(m))
    case None => Valid(hasher, m)
    case Some(p) =>
      Valid(hasher, m) && p >= 1 && (p < 2 ==> m.freeze.None?) && (p < 3 ==> m.review.None?)
  }

  /** The dispatch is fixed, each record is written once, evidence only grows. */
  predicate Evolves(a: Manifest, b: Manifest) {
    && b.schemaVersion == a.schemaVersion && b.laneId == a.laneId && b.createdAt == a.createdAt
    && b.dispatch == a.dispatch && b.dispatchHash == a.dispatchHash
    && (a.freeze.Some? ==> b.freeze == a.freeze)
    && (a.review.Some? ==> b.review == a.review)
    && a.evidence <= b.evidence
  }

  function EventOf(c: Commit): seq<L.Event> {
    match c.txn
    case None => [L.Activate]
    case Some(t) => if t.event.Some? then [t.event.value] else []
  }

  function EventsOf(log: Log): seq<L.Event> {
    if log == [] then [] else EventsOf(log[..|log| - 1]) + EventOf(log[|log| - 1])
  }
}
