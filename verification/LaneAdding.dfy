/** `evidence add` left alone: exactly when it succeeds, and what it leaves of the receipt
    and of the lane. */
module LaneAdding {
  import opened Wrappers
  import opened Manifest
  import opened Evidence
  import opened Policy
  import opened LaneSystem
  import opened LaneInvariant
  import opened LaneProgress
  import L = Lifecycle

  /** Every receipt is stored under this hash at this time, and synced. */
  predicate StoredAs(actions: seq<Action>, h: string, stamp: Instant) {
    forall i :: 0 <= i < |actions| ==> StoresAs(actions[i], h, stamp)
  }

  predicate StoresAs(a: Action, h: string, stamp: Instant) {
    match a
    case AddReceipt(_, g, at, synced) => g == h && at == stamp && synced
    case _ => true
  }

  /** The lane takes evidence of this method. */
  predicate Open(m: Manifest, r: Receipt) {
    m.state == L.Frozen && m.freeze.Some? && r.methodId !in Names(m.evidence)
  }

  /** The receipt as stored: bound to candidate and dispatch, with the time of the store. */
  function BoundTo(m: Manifest, r: Receipt, stamp: Instant): Receipt
    requires m.freeze.Some?
  {
    r.(candidateHash := m.freeze.value.candidate, manifestHash := m.dispatchHash, timestamp := stamp)
  }

  /** The store takes it. */
  predicate Kept(s: Sys, m: Manifest, r: Receipt, h: string, stamp: Instant) {
    && Open(m, r) && IsHash(h) && ReceiptValid(BoundTo(m, r, stamp))
    && (h in s.receipts ==> s.receipts[h] == BoundTo(m, r, stamp))
  }

  function ReceiptsAfter(s: Sys, m: Manifest, r: Receipt, h: string, stamp: Instant): Receipts {
    if Kept(s, m, r, h, stamp) then s.receipts[h := BoundTo(m, r, stamp)] else s.receipts
  }

  predicate Appends(s: Sys, m: Manifest, r: Receipt, h: string, stamp: Instant) {
    Kept(s, m, r, h, stamp) && h !in Hashes(m.evidence)
  }

  function AddTxn(r: Receipt, h: string): Txn {
    Txn(NO_EXPECTATION, None, AppendEvidence(EvidenceReference(r.methodId, h)))
  }

  /** Where an add that began in `s` on lane `m` stands in `t`. */
  ghost predicate AddAlong(s: Sys, t: Sys, p: int, r: Receipt, m: Manifest, h: string, stamp: Instant) {
    p in t.procs && t.hasher == s.hasher &&
    match t.procs[p]
    case Starting(c) => c == EvidenceAdd(r) && Before(s, t)
    case Checking(c, seen) => c == EvidenceAdd(r) && seen == m && Before(s, t)
    case Adding(seen, x) => seen == m && Open(m, r) && x.(timestamp := stamp) == BoundTo(m, r, stamp) && Before(s, t)
    case Calling(txn, _) =>
      Appends(s, m, r, h, stamp) && txn == AddTxn(r, h) && Untouched(s, t) && t.lock.None?
      && t.receipts == ReceiptsAfter(s, m, r, h, stamp)
    case Failed =>
      !(Appends(s, m, r, h, stamp) && s.temps == {}) && Untouched(s, t) && t.lock.None?
      && t.receipts == ReceiptsAfter(s, m, r, h, stamp)
    case Dead => false
    case _ =>
      Appends(s, m, r, h, stamp) && Proposal(AddTxn(r, h), m).Some? && Along(s, t, p, JobOf(m, AddTxn(r, h)))
      && t.receipts == ReceiptsAfter(s, m, r, h, stamp)
  }

  lemma AddChecks(s: Sys, t: Sys, p: int, r: Receipt, m: Manifest, h: string, stamp: Instant, world: World)
    requires AddAlong(s, t, p, r, m, h, stamp) && t.procs[p].Checking?
    ensures AddAlong(s, Moved(t, p, Decide(EvidenceAdd(r), m, world, t.receipts)), p, r, m, h, stamp)
  {
  }

  lemma AddStores(s: Sys, t: Sys, p: int, r: Receipt, m: Manifest, h: string, stamp: Instant)
    requires AddAlong(s, t, p, r, m, h, stamp) && t.procs[p].Adding?
    ensures AddAlong(s, AddReceiptStep(t, p, t.procs[p], h, stamp, true), p, r, m, h, stamp)
  {
  }

  lemma AddCalls(s: Sys, t: Sys, p: int, r: Receipt, m: Manifest, h: string, stamp: Instant)
    requires s.file == Some(m) && AddAlong(s, t, p, r, m, h, stamp) && t.procs[p].Calling?
    ensures AddAlong(s, Moved(t, p, ProposeOn(t.procs[p].txn, t.procs[p].ground, t.file)), p, r, m, h, stamp)
  {
  }

  lemma AddFits(m: Manifest, r: Receipt, h: string, stamp: Instant, s: Sys)
    requires Appends(s, m, r, h, stamp)
    ensures Fitting(m, AddTxn(r, h).mutator) && Named(AddTxn(r, h))
    ensures Proposal(AddTxn(r, h), m) == Some(m.(evidence := m.evidence + [EvidenceReference(r.methodId, h)]))
  {
  }

  lemma WritingKeepsReceipts(t: Sys, a: Action)
    requires !a.Spawn? && !a.OtherReceipt? && a.p in t.procs && Step(t, a).Some?
    requires t.procs[a.p].Waiting? || t.procs[a.p].Locked? || t.procs[a.p].Writing?
    ensures Step(t, a).value.receipts == t.receipts
  {
  }

  lemma AddWrites(s: Sys, t: Sys, p: int, r: Receipt, m: Manifest, h: string, stamp: Instant, a: Action)
    requires HistoryOk(s) && s.file == Some(m) && AddAlong(s, t, p, r, m, h, stamp)
    requires t.procs[p].Waiting? || t.procs[p].Locked? || t.procs[p].Writing?
    requires Own(a, p) && Step(t, a).Some?
    ensures AddAlong(s, Step(t, a).value, p, r, m, h, stamp)
  {
    AddFits(m, r, h, stamp, s);
    WritingKeepsReceipts(t, a);
    AlongStep(s, t, p, JobOf(m, AddTxn(r, h)), a);
  }

  lemma AddStep(s: Sys, t: Sys, p: int, r: Receipt, m: Manifest, h: string, stamp: Instant, a: Action)
    requires HistoryOk(s) && s.file == Some(m) && AddAlong(s, t, p, r, m, h, stamp)
    requires Own(a, p) && StoresAs(a, h, stamp) && Step(t, a).Some?
    ensures AddAlong(s, Step(t, a).value, p, r, m, h, stamp)
  {
    var stage := t.procs[p];
    if stage.Checking? {
      AddChecks(s, t, p, r, m, h, stamp, a.world);
    } else if stage.Adding? {
      AddStores(s, t, p, r, m, h, stamp);
    } else if stage.Calling? {
      AddCalls(s, t, p, r, m, h, stamp);
    } else if stage.Waiting? || stage.Locked? || stage.Writing? {
      AddWrites(s, t, p, r, m, h, stamp, a);
    }
  }

  lemma {:induction false} AddRun(
      s: Sys, actions: seq<Action>, p: int, r: Receipt, m: Manifest, h: string, stamp: Instant)
    requires HistoryOk(s) && s.file == Some(m) && AddAlong(s, s, p, r, m, h, stamp)
    requires Alone(actions, p) && StoredAs(actions, h, stamp) && Steps(s, actions).Some?
    ensures AddAlong(s, Steps(s, actions).value, p, r, m, h, stamp)
  {
    if actions != [] {
      var n := |actions| - 1;
      assert Own(actions[n], p) && StoresAs(actions[n], h, stamp);
      AddRun(s, actions[..n], p, r, m, h, stamp);
      AddStep(s, Steps(s, actions[..n]).value, p, r, m, h, stamp, actions[n]);
    }
  }

  /** Every run of its own steps that ends an `evidence add` ends it the same way. The
      receipt stays when the lane is FROZEN without evidence of the method, the receipt is
      valid and no other one has its hash, also where the lane is then not changed. The lane
      gets the reference exactly when it has neither the name nor the hash and there is no
      residue; nothing else in it changes but the time. */
  lemma SoloEvidence(s: Sys, p: int, r: Receipt, m: Manifest, h: string, stamp: Instant, actions: seq<Action>)
    requires Inv(s) && s.lock.None? && p in s.procs && s.procs[p] == Starting(EvidenceAdd(r)) && s.file == Some(m)
    requires Alone(actions, p) && StoredAs(actions, h, stamp) && Steps(s, actions).Some?
    requires p in Steps(s, actions).value.procs && Ended(Steps(s, actions).value.procs[p])
    ensures var t := Steps(s, actions).value;
      var stored := Open(m, r) && IsHash(h) && ReceiptValid(BoundTo(m, r, stamp))
                    && (h in s.receipts ==> s.receipts[h] == BoundTo(m, r, stamp));
      && t.lock.None?
      && t.receipts == (if stored then s.receipts[h := BoundTo(m, r, stamp)] else s.receipts)
      && if stored && h !in Hashes(m.evidence) && s.temps == {} then
           && t.procs[p].Succeeded? && t.file == Some(t.procs[p].result) && t.temps == {}
           && t.procs[p].result == m.(evidence := m.evidence + [EvidenceReference(r.methodId, h)],
                                      updatedAt := t.procs[p].result.updatedAt)
         else t.procs[p] == Failed && t.file == s.file && t.temps == s.temps
  {
    AddRun(s, actions, p, r, m, h, stamp);
    if Appends(s, m, r, h, stamp) {
      AddFits(m, r, h, stamp, s);
    }
  }
}
