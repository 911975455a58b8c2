/** What the records of a stored lane mean, and why each commit keeps it. */
module LaneMeaning {
  import opened Wrappers
  import opened Manifest
  import opened Evidence
  import opened Policy
  import opened LaneLog
  import opened LaneHistory
  import opened LaneSystem
  import L = Lifecycle

  /** The lane with only the first `n` pieces of evidence. */
  function UpTo(m: Manifest, n: nat): Manifest
    requires n <= |m.evidence|
  {
    m.(evidence := m.evidence[..n])
  }

  /** The review cites, as a set, the first `n` pieces of evidence; they are
      success receipts bound to the candidate and dispatch and cover all required
      checks; the reviewer is of another family and seat. */
  ghost predicate Cites(m: Manifest, n: nat, receipts: Receipts) {
    n <= |m.evidence| &&
    match m.review
    case None => false
    case Some(r) =>
      && EvidenceVerified(UpTo(m, n), receipts) && SameMembers(Hashes(m.evidence[..n]), r.evidenceHashes)
      && ReviewIndependent(m) && m.freeze.Some? && r.fingerprint == m.freeze.value.candidate
  }

  /** READY, CLOSED, or BLOCKED from READY. */
  predicate ReadyState(m: Manifest) {
    L.AtOrAfter(LaneSnapshot(m), L.Ready)
  }

  predicate ReviewedPass(m: Manifest) {
    m.review.Some? && m.review.value.verdict == "PASS"
  }

  /** There is a receipt of this method, bound to the lane's frozen candidate and
      dispatch, under the hash of the reference. */
  ghost predicate Attested(ref: EvidenceReference, m: Manifest, receipts: Receipts) {
    match m.freeze
    case None => false
    case Some(f) =>
      && ref.hash in receipts && receipts[ref.hash].methodId == ref.name
      && receipts[ref.hash].candidateHash == f.candidate && receipts[ref.hash].manifestHash == m.dispatchHash
  }

  ghost predicate AllAttested(m: Manifest, receipts: Receipts) {
    forall i :: 0 <= i < |m.evidence| ==> Attested(m.evidence[i], m, receipts)
  }

  ghost predicate ContentOk(m: Manifest, receipts: Receipts) {
    && AllAttested(m, receipts)
    && (m.review.Some? ==> exists n :: Cites(m, n, receipts))
    && (ReadyState(m) ==> ReviewedPass(m))
  }

  ghost predicate Seen(log: Log, m: Manifest) {
    exists i :: 0 <= i < |log| && log[i].content == m
  }

  /** A change that needs a reason was decided on a content of the history. */
  ghost predicate Grounded(txn: Txn, ground: Ground, log: Log, receipts: Receipts) {
    match ground
    case Unconditional => txn.event != Some(L.MarkReady) && !txn.mutator.SetReview? && !txn.mutator.AppendEvidence?
    case OnEvidence(seen) =>
      && Seen(log, seen) && txn.event.None? && txn.mutator.AppendEvidence?
      && Attested(txn.mutator.reference, seen, receipts)
    case OnReview(seen, input, current) =>
      && Seen(log, seen) && ReviewGate(seen, input, current, receipts)
      && txn.event == Some(L.RecordReview) && txn.mutator == SetReview(ReviewOf(seen, input))
    case OnReady(seen, current) =>
      && Seen(log, seen) && Approved(seen, current, receipts)
      && txn.event == Some(L.MarkReady) && txn.mutator == NoChange
  }

  lemma CitesKept(a: Manifest, b: Manifest, n: nat, receipts: Receipts, later: Receipts)
    requires Cites(a, n, receipts) && Evolves(a, b) && Grew(receipts, later)
    ensures Cites(b, n, later)
  {
    assert b.evidence[..n] == a.evidence[..n];
    GrewVerified(UpTo(b, n), UpTo(a, n), receipts, later);
  }

  lemma AttestedKept(ref: EvidenceReference, a: Manifest, b: Manifest, receipts: Receipts, later: Receipts)
    requires Attested(ref, a, receipts) && Evolves(a, b) && Grew(receipts, later)
    ensures Attested(ref, b, later)
  {
  }

  lemma ContentOkGrows(m: Manifest, receipts: Receipts, later: Receipts)
    requires ContentOk(m, receipts) && Grew(receipts, later)
    ensures ContentOk(m, later)
  {
    forall i | 0 <= i < |m.evidence|
      ensures Attested(m.evidence[i], m, later)
    {
      AttestedKept(m.evidence[i], m, m, receipts, later);
    }
    if m.review.Some? {
      var n :| Cites(m, n, receipts);
      CitesKept(m, m, n, receipts, later);
    }
  }

  lemma SeenEvolves(hasher: Hasher, log: Log, seen: Manifest)
    requires Legal(hasher, log) && Seen(log, seen)
    ensures log != [] && Evolves(seen, Last(log))
  {
    var i :| 0 <= i < |log| && log[i].content == seen;
    var j := |log| - 1;
    HistoryEvolves(hasher, log, i, j);
  }

  /** A recorded review cites what its gate verified. */
  lemma ReviewCites(seen: Manifest, input: ReviewInput, current: Fingerprint, receipts: Receipts,
                    before: Manifest, after: Manifest)
    requires ReviewGate(seen, input, current, receipts) && Evolves(seen, before)
    requires after.review == Some(ReviewOf(seen, input)) && after.freeze == before.freeze
    requires after.evidence == before.evidence
    requires after.dispatch == before.dispatch && after.dispatchHash == before.dispatchHash
    ensures Cites(after, |seen.evidence|, receipts)
  {
    var n := |seen.evidence|;
    assert after.evidence[..n] == seen.evidence;
    SortKeepsMembers(Hashes(seen.evidence));
    assert Grew(receipts, receipts);
    GrewVerified(UpTo(after, n), seen, receipts, receipts);
  }

  lemma ReviewKept(hasher: Hasher, before: Manifest, c: Commit, receipts: Receipts)
    requires Tidy(hasher, before) && Follows(hasher, before, c) && !c.txn.value.mutator.SetReview?
    requires before.review.Some? ==> exists n :: Cites(before, n, receipts)
    ensures c.content.review == before.review
    ensures c.content.review.Some? ==> exists n :: Cites(c.content, n, receipts)
  {
    StepEvolves(hasher, before, c);
    StepState(c.txn.value, before);
    if before.review.Some? {
      var n :| Cites(before, n, receipts);
      assert Grew(receipts, receipts);
      CitesKept(before, c.content, n, receipts, receipts);
    }
  }

  /** Only MarkReady leads to READY. */
  lemma ReadyEntered(hasher: Hasher, before: Manifest, c: Commit)
    requires Tidy(hasher, before) && Follows(hasher, before, c) && ReadyState(c.content)
    ensures ReadyState(before) || c.txn.value.event == Some(L.MarkReady)
    ensures !c.txn.value.mutator.SetReview?
  {
    var t := c.txn.value;
    StepState(t, before);
    if t.event.Some? {
      L.StepShape(LaneSnapshot(before), t.event.value);
      ChainAt();
    }
  }

  lemma ChainAt()
    ensures L.CHAIN[2] == L.RecordReview && L.CHAIN[3] == L.MarkReady
  {
  }

  /** Every commit made on such a ground keeps the meaning of the records. */
  lemma CommitKeepsMeaning(hasher: Hasher, log: Log, c: Commit, ground: Ground, receipts: Receipts)
    requires Legal(hasher, log) && log != [] && Follows(hasher, Last(log), c)
    requires Grounded(c.txn.value, ground, log, receipts) && ContentOk(Last(log), receipts)
    ensures ContentOk(c.content, receipts)
  {
    var before := Last(log);
    var k := |log| - 1;
    AllTidy(hasher, log, k);
    CommitAttested(hasher, log, c, ground, receipts, before);
    if c.txn.value.mutator.SetReview? {
      RecordedMeaning(hasher, log, c, ground, receipts, before);
    } else {
      ReviewKept(hasher, before, c, receipts);
    }
    if ReadyState(c.content) {
      ReadyEntered(hasher, before, c);
      if !ReadyState(before) {
        SeenEvolves(hasher, log, ground.seen);
      }
    }
  }

  /** Evidence on the file stays attested, and what is appended is. */
  lemma CommitAttested(hasher: Hasher, log: Log, c: Commit, ground: Ground, receipts: Receipts, before: Manifest)
    requires Legal(hasher, log) && log != [] && before == Last(log) && Follows(hasher, before, c)
    requires Tidy(hasher, before) && AllAttested(before, receipts)
    requires Grounded(c.txn.value, ground, log, receipts)
    ensures AllAttested(c.content, receipts)
  {
    StepEvolves(hasher, before, c);
    StepState(c.txn.value, before);
    assert Grew(receipts, receipts);
    forall i | 0 <= i < |c.content.evidence|
      ensures Attested(c.content.evidence[i], c.content, receipts)
    {
      if i < |before.evidence| {
        assert c.content.evidence[i] == before.evidence[i];
        AttestedKept(before.evidence[i], before, c.content, receipts, receipts);
      } else {
        SeenEvolves(hasher, log, ground.seen);
        EvolvesTransitive(ground.seen, before, c.content);
        AttestedKept(c.txn.value.mutator.reference, ground.seen, c.content, receipts, receipts);
      }
    }
  }

  lemma RecordedMeaning(hasher: Hasher, log: Log, c: Commit, ground: Ground, receipts: Receipts, before: Manifest)
    requires Legal(hasher, log) && log != [] && before == Last(log) && Follows(hasher, before, c)
    requires Grounded(c.txn.value, ground, log, receipts) && c.txn.value.mutator.SetReview?
    ensures exists n :: Cites(c.content, n, receipts)
  {
    SeenEvolves(hasher, log, ground.seen);
    StepIdentity(c.txn.value, before);
    StepState(c.txn.value, before);
    assert c.content.evidence == before.evidence + [] == before.evidence;
    ReviewCites(ground.seen, ground.input, ground.current, receipts, before, c.content);
  }

  // ---------- What freezing and adding evidence bind ----------

  /** A lane frozen on a fingerprint has drifted exactly when the current one differs
      in any part. */
  lemma FrozenOn(m: Manifest, f: Fingerprint, now: Instant, current: Fingerprint)
    requires m.freeze == Some(FreezeOf(f, now)) && f.manifestHash == m.dispatchHash
    ensures Drifted(m, current) <==> current != f
  {
  }

  /** The receipt a handler adds is bound to the lane it loaded, and the reference it
      goes on to append is attested there, under a new name and a new hash. */
  lemma AddedIsAttested(
      s: Sys, p: int, m: Manifest, input: Receipt, world: World, h: string, stamp: Instant, synced: bool)
    requires Decide(EvidenceAdd(input), m, world, s.receipts).Adding?
    ensures var t := AddReceiptStep(s, p, Decide(EvidenceAdd(input), m, world, s.receipts), h, stamp, synced);
      t.procs[p].Calling? ==>
        var ref := t.procs[p].txn.mutator.reference;
        && t.procs[p].txn.event.None? && ref.hash !in Hashes(m.evidence) && ref.name !in Names(m.evidence)
        && Attested(ref, m, t.receipts)
  {
  }
}
