/** What commands do to the lane and what READY says of its reviewer, in every run and
    in terms of the recorded fields alone. */
module LaneOutcomes {
  import opened Wrappers
  import opened Order
  import opened Utf8
  import opened Manifest
  import opened Evidence
  import opened Policy
  import opened LaneLog
  import opened LaneHistory
  import opened LaneSystem
  import opened LaneMeaning
  import opened LaneInvariant
  import opened LaneSteps
  import opened LaneTheorems
  import opened LaneOrigins
  import L = Lifecycle

  // ---------- What each command does to the lane ----------

  predicate Blocks(m: Manifest, n: Manifest) {
    && m.state in {L.Planned, L.Active, L.Frozen, L.Reviewed, L.Ready}
    && n == m.(state := L.Blocked, blockedFrom := m.state, updatedAt := n.updatedAt)
  }

  predicate Resumes(m: Manifest, n: Manifest) {
    && m.state == L.Blocked && m.blockedFrom in {L.Planned, L.Active, L.Frozen, L.Reviewed, L.Ready}
    && n == m.(state := m.blockedFrom, blockedFrom := L.Other(""), updatedAt := n.updatedAt)
  }

  predicate Exits(m: Manifest, n: Manifest, state: L.State) {
    && m.state !in {L.Closed, L.Abandoned, L.Incident}
    && n == m.(state := state, blockedFrom := L.Other(""), updatedAt := n.updatedAt)
  }

  predicate Advances(m: Manifest, n: Manifest, before: L.State, after: L.State) {
    && m.state == before
    && n == m.(state := after, freeze := n.freeze, review := n.review, updatedAt := n.updatedAt)
  }

  /** The whole difference between the lane before and after a commit of this command. */
  predicate EffectOf(command: Command, m: Manifest, n: Manifest) {
    match command
    case LaneOpen(_, _) => false
    case LaneTransition(event, _) =>
      if event.Block? then Blocks(m, n)
      else if event.Resume? then Resumes(m, n)
      else Exits(m, n, if event.Abandon? then L.Abandoned else L.Incident)
    case Freeze(_) => Advances(m, n, L.Active, L.Frozen) && n.freeze.Some? && n.review == m.review
    case EvidenceAdd(r) =>
      && |n.evidence| == |m.evidence| + 1 && n.evidence[|m.evidence|].name == r.methodId
      && n == m.(evidence := m.evidence + [n.evidence[|m.evidence|]], updatedAt := n.updatedAt)
    case ReviewRecord(_) => Advances(m, n, L.Frozen, L.Reviewed) && n.review.Some? && n.freeze == m.freeze
    case Ready => Advances(m, n, L.Reviewed, L.Ready) && n.freeze == m.freeze && n.review == m.review
    case Close(_) => Advances(m, n, L.Ready, L.Closed) && n.freeze == m.freeze && n.review == m.review
    case AgentBlock => Blocks(m, n)
  }

  lemma PausedEffect(hasher: Hasher, m: Manifest, c: Commit, event: L.Event)
    requires Tidy(hasher, m) && Follows(hasher, m, c)
    requires c.txn.value.event == Some(event) && c.txn.value.mutator == NoChange
    ensures event.Block? ==> Blocks(m, c.content)
    ensures event.Resume? ==> Resumes(m, c.content)
    ensures event.Abandon? ==> Exits(m, c.content, L.Abandoned)
    ensures event.IncidentEvent? ==> Exits(m, c.content, L.Incident)
    ensures event.MarkReady? ==> Advances(m, c.content, L.Reviewed, L.Ready)
                                 && c.content.freeze == m.freeze && c.content.review == m.review
    ensures event.Close? ==> Advances(m, c.content, L.Ready, L.Closed)
                             && c.content.freeze == m.freeze && c.content.review == m.review
  {
  }

  lemma RecordEffect(hasher: Hasher, m: Manifest, c: Commit)
    requires Tidy(hasher, m) && Follows(hasher, m, c)
    ensures c.txn.value.mutator.SetFreeze? ==>
              Advances(m, c.content, L.Active, L.Frozen) && c.content.review == m.review
              && c.content.freeze == Some(c.txn.value.mutator.freeze)
    ensures c.txn.value.mutator.SetReview? ==>
              Advances(m, c.content, L.Frozen, L.Reviewed) && c.content.freeze == m.freeze
              && c.content.review == Some(c.txn.value.mutator.review)
    ensures c.txn.value.mutator.AppendEvidence? ==>
              c.content == m.(evidence := m.evidence + [c.txn.value.mutator.reference],
                              updatedAt := c.content.updatedAt)
  {
  }

  /** In every run the content of each commit after the first differs from the one
      before it by what the command of its owner stands for, and by nothing else. */
  lemma CommandEffect(hasher: Hasher, actions: seq<Action>, k: nat, i: nat) returns (command: Command)
    requires Run(hasher, actions).Some? && k + 1 == i < |Run(hasher, actions).value.log|
    ensures var log := Run(hasher, actions).value.log;
      SpawnedOnce(actions, log[i].owner, command) && EffectOf(command, log[k].content, log[i].content)
  {
    command := CommitCommand(hasher, actions, i);
    RunInv(hasher, actions);
    RunHasher(hasher, actions);
    var s := Run(hasher, actions).value;
    NextFollows(hasher, s.log, k, i);
    AllTidy(hasher, s.log, k);
    MadeEffect(Past(hasher, actions, s.log[..i], s.receipts), command, s.log[k].content, s.log[i]);
  }

  lemma MadeEffect(past: Past, command: Command, m: Manifest, c: Commit)
    requires Tidy(past.hasher, m) && Follows(past.hasher, m, c) && MadeBy(past, command, c)
    ensures EffectOf(command, m, c.content)
  {
    RecordEffect(past.hasher, m, c);
    if c.txn.value.mutator.NoChange? {
      PausedEffect(past.hasher, m, c, c.txn.value.event.value);
    }
  }

  /** A command that reports success has made exactly the commit it asks for, with the
      content it returns. */
  lemma SuccessIsCommit(hasher: Hasher, actions: seq<Action>, p: int) returns (command: Command, i: nat)
    requires Run(hasher, actions).Some? && p in Run(hasher, actions).value.procs
    requires Run(hasher, actions).value.procs[p].Succeeded?
    ensures var s := Run(hasher, actions).value;
      && SpawnedOnce(actions, p, command) && i < |s.log|
      && s.log[i].owner == p && s.log[i].content == s.procs[p].result
      && MadeBy(Past(hasher, actions, s.log[..i], s.receipts), command, s.log[i])
      && forall j :: 0 <= j < |s.log| && s.log[j].owner == p ==> j == i
  {
    OneCommitEach(hasher, actions, p);
    var s := Run(hasher, actions).value;
    i :| 0 <= i < |s.log| && s.log[i] == CommitOf(p, s.procs[p].job, s.procs[p].result);
    command := CommitCommand(hasher, actions, i);
  }

  // ---------- Who reviewed ----------

  /** Some commit up to this one wrote the review that is on the lane. */
  lemma {:induction false} ReviewWriter(hasher: Hasher, log: Log, i: nat) returns (j: nat)
    requires Legal(hasher, log) && i < |log| && log[i].content.review.Some?
    ensures j <= i && log[j].txn.Some?
    ensures log[j].txn.value.mutator == SetReview(log[i].content.review.value)
  {
    FirstOpens(hasher, log);
    var k := i - 1;
    NextFollows(hasher, log, k, i);
    StepState(log[i].txn.value, log[k].content);
    if log[i].txn.value.mutator.SetReview? {
      j := i;
    } else {
      j := ReviewWriter(hasher, log, k);
    }
  }

  /** The record is of what this input of `review record` said. */
  predicate Records(input: ReviewInput, r: ReviewRecord) {
    && r.reviewer == input.reviewer && r.family == input.family && r.seatId == input.seatId && r.at == input.at
    && Verdict(input.verdict, r.verdict)
  }

  lemma ReviewAsked(past: Past, command: Command, c: Commit)
    requires MadeBy(past, command, c) && c.txn.Some? && c.txn.value.mutator.SetReview?
    ensures command.ReviewRecord? && Records(command.input, c.txn.value.mutator.review)
    ensures Sorted(c.txn.value.mutator.review.evidenceHashes)
  {
  }

  /** In every run a review on the lane is what one reviewer said: the record has the
      reviewer, family, seat and time of one `review record`, and PASS or FAIL by its word. */
  lemma ReviewedBy(hasher: Hasher, actions: seq<Action>) returns (j: nat, input: ReviewInput)
    requires Run(hasher, actions).Some? && Run(hasher, actions).value.file.Some?
    requires Run(hasher, actions).value.file.value.review.Some?
    ensures var s := Run(hasher, actions).value; var r := s.file.value.review.value;
      && j < |s.log| && SpawnedOnce(actions, s.log[j].owner, Command.ReviewRecord(input))
      && s.log[j].txn.Some? && s.log[j].txn.value.mutator == SetReview(r)
      && Records(input, r) && Sorted(r.evidenceHashes)
  {
    RunInv(hasher, actions);
    var s := Run(hasher, actions).value;
    j := ReviewWriter(s.hasher, s.log, |s.log| - 1);
    var command := CommitCommand(hasher, actions, j);
    ReviewAsked(Past(hasher, actions, s.log[..j], s.receipts), command, s.log[j]);
    input := command.input;
  }

  /** READY, CLOSED, or BLOCKED from READY. */
  predicate BeyondReady(m: Manifest) {
    m.state in {L.Ready, L.Closed} || (m.state == L.Blocked && m.blockedFrom == L.Ready)
  }

  lemma BeyondIsReady(hasher: Hasher, m: Manifest)
    requires Valid(hasher, m)
    ensures BeyondReady(m) <==> ReadyState(m)
  {
  }

  /** No lane gets to READY but on the word of a reviewer who passed it. */
  lemma ReadyByReviewer(hasher: Hasher, actions: seq<Action>) returns (p: int, input: ReviewInput)
    requires Run(hasher, actions).Some? && Run(hasher, actions).value.file.Some?
    requires BeyondReady(Run(hasher, actions).value.file.value)
    ensures SpawnedOnce(actions, p, Command.ReviewRecord(input)) && input.verdict in {"pass", "approve", "approved"}
    ensures var m := Run(hasher, actions).value.file.value;
      && m.review.Some? && m.review.value.reviewer == input.reviewer && m.review.value.family == input.family
      && m.review.value.seatId == input.seatId && m.review.value.at == input.at && m.review.value.verdict == "PASS"
  {
    RunInv(hasher, actions);
    ReadyMeans(hasher, actions);
    var s := Run(hasher, actions).value;
    FileTidy(s);
    BeyondIsReady(s.hasher, s.file.value);
    var j;
    j, input := ReviewedBy(hasher, actions);
    p := s.log[j].owner;
  }

  lemma OnceIsOne(actions: seq<Action>, p: int, a: Command, b: Command)
    requires SpawnedOnce(actions, p, a) && SpawnedOnce(actions, p, b)
    ensures a == b
  {
    var i :| 0 <= i < |actions| && actions[i] == Spawn(p, a)
      && forall k :: 0 <= k < |actions| && actions[k].Spawn? && actions[k].p == p ==> k == i;
    var j :| 0 <= j < |actions| && actions[j] == Spawn(p, b)
      && forall k :: 0 <= k < |actions| && actions[k].Spawn? && actions[k].p == p ==> k == j;
  }

  /** Once a rejection is committed no continuation makes the lane READY. */
  lemma RejectedNeverReady(hasher: Hasher, actions: seq<Action>, j: nat, input: ReviewInput)
    requires Run(hasher, actions).Some? && j < |Run(hasher, actions).value.log|
    requires SpawnedOnce(actions, Run(hasher, actions).value.log[j].owner, Command.ReviewRecord(input))
    requires input.verdict in {"fail", "reject", "rejected"}
    ensures var s := Run(hasher, actions).value;
      s.file.Some? && s.file.value.review.Some? && s.file.value.review.value.verdict == "FAIL"
      && !BeyondReady(s.file.value)
  {
    RunInv(hasher, actions);
    RunHasher(hasher, actions);
    var s := Run(hasher, actions).value;
    var command := CommitCommand(hasher, actions, j);
    OnceIsOne(actions, s.log[j].owner, command, Command.ReviewRecord(input));
    RejectionStays(Past(hasher, actions, s.log[..j], s.receipts), s, j, input);
    ReadyMeans(hasher, actions);
    FileTidy(s);
    BeyondIsReady(s.hasher, s.file.value);
  }

  lemma RejectionStays(past: Past, s: Sys, j: nat, input: ReviewInput)
    requires HistoryOk(s) && j < |s.log| && s.hasher == past.hasher
    requires MadeBy(past, Command.ReviewRecord(input), s.log[j])
    requires input.verdict in {"fail", "reject", "rejected"}
    ensures s.file.Some? && s.file.value.review.Some? && s.file.value.review.value.verdict == "FAIL"
  {
    ReviewAsked(past, Command.ReviewRecord(input), s.log[j]);
    var n := |s.log| - 1;
    ReviewInContent(s, j);
    HistoryEvolves(s.hasher, s.log, j, n);
  }

  lemma ReviewInContent(s: Sys, j: nat)
    requires HistoryOk(s) && j < |s.log| && s.log[j].txn.Some? && s.log[j].txn.value.mutator.SetReview?
    ensures s.log[j].content.review == Some(s.log[j].txn.value.mutator.review)
  {
    FirstOpens(s.hasher, s.log);
    var k := j - 1;
    NextFollows(s.hasher, s.log, k, j);
    StepState(s.log[j].txn.value, s.log[k].content);
  }

  // ---------- READY, outright ----------

  /** A receipt of this method on this candidate and dispatch that reports success. */
  predicate Succeeds(receipts: Receipts, ref: EvidenceReference, candidate: string, dispatchHash: string) {
    && ref.hash in receipts && receipts[ref.hash].methodId == ref.name
    && receipts[ref.hash].candidateHash == candidate && receipts[ref.hash].manifestHash == dispatchHash
    && receipts[ref.hash].resultClass == "SUCCESS" && receipts[ref.hash].exitCode == 0
  }

  /** The first `n` pieces of evidence succeed, have distinct names, cover every required
      check, and are what the review cites, listed in ascending order. */
  ghost predicate Supports(m: Manifest, r: ReviewRecord, candidate: string, n: nat, receipts: Receipts) {
    && n <= |m.evidence|
    && (forall i :: 0 <= i < n ==> Succeeds(receipts, m.evidence[i], candidate, m.dispatchHash))
    && (forall i, j :: 0 <= i < j < n ==> m.evidence[i].name != m.evidence[j].name)
    && m.dispatch.requiredChecks.Some? && m.dispatch.requiredChecks.value != []
    && (forall name :: name in m.dispatch.requiredChecks.value ==>
          exists i :: 0 <= i < n && m.evidence[i].name == name)
    && (forall h :: h in r.evidenceHashes <==> exists i :: 0 <= i < n && m.evidence[i].hash == h)
    && (forall i, j :: 0 <= i < j < |r.evidenceHashes| ==>
          BytesLe(Encode(r.evidenceHashes[i]), Encode(r.evidenceHashes[j])))
  }

  lemma CitedSupports(m: Manifest, n: nat, receipts: Receipts)
    requires Cites(m, n, receipts) && Sorted(m.review.value.evidenceHashes)
    ensures Supports(m, m.review.value, m.freeze.value.candidate, n, receipts)
  {
    var some := m.evidence[..n];
    var hashes := m.review.value.evidenceHashes;
    CitedReceipts(m, n, receipts);
    CitedNames(m, n, receipts);
    CitedHashes(m, n, receipts);
    forall i, j | 0 <= i < j < |hashes|
      ensures BytesLe(Encode(hashes[i]), Encode(hashes[j]))
    {
      OrderOfBytes(hashes[i], hashes[j]);
    }
  }

  lemma CitedReceipts(m: Manifest, n: nat, receipts: Receipts)
    requires Cites(m, n, receipts)
    ensures forall i :: 0 <= i < n ==> Succeeds(receipts, m.evidence[i], m.freeze.value.candidate, m.dispatchHash)
  {
    forall i | 0 <= i < n
      ensures Succeeds(receipts, m.evidence[i], m.freeze.value.candidate, m.dispatchHash)
    {
      assert UpTo(m, n).evidence[i] == m.evidence[i];
      assert Backed(UpTo(m, n).evidence[i], m.freeze.value.candidate, m.dispatchHash, receipts);
    }
  }

  lemma CitedNames(m: Manifest, n: nat, receipts: Receipts)
    requires Cites(m, n, receipts)
    ensures forall i, j :: 0 <= i < j < n ==> m.evidence[i].name != m.evidence[j].name
    ensures m.dispatch.requiredChecks.Some? && m.dispatch.requiredChecks.value != []
    ensures forall name :: name in m.dispatch.requiredChecks.value ==>
              exists i :: 0 <= i < n && m.evidence[i].name == name
  {
    var names := Names(m.evidence[..n]);
    assert UpTo(m, n).evidence == m.evidence[..n];
    assert forall i :: 0 <= i < n ==> names[i] == m.evidence[i].name;
    forall i, j | 0 <= i < j < n
      ensures m.evidence[i].name != m.evidence[j].name
    {
      assert names[i] != names[j];
    }
    forall name | name in m.dispatch.requiredChecks.value
      ensures exists i :: 0 <= i < n && m.evidence[i].name == name
    {
      assert name in Required(UpTo(m, n));
      var i :| 0 <= i < |names| && names[i] == name;
      assert m.evidence[i].name == name;
    }
  }

  lemma CitedHashes(m: Manifest, n: nat, receipts: Receipts)
    requires Cites(m, n, receipts)
    ensures forall h :: h in m.review.value.evidenceHashes <==> exists i :: 0 <= i < n && m.evidence[i].hash == h
  {
    var hashes, cited := Hashes(m.evidence[..n]), m.review.value.evidenceHashes;
    assert forall i :: 0 <= i < n ==> hashes[i] == m.evidence[i].hash;
    forall h
      ensures h in cited <==> exists i :: 0 <= i < n && m.evidence[i].hash == h
    {
      if h in cited {
        var k :| 0 <= k < |cited| && cited[k] == h;
        var i :| 0 <= i < |hashes| && hashes[i] == h;
        assert m.evidence[i].hash == h;
      }
      if i :| 0 <= i < n && m.evidence[i].hash == h {
        assert hashes[i] in cited;
      }
    }
  }

  /** What READY says, at every moment of every run: a reviewer of another family and seat
      passed the frozen candidate, citing evidence that succeeds on it and covers every
      required check. */
  lemma ReadyOutright(hasher: Hasher, actions: seq<Action>) returns (n: nat)
    requires Run(hasher, actions).Some? && Run(hasher, actions).value.file.Some?
    requires BeyondReady(Run(hasher, actions).value.file.value)
    ensures var s := Run(hasher, actions).value; var m := s.file.value;
      && m.review.Some? && m.freeze.Some?
      && var r := m.review.value;
         && r.verdict == "PASS" && r.fingerprint == m.freeze.value.candidate
         && r.family !in {"", m.dispatch.family} && r.seatId !in {"", m.dispatch.seatId}
         && Supports(m, r, m.freeze.value.candidate, n, s.receipts)
  {
    RunInv(hasher, actions);
    ReadyMeans(hasher, actions);
    var s := Run(hasher, actions).value;
    var m := s.file.value;
    FileTidy(s);
    BeyondIsReady(s.hasher, m);
    n :| Cites(m, n, s.receipts);
    var j, input := ReviewedBy(hasher, actions);
    CitedSupports(m, n, s.receipts);
  }
}
