/** What holds of every run of the lane system, in every interleaving of the
    command processes, their failures and their deaths. */
module LaneTheorems {
  import opened Wrappers
  import opened Manifest
  import opened Evidence
  import opened Policy
  import opened LaneLog
  import opened LaneHistory
  import opened LaneSystem
  import opened LaneMeaning
  import opened LaneInvariant
  import opened LaneSteps
  import L = Lifecycle

  // ---------- Linearizability ----------

  /** The installs are one sequence: each is the opening of the lane or the named
      change applied to the content just before it, and the file is the last. */
  lemma Linearizable(hasher: Hasher, actions: seq<Action>, i: nat)
    requires Run(hasher, actions).Some? && i < |Run(hasher, actions).value.log|
    ensures var s := Run(hasher, actions).value;
            s.file == Some(Last(s.log)) && CommitAt(hasher, s.log, i)
  {
    RunInv(hasher, actions);
    RunHasher(hasher, actions);
  }

  lemma {:induction false} RunHasher(hasher: Hasher, actions: seq<Action>)
    requires Run(hasher, actions).Some?
    ensures Run(hasher, actions).value.hasher == hasher
  {
    if actions != [] {
      var before := actions[..|actions| - 1];
      RunHasher(hasher, before);
      StepHasher(Run(hasher, before).value, actions[|actions| - 1]);
    }
  }

  lemma StepHasher(s: Sys, a: Action)
    requires Step(s, a).Some?
    ensures Step(s, a).value.hasher == s.hasher
  {
  }

  lemma FollowsMeets(hasher: Hasher, before: Manifest, c: Commit)
    requires Follows(hasher, before, c)
    ensures Meets(c.txn.value.expected, before)
  {
  }

  /** In every run the hash a caller expected is that of the content just before its
      commit, and a caller who had to give one did. */
  lemma ExpectedHashMet(hasher: Hasher, actions: seq<Action>, k: nat, i: nat)
    requires Run(hasher, actions).Some? && k + 1 == i < |Run(hasher, actions).value.log|
    ensures var log := Run(hasher, actions).value.log;
      && log[i].txn.Some?
      && var e := log[i].txn.value.expected;
         (e.required ==> !e.value.NoHash?) && (!e.value.NoHash? ==> e.value == HashOf(log[k].content))
  {
    RunInv(hasher, actions);
    RunHasher(hasher, actions);
    var log := Run(hasher, actions).value.log;
    NextFollows(hasher, log, k, i);
    FollowsMeets(hasher, log[k].content, log[i]);
  }

  /** Every successful operation has exactly one commit, of the change it asked for
      and with the content it returns, and no operation ever has two. */
  lemma OneCommitEach(hasher: Hasher, actions: seq<Action>, p: int)
    requires Run(hasher, actions).Some?
    ensures var s := Run(hasher, actions).value;
      && (p in s.procs && s.procs[p].Succeeded? ==> CommittedAs(s.log, p, s.procs[p].job, s.procs[p].result))
      && (forall i, j :: 0 <= i < j < |s.log| ==> s.log[i].owner != s.log[j].owner)
  {
    RunInv(hasher, actions);
    var s := Run(hasher, actions).value;
    if p in s.procs {
      assert StageOk(s, p, s.procs[p]);
    }
  }

  /** Crash atomicity: only an install changes the file, in one step, to the
      content its process prepared; no failure and no death changes it. */
  lemma OnlyInstallChanges(s: Sys, a: Action)
    requires Step(s, a).Some?
    ensures var t := Step(s, a).value;
      if t.log == s.log then t.file == s.file
      else a.Install? && s.procs[a.p].Writing? && s.procs[a.p].phase.Staged?
           && t.file == Some(s.procs[a.p].next)
           && t.log == s.log + [CommitOf(a.p, s.procs[a.p].job, s.procs[a.p].next)]
  {
  }

  // ---------- Along a run ----------

  lemma LogGrows(s: Sys, a: Action)
    requires Step(s, a).Some?
    ensures s.log <= Step(s, a).value.log
  {
    OnlyInstallChanges(s, a);
  }

  lemma ReceiptsGrow(s: Sys, a: Action)
    requires Step(s, a).Some?
    ensures Grew(s.receipts, Step(s, a).value.receipts)
  {
    if a.AddReceipt? {
      AddedGrows(s, a.p, s.procs[a.p], a.hash, a.stamp, a.synced);
    } else if !a.OtherReceipt? {
      assert Step(s, a).value.receipts == s.receipts;
    }
  }

  lemma AddedGrows(s: Sys, p: int, stage: Stage, h: string, stamp: Instant, synced: bool)
    requires stage.Adding?
    ensures Grew(s.receipts, AddReceiptStep(s, p, stage, h, stamp, synced).receipts)
  {
  }

  lemma {:induction false} RunGrows(hasher: Hasher, first: seq<Action>, more: seq<Action>)
    requires Run(hasher, first + more).Some?
    ensures Run(hasher, first).Some?
    ensures var s, t := Run(hasher, first).value, Run(hasher, first + more).value;
            s.log <= t.log && Grew(s.receipts, t.receipts)
    decreases |more|
  {
    if more == [] {
      assert first + more == first;
    } else {
      var init, a := more[..|more| - 1], more[|more| - 1];
      assert (first + more)[..|first + more| - 1] == first + init;
      RunGrows(hasher, first, init);
      var u := Run(hasher, first + init).value;
      LogGrows(u, a);
      ReceiptsGrow(u, a);
    }
  }

  /** From any moment to any later one: the same lane and dispatch, records
      written before unchanged, evidence only appended, no receipt changed. */
  lemma LaneEvolves(hasher: Hasher, first: seq<Action>, more: seq<Action>)
    requires Run(hasher, first + more).Some? && Run(hasher, first).Some?
    requires Run(hasher, first).value.file.Some?
    ensures var s, t := Run(hasher, first).value, Run(hasher, first + more).value;
            t.file.Some? && Evolves(s.file.value, t.file.value) && Grew(s.receipts, t.receipts)
  {
    RunGrows(hasher, first, more);
    RunInv(hasher, first);
    RunInv(hasher, first + more);
    RunHasher(hasher, first + more);
    EvolvesBetween(Run(hasher, first).value, Run(hasher, first + more).value);
  }

  lemma EvolvesBetween(s: Sys, t: Sys)
    requires HistoryOk(s) && HistoryOk(t) && s.file.Some? && s.log <= t.log
    ensures t.file.Some? && Evolves(s.file.value, t.file.value)
  {
    var i, j := |s.log| - 1, |t.log| - 1;
    assert t.log[i] == s.log[i];
    HistoryEvolves(t.hasher, t.log, i, j);
  }

  // ---------- Residue ----------

  /** A temporary whose process has ended. */
  predicate Residue(s: Sys, p: int) {
    p in s.temps && p in s.procs && Ended(s.procs[p])
  }

  /** The scan is refused exactly by residue: a live writer's temporary is never
      there to be mistaken for it. */
  lemma ScanSeesResidueOnly(s: Sys, p: int, q: int)
    requires Inv(s) && p in s.procs && s.procs[p].Writing? && s.procs[p].phase.Checked?
    ensures q in s.temps <==> Residue(s, q)
  {
    assert StageOk(s, p, s.procs[p]);
    if q in s.temps {
      assert q in s.procs;
      assert StageOk(s, q, s.procs[q]);
      assert q != p;
      assert !Holding(s.procs[q]);
    }
  }

  /** With residue about, no writer is past its scan. */
  lemma NoWriterPastScan(s: Sys, p: int, q: int)
    requires Inv(s) && Residue(s, p) && q in s.procs && s.procs[q].Writing?
    ensures s.procs[q].phase.Checked?
  {
    assert StageOk(s, q, s.procs[q]);
  }

  lemma QuietStep(s: Sys, a: Action, p: int)
    requires Residue(s, p) && !a.Spawn? && !a.OtherReceipt? && Step(s, a).Some?
    requires a.p != p && (s.procs[a.p].Writing? ==> s.procs[a.p].phase.Checked?)
    ensures Residue(Step(s, a).value, p) && Step(s, a).value.file == s.file
  {
  }

  lemma ResidueStep(s: Sys, a: Action, p: int)
    requires Inv(s) && Residue(s, p) && Step(s, a).Some?
    ensures Residue(Step(s, a).value, p) && Step(s, a).value.file == s.file
  {
    if !a.Spawn? && !a.OtherReceipt? {
      EndedTakesNoStep(s, a, p);
      if s.procs[a.p].Writing? {
        NoWriterPastScan(s, p, a.p);
      }
      QuietStep(s, a, p);
    }
  }

  lemma EndedTakesNoStep(s: Sys, a: Action, p: int)
    requires p in s.procs && Ended(s.procs[p]) && !a.OtherReceipt? && Step(s, a).Some?
    ensures a.p != p
  {
  }

  /** Residue is for ever: once a process has ended and left its temporary, the file
      never changes again, whoever tries. */
  lemma {:induction false} ResidueForever(hasher: Hasher, first: seq<Action>, more: seq<Action>, p: int)
    requires Run(hasher, first).Some? && Residue(Run(hasher, first).value, p)
    requires Run(hasher, first + more).Some?
    ensures var s, t := Run(hasher, first).value, Run(hasher, first + more).value;
            Residue(t, p) && t.file == s.file
    decreases |more|
  {
    if more == [] {
      assert first + more == first;
    } else {
      var init, a := more[..|more| - 1], more[|more| - 1];
      assert (first + more)[..|first + more| - 1] == first + init;
      ResidueForever(hasher, first, init, p);
      RunInv(hasher, first + init);
      ResidueStep(Run(hasher, first + init).value, a, p);
    }
  }

  // ---------- READY ----------

  /** At every moment of every run, a lane that is READY, CLOSED, or BLOCKED from
      READY has a PASS review that cites exactly a verified prefix of its evidence. */
  lemma ReadyMeans(hasher: Hasher, actions: seq<Action>)
    requires Run(hasher, actions).Some?
    ensures var s := Run(hasher, actions).value;
      s.file.Some? && ReadyState(s.file.value) ==>
        ReviewedPass(s.file.value) && exists n :: Cites(s.file.value, n, s.receipts)
  {
    RunInv(hasher, actions);
    var s := Run(hasher, actions).value;
    if s.file.Some? {
      var k := |s.log| - 1;
      assert ContentOk(s.log[k].content, s.receipts);
    }
  }

  /** A lane reviewed FAIL never becomes READY. */
  lemma FailNeverReady(hasher: Hasher, first: seq<Action>, more: seq<Action>)
    requires Run(hasher, first + more).Some? && Run(hasher, first).Some?
    requires var s := Run(hasher, first).value;
             s.file.Some? && s.file.value.review.Some? && s.file.value.review.value.verdict == "FAIL"
    ensures var t := Run(hasher, first + more).value; t.file.Some? && !ReadyState(t.file.value)
  {
    LaneEvolves(hasher, first, more);
    ReadyMeans(hasher, first + more);
  }

  /** The lane on disk is always where its events put it. */
  lemma {:induction false} FileIsLifecycleRun(hasher: Hasher, actions: seq<Action>)
    requires Run(hasher, actions).Some?
    ensures var s := Run(hasher, actions).value;
      s.file.Some? ==> L.Run(L.At(L.Planned), EventsOf(s.log)) == Some(LaneSnapshot(s.file.value))
  {
    RunInv(hasher, actions);
    RunHasher(hasher, actions);
    var s := Run(hasher, actions).value;
    if s.file.Some? {
      HistoryRuns(hasher, s.log);
    }
  }

  // ---------- Evidence and the two gates ----------

  lemma FileOk(s: Sys)
    requires Inv(s) && s.file.Some?
    ensures Tidy(s.hasher, s.file.value) && ContentOk(s.file.value, s.receipts) && ReceiptsValid(s.receipts)
  {
    FileTidy(s);
    var k := |s.log| - 1;
    assert ContentOk(s.log[k].content, s.receipts);
  }

  /** At every moment of every run each piece of evidence of the lane, cited or not,
      has an installed receipt of its method, bound to the frozen candidate and to
      the dispatch of the lane. */
  lemma EvidenceAttested(hasher: Hasher, actions: seq<Action>, i: nat)
    requires Run(hasher, actions).Some? && Run(hasher, actions).value.file.Some?
    requires i < |Run(hasher, actions).value.file.value.evidence|
    ensures var s := Run(hasher, actions).value;
            Attested(s.file.value.evidence[i], s.file.value, s.receipts)
  {
    RunInv(hasher, actions);
    FileOk(Run(hasher, actions).value);
  }

  /** Sets of distinct hashes with the same members are equally large. */
  lemma SameSize(a: seq<string>, b: seq<string>)
    requires IsHashSet(a) && IsHashSet(b) && SameMembers(a, b)
    ensures |a| == |b|
  {
    SortedAgree(a, b);
  }

  /** A review that cites all the evidence of the lane it is on. */
  lemma CitesAll(m: Manifest, n: nat, receipts: Receipts)
    requires Cites(m, n, receipts) && IsHashSet(m.review.value.evidenceHashes)
    requires |m.evidence| == |m.review.value.evidenceHashes|
    ensures EvidenceVerified(m, receipts) && SameMembers(Hashes(m.evidence), m.review.value.evidenceHashes)
  {
    SameSize(Hashes(UpTo(m, n).evidence), m.review.value.evidenceHashes);
    assert m.evidence[..n] == m.evidence;
    assert UpTo(m, n) == m;
  }

  /** A reviewed lane with a cited prefix is approved exactly when the verdict is PASS,
      the candidate has not drifted, and nothing has been added to what was cited. */
  lemma ReviewedApproved(hasher: Hasher, m: Manifest, n: nat, current: Fingerprint, receipts: Receipts)
    requires Valid(hasher, m) && m.state == L.Reviewed && ReceiptsValid(receipts) && Cites(m, n, receipts)
    ensures Approved(m, current, receipts) <==>
            ReviewedPass(m) && !Drifted(m, current) && |m.evidence| == |m.review.value.evidenceHashes|
  {
    var r := m.review.value;
    if Approved(m, current, receipts) {
      SameSize(Hashes(m.evidence), r.evidenceHashes);
    }
    if ReviewedPass(m) && !Drifted(m, current) && |m.evidence| == |r.evidenceHashes| {
      CitesAll(m, n, receipts);
      VerifiedHashes(m, receipts);
    }
  }

  /** Gate consistency: in every run, a lane in REVIEWED is approved exactly when its
      review is a PASS, the candidate is still the frozen one, and no evidence has been
      added since the review verified it. */
  lemma GateConsistency(hasher: Hasher, actions: seq<Action>, current: Fingerprint)
    requires Run(hasher, actions).Some? && Run(hasher, actions).value.file.Some?
    requires Run(hasher, actions).value.file.value.state == L.Reviewed
    ensures var s := Run(hasher, actions).value; var m := s.file.value;
      && m.review.Some?
      && (Approved(m, current, s.receipts) <==>
            m.review.value.verdict == "PASS" && !Drifted(m, current)
            && |m.evidence| == |m.review.value.evidenceHashes|)
  {
    RunInv(hasher, actions);
    var s := Run(hasher, actions).value;
    FileOk(s);
    var m := s.file.value;
    var n :| Cites(m, n, s.receipts);
    ReviewedApproved(s.hasher, m, n, current, s.receipts);
  }

  /** A PASS committed on the evidence its gate verified stays approved as long as
      neither the evidence list nor the candidate changes, whatever else happens. */
  lemma PassStaysApproved(hasher: Hasher, first: seq<Action>, more: seq<Action>, current: Fingerprint)
    requires Run(hasher, first + more).Some? && Run(hasher, first).Some?
    requires var s := Run(hasher, first).value; s.file.Some? && s.file.value.state == L.Reviewed
    requires Approved(Run(hasher, first).value.file.value, current, Run(hasher, first).value.receipts)
    requires var s, t := Run(hasher, first).value, Run(hasher, first + more).value;
      t.file.Some? && t.file.value.state == L.Reviewed && t.file.value.evidence == s.file.value.evidence
    ensures var s, t := Run(hasher, first).value, Run(hasher, first + more).value;
      && Approved(t.file.value, current, t.receipts)
      && t.file.value.review.value.evidenceHashes == s.file.value.review.value.evidenceHashes
  {
    LaneEvolves(hasher, first, more);
    GateConsistency(hasher, first, current);
    GateConsistency(hasher, first + more, current);
  }
}
