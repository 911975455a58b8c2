/** What holds along every history of a lane. */
module LaneHistory {
  import opened Wrappers
  import opened Manifest
  import opened LaneLog
  import L = Lifecycle

  lemma OpeningTidy(hasher: Hasher, m: Manifest)
    requires IsOpening(hasher, m)
    ensures Tidy(hasher, m)
  {
  }

  lemma StepState(t: Txn, before: Manifest)
    requires Proposal(t, before).Some? && Named(t)
    ensures var p := Proposal(t, before).value;
      && (t.event.None? ==> LaneSnapshot(p) == LaneSnapshot(before))
      && (t.event.Some? ==> L.Apply(LaneSnapshot(before), t.event.value) == Some(LaneSnapshot(p)))
      && p.freeze == (if t.mutator.SetFreeze? then Some(t.mutator.freeze) else before.freeze)
      && p.review == (if t.mutator.SetReview? then Some(t.mutator.review) else before.review)
      && p.evidence == before.evidence + (if t.mutator.AppendEvidence? then [t.mutator.reference] else [])
  {
  }

  lemma StepEvolves(hasher: Hasher, before: Manifest, c: Commit)
    requires Tidy(hasher, before) && Follows(hasher, before, c)
    ensures Evolves(before, c.content)
  {
    StepIdentity(c.txn.value, before);
    StepState(c.txn.value, before);
  }

  lemma StepTidy(hasher: Hasher, before: Manifest, c: Commit)
    requires Tidy(hasher, before) && Follows(hasher, before, c)
    ensures Tidy(hasher, c.content)
  {
    StepState(c.txn.value, before);
    if c.txn.value.event.Some? {
      L.StepShape(LaneSnapshot(before), c.txn.value.event.value);
    }
  }

  lemma EvolvesTransitive(a: Manifest, b: Manifest, c: Manifest)
    requires Evolves(a, b) && Evolves(b, c)
    ensures Evolves(a, c)
  {
  }

  lemma LegalPrefix(hasher: Hasher, log: Log, init: Log)
    requires Legal(hasher, log) && init <= log
    ensures Legal(hasher, init)
  {
    forall i | 0 <= i < |init|
      ensures CommitAt(hasher, init, i)
    {
      assert CommitAt(hasher, log, i);
      SameCommit(hasher, log, init, i);
    }
  }

  lemma SameCommit(hasher: Hasher, a: Log, b: Log, i: nat)
    requires i < |a| && i < |b| && a[..i + 1] == b[..i + 1] && CommitAt(hasher, a, i)
    ensures CommitAt(hasher, b, i)
  {
    assert a[i] == a[..i + 1][i] == b[i];
    if i > 0 {
      var k := i - 1;
      assert a[k] == a[..i + 1][k] == b[k];
    }
  }

  lemma FirstOpens(hasher: Hasher, log: Log)
    requires Legal(hasher, log) && log != []
    ensures IsOpening(hasher, log[0].content) && log[0].txn.None?
  {
    assert CommitAt(hasher, log, 0);
  }

  /** Each later commit is a step from the one before it. */
  lemma NextFollows(hasher: Hasher, log: Log, k: nat, i: nat)
    requires Legal(hasher, log) && k + 1 == i < |log|
    ensures Follows(hasher, log[k].content, log[i])
  {
    assert CommitAt(hasher, log, i);
  }

  lemma {:induction false} AllTidy(hasher: Hasher, log: Log, i: nat)
    requires Legal(hasher, log) && i < |log|
    ensures Tidy(hasher, log[i].content)
  {
    if i == 0 {
      FirstOpens(hasher, log);
      OpeningTidy(hasher, log[0].content);
    } else {
      var k := i - 1;
      NextFollows(hasher, log, k, i);
      AllTidy(hasher, log, k);
      StepTidy(hasher, log[k].content, log[i]);
    }
  }

  /** Along every history: one dispatch, write-once records, growing evidence. */
  lemma {:induction false} HistoryEvolves(hasher: Hasher, log: Log, i: nat, j: nat)
    requires Legal(hasher, log) && i <= j < |log|
    ensures Evolves(log[i].content, log[j].content)
    decreases j
  {
    if i < j {
      var k := j - 1;
      HistoryEvolves(hasher, log, i, k);
      NextFollows(hasher, log, k, j);
      AllTidy(hasher, log, k);
      StepEvolves(hasher, log[k].content, log[j]);
      EvolvesTransitive(log[i].content, log[k].content, log[j].content);
    }
  }

  predicate Writes(c: Commit, freeze: bool) {
    c.txn.Some? && if freeze then c.txn.value.mutator.SetFreeze? else c.txn.value.mutator.SetReview?
  }

  /** A step that writes a record starts where the record is still absent. */
  lemma WriterSeesNone(hasher: Hasher, before: Manifest, c: Commit, freeze: bool)
    requires Tidy(hasher, before) && Follows(hasher, before, c) && Writes(c, freeze)
    ensures if freeze then before.freeze.None? && c.content.freeze.Some?
            else before.review.None? && c.content.review.Some?
  {
    StepState(c.txn.value, before);
    L.StepShape(LaneSnapshot(before), c.txn.value.event.value);
  }

  /** No history writes the freeze record, or the review record, twice. */
  lemma {:induction false} WrittenOnce(hasher: Hasher, log: Log, i: nat, j: nat, freeze: bool)
    requires Legal(hasher, log) && i < j < |log| && Writes(log[i], freeze)
    ensures !Writes(log[j], freeze)
  {
    WriterLeaves(hasher, log, i, freeze);
    var k := j - 1;
    HistoryEvolves(hasher, log, i, k);
    if Writes(log[j], freeze) {
      NextFollows(hasher, log, k, j);
      AllTidy(hasher, log, k);
      WriterSeesNone(hasher, log[k].content, log[j], freeze);
    }
  }

  lemma WriterLeaves(hasher: Hasher, log: Log, i: nat, freeze: bool)
    requires Legal(hasher, log) && i < |log| && Writes(log[i], freeze)
    ensures if freeze then log[i].content.freeze.Some? else log[i].content.review.Some?
  {
    FirstOpens(hasher, log);
    if i > 0 {
      var k := i - 1;
      NextFollows(hasher, log, k, i);
      AllTidy(hasher, log, k);
      WriterSeesNone(hasher, log[k].content, log[i], freeze);
    }
  }

  // ---------- Histories are lifecycle runs ----------

  /** Every history is a run of the state machine from PLANNED. */
  lemma {:induction false} HistoryRuns(hasher: Hasher, log: Log)
    requires Legal(hasher, log) && log != []
    ensures L.Run(L.At(L.Planned), EventsOf(log)) == Some(LaneSnapshot(Last(log)))
  {
    var n := |log| - 1;
    var init, c := log[..n], log[n];
    LegalPrefix(hasher, log, init);
    if init == [] {
      FirstOpens(hasher, log);
      assert EventsOf(log) == [L.Activate];
      assert [L.Activate][..0] == [];
    } else {
      HistoryRuns(hasher, init);
      var k := n - 1;
      NextFollows(hasher, log, k, n);
      assert init[k] == log[k];
      StepState(c.txn.value, Last(init));
      var all := EventsOf(log);
      if c.txn.value.event.Some? {
        assert all[..|all| - 1] == EventsOf(init);
      } else {
        assert all == EventsOf(init);
      }
    }
  }
}
