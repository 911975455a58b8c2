/** The commands left alone, one by one: exactly when each succeeds, in terms of the lane
    and of its own flags, and what it then leaves. */
module LaneSolo {
  import opened Wrappers
  import opened Manifest
  import opened Evidence
  import opened Policy
  import opened LaneLog
  import opened LaneSystem
  import opened LaneInvariant
  import opened LaneSteps
  import opened LaneOrigins
  import opened LaneOutcomes
  import opened LaneProgress
  import L = Lifecycle

  /** A command begins under a free lock, and its own steps end it on this world. */
  ghost predicate SoloRun(s: Sys, p: int, c: Command, m: Manifest, world: World, actions: seq<Action>) {
    && Inv(s) && s.lock.None? && p in s.procs && s.procs[p] == Starting(c) && s.file == Some(m) && Direct(c)
    && Alone(actions, p) && Supplied(actions, world) && Steps(s, actions).Some?
    && p in Steps(s, actions).value.procs && Ended(Steps(s, actions).value.procs[p])
  }

  /** It has succeeded with this content, or failed with nothing changed. */
  predicate Finished(s: Sys, t: Sys, p: int, ok: bool) {
    && p in t.procs && t.lock.None?
    && if ok then t.procs[p].Succeeded? && t.file == Some(t.procs[p].result) && t.temps == {}
       else t.procs[p] == Failed && t.file == s.file && t.temps == s.temps
  }

  lemma SuppliedDecides(actions: seq<Action>, c: Command, m: Manifest, receipts: Receipts, world: World)
    requires Supplied(actions, world)
    ensures AllDecideOn(actions, c, m, receipts, Wanted(c, m, world, receipts))
  {
    forall i | 0 <= i < |actions|
      ensures DecidesOn(actions[i], c, m, receipts, Wanted(c, m, world, receipts))
    {
    }
  }

  lemma SoloEnds(s: Sys, p: int, c: Command, m: Manifest, world: World, actions: seq<Action>)
    requires SoloRun(s, p, c, m, world, actions)
    ensures EndsAs(s, Steps(s, actions).value, p, m, Wanted(c, m, world, s.receipts))
    ensures Valid(s.hasher, m) && Tidy(s.hasher, m)
  {
    SuppliedDecides(actions, c, m, s.receipts, world);
    SoloCommand(s, p, c, m, Wanted(c, m, world, s.receipts), world, actions);
    FileTidy(s);
  }

  // ---------- Transitions ----------

  /** The states from which an operator may ask for this. */
  predicate MayAsk(state: L.State, event: L.Event) {
    match event
    case Block => state in {L.Planned, L.Active, L.Frozen, L.Reviewed, L.Ready}
    case Resume => state == L.Blocked
    case Abandon => state !in {L.Closed, L.Abandoned, L.Incident}
    case IncidentEvent => state !in {L.Closed, L.Abandoned, L.Incident}
    case _ => false
  }

  function TransitionTxn(event: L.Event, prior: ContentHash): Txn {
    Txn(ExpectedHash(prior, true), Some(event), NoChange)
  }

  lemma TransitionWanted(m: Manifest, event: L.Event, prior: ContentHash, world: World, receipts: Receipts)
    ensures Wanted(LaneTransition(event, prior), m, world, receipts) ==
            if prior.NoHash? || event !in {L.Block, L.Resume, L.Abandon, L.IncidentEvent} then None
            else Some(TransitionTxn(event, prior))
  {
  }

  lemma TransitionTakes(s: Sys, m: Manifest, event: L.Event, prior: ContentHash)
    requires Valid(s.hasher, m) && !prior.NoHash? && event in {L.Block, L.Resume, L.Abandon, L.IncidentEvent}
    ensures Takes(s, m, Some(TransitionTxn(event, prior))) <==>
            prior == HashOf(m) && MayAsk(m.state, event) && s.temps == {}
  {
  }

  lemma TransitionMakes(hasher: Hasher, m: Manifest, event: L.Event, prior: ContentHash, n: Manifest)
    requires Valid(hasher, m) && MayAsk(m.state, event) && Proposal(TransitionTxn(event, prior), m).Some?
    requires n == Proposal(TransitionTxn(event, prior), m).value.(updatedAt := n.updatedAt)
    ensures EffectOf(LaneTransition(event, prior), m, n)
  {
  }

  /** `lane block`, `resume`, `abandon` and `incident` succeed exactly when the hash given is
      that of the lane, its state allows the event, and there is no residue. */
  lemma SoloTransition(s: Sys, p: int, event: L.Event, prior: ContentHash, m: Manifest, world: World,
                       actions: seq<Action>)
    requires SoloRun(s, p, LaneTransition(event, prior), m, world, actions)
    ensures var t := Steps(s, actions).value;
      var ok := prior == HashOf(m) && MayAsk(m.state, event) && s.temps == {};
      && Finished(s, t, p, ok)
      && (ok ==> EffectOf(LaneTransition(event, prior), m, t.procs[p].result))
  {
    SoloEnds(s, p, LaneTransition(event, prior), m, world, actions);
    TransitionWanted(m, event, prior, world, s.receipts);
    if !prior.NoHash? && event in {L.Block, L.Resume, L.Abandon, L.IncidentEvent} {
      TransitionTakes(s, m, event, prior);
      if Takes(s, m, Some(TransitionTxn(event, prior))) {
        TransitionMakes(s.hasher, m, event, prior, Steps(s, actions).value.procs[p].result);
      }
    }
  }

  // ---------- Reviews ----------

  /** What `review record` asks of the lane, of the world and of the reviewer. */
  ghost predicate MayReview(m: Manifest, input: ReviewInput, world: World, receipts: Receipts) {
    && m.state == L.Frozen && OnCandidate(m, world.current) && EvidenceVerified(m, receipts)
    && input.reviewer != "" && input.family !in {"", m.dispatch.family} && input.seatId !in {"", m.dispatch.seatId}
    && input.fingerprint in {"", m.freeze.value.candidate}
    && input.verdict in {"pass", "approve", "approved", "fail", "reject", "rejected"}
  }

  lemma GateIs(hasher: Hasher, m: Manifest, input: ReviewInput, world: World, receipts: Receipts)
    requires Valid(hasher, m)
    ensures ReviewGate(m, input, world.current.(manifestHash := m.dispatchHash), receipts) <==>
            MayReview(m, input, world, receipts)
  {
  }

  lemma ReviewRecordFits(hasher: Hasher, m: Manifest, input: ReviewInput, world: World, receipts: Receipts)
    requires Valid(hasher, m) && MayReview(m, input, world, receipts)
    ensures ReviewFits(ReviewOf(m, input), m.freeze) && Records(input, ReviewOf(m, input))
  {
    SortKeepsMembers(Hashes(m.evidence));
  }

  lemma ReviewWanted(hasher: Hasher, m: Manifest, input: ReviewInput, world: World, receipts: Receipts)
    requires Valid(hasher, m)
    ensures Wanted(Command.ReviewRecord(input), m, world, receipts) ==
            if MayReview(m, input, world, receipts) then
              Some(Txn(NO_EXPECTATION, Some(L.RecordReview), SetReview(ReviewOf(m, input))))
            else None
  {
    GateIs(hasher, m, input, world, receipts);
  }

  lemma ReviewTakes(s: Sys, m: Manifest, r: ReviewRecord)
    requires Valid(s.hasher, m) && m.state == L.Frozen && ReviewFits(r, m.freeze)
    ensures var txn := Txn(NO_EXPECTATION, Some(L.RecordReview), SetReview(r));
      && (Takes(s, m, Some(txn)) <==> s.temps == {})
      && Proposal(txn, m) == Some(m.(state := L.Reviewed, review := Some(r)))
  {
  }

  /** `review record` succeeds exactly when the lane may be reviewed so and there is no
      residue. Then the lane is REVIEWED, with the reviewer's own words in its record. */
  lemma SoloReview(s: Sys, p: int, input: ReviewInput, m: Manifest, world: World, actions: seq<Action>)
    requires SoloRun(s, p, Command.ReviewRecord(input), m, world, actions)
    ensures var t := Steps(s, actions).value;
      var ok := MayReview(m, input, world, s.receipts) && s.temps == {};
      && Finished(s, t, p, ok)
      && (ok ==> var n := t.procs[p].result;
            && n.review.Some? && Records(input, n.review.value)
            && n.review.value.fingerprint == m.freeze.value.candidate
            && n == m.(state := L.Reviewed, review := n.review, updatedAt := n.updatedAt))
  {
    SoloEnds(s, p, Command.ReviewRecord(input), m, world, actions);
    ReviewWanted(s.hasher, m, input, world, s.receipts);
    if MayReview(m, input, world, s.receipts) {
      ReviewRecordFits(s.hasher, m, input, world, s.receipts);
      ReviewTakes(s, m, ReviewOf(m, input));
    }
  }

  // ---------- Freezing, closing, and the agent's block ----------

  lemma FreezeTakes(s: Sys, m: Manifest, expected: ContentHash, world: World)
    requires Valid(s.hasher, m) && Tidy(s.hasher, m)
    ensures var w := Wanted(Command.Freeze(expected), m, world, s.receipts);
      var f := world.current;
      var record := FreezeRecord(f.base, f.head, f.equivalent, f.tree, f.diff, world.now);
      && (Takes(s, m, w) <==>
            m.state == L.Active && expected in {NoHash, HashOf(m)} && FreezeComplete(record) && s.temps == {})
      && (Takes(s, m, w) ==> Proposal(w.value, m) == Some(m.(state := L.Frozen, freeze := Some(record))))
  {
  }

  /** `freeze` succeeds exactly on an ACTIVE lane, with no hash given or the right one, when
      no part of the fingerprint is empty and there is no residue. */
  lemma SoloFreeze(s: Sys, p: int, expected: ContentHash, m: Manifest, world: World, actions: seq<Action>)
    requires SoloRun(s, p, Command.Freeze(expected), m, world, actions)
    ensures var t := Steps(s, actions).value;
      var f := world.current;
      var ok := m.state == L.Active && expected in {NoHash, HashOf(m)} && s.temps == {}
                && "" !in {f.base, f.head, f.equivalent, f.tree, f.diff};
      && Finished(s, t, p, ok)
      && (ok ==> var n := t.procs[p].result;
            n == m.(state := L.Frozen, updatedAt := n.updatedAt,
                    freeze := Some(FreezeRecord(f.base, f.head, f.equivalent, f.tree, f.diff, world.now))))
  {
    SoloEnds(s, p, Command.Freeze(expected), m, world, actions);
    FreezeTakes(s, m, expected, world);
  }

  lemma CloseTakes(s: Sys, m: Manifest, expected: ContentHash, world: World)
    requires Valid(s.hasher, m)
    ensures var w := Wanted(Command.Close(expected), m, world, s.receipts);
      && (Takes(s, m, w) <==> m.state == L.Ready && expected in {NoHash, HashOf(m)} && s.temps == {})
      && (Takes(s, m, w) ==> Proposal(w.value, m) == Some(m.(state := L.Closed)))
  {
  }

  /** `close` succeeds exactly on a READY lane, with no hash given or the right one. */
  lemma SoloClose(s: Sys, p: int, expected: ContentHash, m: Manifest, world: World, actions: seq<Action>)
    requires SoloRun(s, p, Command.Close(expected), m, world, actions)
    ensures var t := Steps(s, actions).value;
      var ok := m.state == L.Ready && expected in {NoHash, HashOf(m)} && s.temps == {};
      && Finished(s, t, p, ok)
      && (ok ==> t.procs[p].result == m.(state := L.Closed, updatedAt := t.procs[p].result.updatedAt))
  {
    SoloEnds(s, p, Command.Close(expected), m, world, actions);
    CloseTakes(s, m, expected, world);
  }

  lemma BlockTakes(s: Sys, m: Manifest, world: World)
    requires Valid(s.hasher, m)
    ensures var w := Wanted(AgentBlock, m, world, s.receipts);
      && (Takes(s, m, w) <==> m.state == L.Active && world.abandoned && s.temps == {})
      && (Takes(s, m, w) ==> Proposal(w.value, m) == Some(m.(state := L.Blocked, blockedFrom := L.Active)))
  {
  }

  /** `agent run` blocks the lane exactly when it is ACTIVE and the lease abandoned. */
  lemma SoloBlock(s: Sys, p: int, m: Manifest, world: World, actions: seq<Action>)
    requires SoloRun(s, p, AgentBlock, m, world, actions)
    ensures var t := Steps(s, actions).value;
      var ok := m.state == L.Active && world.abandoned && s.temps == {};
      && Finished(s, t, p, ok)
      && (ok ==> t.procs[p].result ==
                 m.(state := L.Blocked, blockedFrom := L.Active, updatedAt := t.procs[p].result.updatedAt))
  {
    SoloEnds(s, p, AgentBlock, m, world, actions);
    BlockTakes(s, m, world);
  }
}
