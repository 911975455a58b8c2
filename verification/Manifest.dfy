/** The lane manifest: validation, immutability across updates, and the named
    changes the store applies. Timestamps are instants in whole seconds. */
module Manifest {
  import opened Wrappers
  import opened Order
  import L = Lifecycle

  type Instant = int

  /** The hash of a dispatch; any function will do. */
  type Hasher = Dispatch -> string

  datatype Dispatch = Dispatch(
    workspace: string, sourceControl: string, writer: string, adapter: string, family: string,
    seatId: string, costClass: string,
    allowedPaths: Option<seq<string>>, forbiddenPaths: Option<seq<string>>,
    nonGoals: Option<seq<string>>, requiredChecks: Option<seq<string>>,
    reviewPolicy: string, maxSeconds: int, maxOutputBytes: int, maxMemoryBytes: int)

  datatype FreezeRecord = FreezeRecord(
    base: string, head: string, candidate: string, tree: string, diff: string, at: Instant)

  datatype ReviewRecord = ReviewRecord(
    reviewer: string, family: string, seatId: string, verdict: string, fingerprint: string,
    evidenceHashes: seq<string>, at: Instant)

  datatype EvidenceReference = EvidenceReference(name: string, hash: string)

  datatype FailureRecord = FailureRecord(kind: string, op: string, at: Instant, error: string)

  datatype Manifest = Manifest(
    schemaVersion: int, laneId: string, state: L.State, blockedFrom: L.State,
    dispatch: Dispatch, dispatchHash: string,
    freeze: Option<FreezeRecord>, review: Option<ReviewRecord>,
    evidence: seq<EvidenceReference>, failures: seq<FailureRecord>,
    createdAt: Instant, updatedAt: Instant, externalActionsHumanOnly: bool)

  datatype Error =
    | MissingPriorHash | PriorHashMismatch | DispatchHashMismatch
    | ImmutableIdentity | ImmutableCreated | ImmutableDispatch | ImmutableDispatchHash
    | ImmutableFreeze | ImmutableReview
    | RequiredFields | LifecycleState | ResourceLimits | DispatchHashInvalid
    | FreezeRequired | ReviewRequired | ReviewBinding | EvidenceInvalid | FailureInvalid

  // ---------- Hashes ----------

  predicate IsHexDigit(c: char) {
    '0' <= c <= '9' || 'a' <= c <= 'f'
  }

  predicate IsHash(value: string) {
    |value| == 64 && forall i :: 0 <= i < 64 ==> IsHexDigit(value[i])
  }

  /** The text of a SHA-256 hash: 64 digits to the base sixteen, in lower case. */
  lemma HashText(value: string)
    ensures IsHash(value) <==> |value| == 64 && forall c :: c in value ==> c in "0123456789abcdef"
  {
    forall c: char
      ensures IsHexDigit(c) <==> c in "0123456789abcdef"
    {
      HexDigits(c);
    }
  }

  lemma HexDigits(c: char)
    ensures IsHexDigit(c) <==> c in "0123456789abcdef"
  {
    var s := "0123456789abcdef";
    assert s[0] == '0' && s[1] == '1' && s[2] == '2' && s[3] == '3' && s[4] == '4' && s[5] == '5' && s[6] == '6';
    assert s[7] == '7' && s[8] == '8' && s[9] == '9' && s[10] == 'a' && s[11] == 'b' && s[12] == 'c' && s[13] == 'd';
    assert s[14] == 'e' && s[15] == 'f';
  }

  /** A nonempty list of hashes without repetition. */
  predicate IsHashSet(values: seq<string>) {
    values != [] && (forall i :: 0 <= i < |values| ==> IsHash(values[i])) && Distinct(values)
  }

  /** The content hash is injective, so a hash stands for the content it is of;
      `Unknown` is a string that is the hash of nothing stored. */
  datatype ContentHash = NoHash | HashOf(content: Manifest) | Unknown(text: string)

  // ---------- Validation ----------

  function LaneSnapshot(m: Manifest): L.Snapshot {
    L.Snapshot(m.state, m.blockedFrom)
  }

  predicate IsFailureClass(c: string) {
    c in {"USAGE_OR_SCHEMA", "POLICY_OR_TRANSITION", "WORKSPACE_DRIFT", "TOOLING_OR_ADAPTER",
          "CANDIDATE_OR_REVIEW", "INTEGRITY", "CONCURRENCY"}
  }

  predicate FreezeComplete(f: FreezeRecord) {
    f.base != "" && f.head != "" && f.candidate != "" && f.tree != "" && f.diff != ""
  }

  predicate ReviewComplete(r: ReviewRecord) {
    r.reviewer != "" && r.family != "" && r.seatId != "" && r.verdict != "" && r.fingerprint != ""
    && IsHashSet(r.evidenceHashes)
  }

  predicate EvidenceComplete(e: EvidenceReference) {
    e.name != "" && IsHash(e.hash)
  }

  predicate FailureComplete(f: FailureRecord) {
    IsFailureClass(f.kind) && f.op != "" && f.error != ""
  }

  predicate DispatchComplete(d: Dispatch) {
    && d.workspace != "" && d.sourceControl != "" && d.writer != "" && d.adapter != "" && d.family != ""
    && d.seatId != "" && d.costClass != "" && d.reviewPolicy != ""
    && d.allowedPaths.Some? && d.forbiddenPaths.Some? && d.nonGoals.Some? && d.requiredChecks.Some?
  }

  /** `validate`; None is success. */
  function Validate(hasher: Hasher, m: Manifest): Option<Error> {
    if m.schemaVersion != 1 || m.laneId == "" || !DispatchComplete(m.dispatch) || m.state == L.Other("")
       || !m.externalActionsHumanOnly then Some(RequiredFields)
    else if !L.KnownState(m.state) || (m.state == L.Blocked && !L.BlockableFrom(m.blockedFrom))
            || (m.state != L.Blocked && m.blockedFrom != L.Other("")) then Some(LifecycleState)
    else if m.dispatch.maxSeconds < 0 || m.dispatch.maxOutputBytes < 0 || m.dispatch.maxMemoryBytes < 0 then
      Some(ResourceLimits)
    else if m.dispatchHash == "" || m.dispatchHash != hasher(m.dispatch) then Some(DispatchHashInvalid)
    else if m.freeze.Some? && !FreezeComplete(m.freeze.value) then Some(FreezeRequired)
    else if L.AtOrAfterFrozen(LaneSnapshot(m)) && m.freeze.None? then Some(FreezeRequired)
    else if m.review.Some? && !ReviewComplete(m.review.value) then Some(ReviewRequired)
    else if m.review.Some? && ((m.review.value.verdict != "PASS" && m.review.value.verdict != "FAIL")
                               || m.freeze.None? || m.review.value.fingerprint != m.freeze.value.candidate) then
      Some(ReviewBinding)
    else if L.AtOrAfterReviewed(LaneSnapshot(m)) && m.review.None? then Some(ReviewRequired)
    else if exists i :: 0 <= i < |m.evidence| && !EvidenceComplete(m.evidence[i]) then Some(EvidenceInvalid)
    else if exists i :: 0 <= i < |m.failures| && !FailureComplete(m.failures[i]) then Some(FailureInvalid)
    else None
  }

  predicate HeadValid(hasher: Hasher, m: Manifest) {
    && m.schemaVersion == 1 && m.laneId != "" && DispatchComplete(m.dispatch) && m.externalActionsHumanOnly
    && m.dispatch.maxSeconds >= 0 && m.dispatch.maxOutputBytes >= 0 && m.dispatch.maxMemoryBytes >= 0
    && m.dispatchHash != "" && m.dispatchHash == hasher(m.dispatch)
  }

  predicate ListsValid(m: Manifest) {
    && (forall i :: 0 <= i < |m.evidence| ==> EvidenceComplete(m.evidence[i]))
    && (forall i :: 0 <= i < |m.failures| ==> FailureComplete(m.failures[i]))
  }

  predicate ReviewFits(r: ReviewRecord, freeze: Option<FreezeRecord>) {
    ReviewComplete(r) && r.verdict in {"PASS", "FAIL"} && freeze.Some? && r.fingerprint == freeze.value.candidate
  }

  /** What a valid manifest is: a state runs can reach, the records that state
      needs, complete records only, and the hash of its own dispatch. */
  predicate Valid(hasher: Hasher, m: Manifest) {
    match LaneSnapshot(m)
    case Snapshot(state, blockedFrom) =>
      && HeadValid(hasher, m) && ListsValid(m) && L.WellFormed(LaneSnapshot(m))
      && (m.freeze.Some? ==> FreezeComplete(m.freeze.value))
      && (m.review.Some? ==> ReviewFits(m.review.value, m.freeze))
      && (L.AtOrAfterFrozen(LaneSnapshot(m)) ==> m.freeze.Some?)
      && (L.AtOrAfterReviewed(LaneSnapshot(m)) ==> m.review.Some?)
  }

  /** `validate` accepts exactly the valid manifests. */
  lemma ValidateIff(hasher: Hasher, m: Manifest)
    ensures Validate(hasher, m) == None <==> Valid(hasher, m)
  {
  }

  /** `normalize`: fills in an empty dispatch hash, refuses a wrong one. */
  function Normalize(hasher: Hasher, m: Manifest): Result<Manifest, Error> {
    if m.dispatchHash == "" then Success(m.(dispatchHash := hasher(m.dispatch)))
    else if m.dispatchHash != hasher(m.dispatch) then Failure(DispatchHashMismatch)
    else Success(m)
  }

  /** `ValidateUpdate`; None is success. */
  function ValidateUpdate(hasher: Hasher, expected: ContentHash, before: Manifest, after: Manifest): Option<Error> {
    if expected.NoHash? then Some(MissingPriorHash)
    else if Normalize(hasher, before).Failure? then Some(DispatchHashMismatch)
    else if expected != HashOf(Normalize(hasher, before).value) then Some(PriorHashMismatch)
    else if before.schemaVersion != after.schemaVersion || before.laneId != after.laneId then Some(ImmutableIdentity)
    else if before.createdAt != after.createdAt then Some(ImmutableCreated)
    else if (L.AtOrAfterActive(LaneSnapshot(before)) || L.AtOrAfterActive(LaneSnapshot(after)))
            && before.dispatch != after.dispatch then Some(ImmutableDispatch)
    else if (L.AtOrAfterActive(LaneSnapshot(before)) || L.AtOrAfterActive(LaneSnapshot(after)))
            && before.dispatchHash != after.dispatchHash then Some(ImmutableDispatchHash)
    else if L.AtOrAfterFrozen(LaneSnapshot(before)) && before.freeze != after.freeze then Some(ImmutableFreeze)
    else if L.AtOrAfterReviewed(LaneSnapshot(before)) && before.review != after.review then Some(ImmutableReview)
    else None
  }

  // ---------- The named changes ----------

  datatype ExpectedHash = ExpectedHash(value: ContentHash, required: bool)

  /** `ExpectedHash.check` against the hash of the loaded manifest. */
  predicate Meets(e: ExpectedHash, loaded: Manifest) {
    if e.value.NoHash? then !e.required else e.value == HashOf(loaded)
  }

  datatype Mutator = NoChange | SetFreeze(freeze: FreezeRecord) | SetReview(review: ReviewRecord)
                   | AppendEvidence(reference: EvidenceReference)

  function Mutated(m: Manifest, mutator: Mutator): Manifest {
    match mutator
    case NoChange => m
    case SetFreeze(f) => m.(freeze := Some(f))
    case SetReview(r) => m.(review := Some(r))
    case AppendEvidence(e) => m.(evidence := m.evidence + [e])
  }

  /** One call of `Apply` (an event) or `Mutate` (none). */
  datatype Txn = Txn(expected: ExpectedHash, event: Option<L.Event>, mutator: Mutator)

  /** The calls the command handlers make: each mutator comes with its event. */
  predicate Named(t: Txn) {
    match t.mutator
    case NoChange => t.event.Some? && !t.event.value.Freeze? && !t.event.value.RecordReview?
    case SetFreeze(_) => t.event == Some(L.Freeze)
    case SetReview(_) => t.event == Some(L.RecordReview)
    case AppendEvidence(_) => t.event == None
  }

  function Stepped(m: Manifest, event: Option<L.Event>): Option<Manifest> {
    match event
    case None => Some(m)
    case Some(e) =>
      match L.Apply(LaneSnapshot(m), e)
      case None => None
      case Some(s) => Some(m.(state := s.state, blockedFrom := s.blockedFrom))
  }

  /** What `Apply` or `Mutate` hands to `Update` for a loaded manifest. */
  function Proposal(t: Txn, m: Manifest): Option<Manifest> {
    if !Meets(t.expected, m) then None
    else
      match Stepped(m, t.event)
      case None => None
      case Some(n) => Some(Mutated(n, t.mutator))
  }

  /** The content `Update` stores for a proposal, from the content on disk. */
  function Updated(
      hasher: Hasher, base: Manifest, current: Manifest, proposal: Manifest, now: Instant): Option<Manifest> {
    if current != base then None
    else
      match Normalize(hasher, proposal.(createdAt := current.createdAt, updatedAt := now))
      case Failure(_) => None
      case Success(next) =>
        if ValidateUpdate(hasher, HashOf(current), current, next) != None || Validate(hasher, next) != None then None
        else Some(next)
  }

  /** The content `Create` stores. */
  function Created(hasher: Hasher, m: Manifest, now: Instant): Option<Manifest> {
    match Normalize(hasher, m.(createdAt := now, updatedAt := now))
    case Failure(_) => None
    case Success(next) => if Validate(hasher, next) == None then Some(next) else None
  }

  // ---------- One step on the stored content ----------

  /** The whole of one step: the prior hash met, the event legal, the record in
      place, the time refreshed, the result valid. */
  predicate IsStep(hasher: Hasher, t: Txn, before: Manifest, now: Instant, after: Manifest) {
    match Proposal(t, before)
    case None => false
    case Some(p) => after == p.(updatedAt := now) && Valid(hasher, after)
  }

  /** The record a mutator brings is complete and fits the manifest it joins. */
  predicate Fitting(m: Manifest, mutator: Mutator) {
    match mutator
    case NoChange => true
    case SetFreeze(f) => FreezeComplete(f) && (m.review.Some? ==> m.review.value.fingerprint == f.candidate)
    case SetReview(r) => ReviewFits(r, m.freeze)
    case AppendEvidence(e) => EvidenceComplete(e)
  }

  lemma StepIdentity(t: Txn, m: Manifest)
    requires Proposal(t, m).Some?
    ensures var p := Proposal(t, m).value;
      && p.schemaVersion == m.schemaVersion && p.laneId == m.laneId && p.createdAt == m.createdAt
      && p.dispatch == m.dispatch && p.dispatchHash == m.dispatchHash && p.failures == m.failures
      && p.externalActionsHumanOnly == m.externalActionsHumanOnly
  {
  }

  /** A legal lifecycle step with its named mutator never meets the immutability
      boundaries: whatever they refuse was not such a step. */
  lemma NamedStepPassesBoundaries(hasher: Hasher, t: Txn, m: Manifest, now: Instant)
    requires Valid(hasher, m) && Named(t) && Proposal(t, m).Some?
    ensures ValidateUpdate(hasher, HashOf(m), m, Proposal(t, m).value.(updatedAt := now)) == None
  {
    StepIdentity(t, m);
  }

  /** `Update` on the content a proposal was made from stores the proposal, with a
      new timestamp, exactly when the record it brings is complete and fits. */
  lemma UpdateExact(hasher: Hasher, t: Txn, m: Manifest, now: Instant)
    requires Valid(hasher, m) && Named(t) && Proposal(t, m).Some?
    ensures var p := Proposal(t, m).value;
      Updated(hasher, m, m, p, now) ==
        if Fitting(m, t.mutator) then Some(p.(updatedAt := now)) else None
  {
    var next := Proposal(t, m).value.(updatedAt := now);
    StepIdentity(t, m);
    NamedStepPassesBoundaries(hasher, t, m, now);
    assert Normalize(hasher, next) == Success(next);
    StepValid(hasher, t, m, next);
    ValidateIff(hasher, next);
  }

  /** A created lane is the manifest given, with both times and its dispatch hash filled in;
      it is created exactly when that is valid and no other hash was given. */
  lemma CreatedExact(hasher: Hasher, m: Manifest, now: Instant, n: Manifest)
    ensures Created(hasher, m, now) == Some(n) <==>
      && n == m.(createdAt := now, updatedAt := now, dispatchHash := hasher(m.dispatch))
      && m.dispatchHash in {"", hasher(m.dispatch)} && Valid(hasher, n)
  {
    ValidateIff(hasher, m.(createdAt := now, updatedAt := now, dispatchHash := hasher(m.dispatch)));
  }

  /** What the boundaries leave alone, from any proposal. */
  predicate Preserves(m: Manifest, n: Manifest) {
    && n.schemaVersion == m.schemaVersion && n.laneId == m.laneId
    && (L.AtOrAfterActive(LaneSnapshot(m)) || L.AtOrAfterActive(LaneSnapshot(n)) ==>
          n.dispatch == m.dispatch && n.dispatchHash == m.dispatchHash)
    && (L.AtOrAfterFrozen(LaneSnapshot(m)) ==> n.freeze == m.freeze)
    && (L.AtOrAfterReviewed(LaneSnapshot(m)) ==> n.review == m.review)
  }

  /** An update from any proposal at all stores the proposal, with the creation time kept,
      the other time refreshed and the dispatch hash filled in; it does so exactly when that
      is valid, no other hash was given and the boundaries are kept. */
  lemma UpdatedExact(hasher: Hasher, m: Manifest, proposal: Manifest, now: Instant, n: Manifest)
    requires Valid(hasher, m)
    ensures Updated(hasher, m, m, proposal, now) == Some(n) <==>
      && n == proposal.(createdAt := m.createdAt, updatedAt := now, dispatchHash := hasher(proposal.dispatch))
      && proposal.dispatchHash in {"", hasher(proposal.dispatch)} && Valid(hasher, n) && Preserves(m, n)
  {
    var next := proposal.(createdAt := m.createdAt, updatedAt := now, dispatchHash := hasher(proposal.dispatch));
    ValidateIff(hasher, next);
    assert Normalize(hasher, m) == Success(m);
    BoundariesExact(hasher, m, next);
  }

  lemma BoundariesExact(hasher: Hasher, m: Manifest, next: Manifest)
    requires Normalize(hasher, m) == Success(m) && next.createdAt == m.createdAt
    ensures ValidateUpdate(hasher, HashOf(m), m, next) == None <==> Preserves(m, next)
  {
  }

  lemma StepValid(hasher: Hasher, t: Txn, m: Manifest, next: Manifest)
    requires Valid(hasher, m) && Named(t) && Proposal(t, m).Some?
    requires next == Proposal(t, m).value.(updatedAt := next.updatedAt)
    ensures Valid(hasher, next) <==> Fitting(m, t.mutator)
  {
    StepIdentity(t, m);
    if t.mutator.AppendEvidence? {
      AppendedComplete(m.evidence, t.mutator.reference, next.evidence);
    } else {
      assert next.evidence == m.evidence;
    }
  }

  lemma AppendedComplete(evidence: seq<EvidenceReference>, e: EvidenceReference, all: seq<EvidenceReference>)
    requires all == evidence + [e] && forall i :: 0 <= i < |evidence| ==> EvidenceComplete(evidence[i])
    ensures (forall i :: 0 <= i < |all| ==> EvidenceComplete(all[i])) <==> EvidenceComplete(e)
  {
    assert all[|evidence|] == e;
  }

  // ---------- What the boundaries protect ----------

  /** In every state the prior hash must be that of the content replaced, and the
      identity of the lane and its creation time stay. */
  lemma IdentityProtected(hasher: Hasher, expected: ContentHash, m: Manifest, after: Manifest)
    requires Valid(hasher, m) && ValidateUpdate(hasher, expected, m, after) == None
    ensures expected == HashOf(m)
    ensures after.schemaVersion == m.schemaVersion && after.laneId == m.laneId && after.createdAt == m.createdAt
  {
  }

  /** The freeze record is protected exactly from FROZEN on; in particular not in
      ABANDONED or INCIDENT, which the lifecycle order leaves out. */
  lemma FreezeProtectedIff(hasher: Hasher, m: Manifest)
    requires Valid(hasher, m)
    ensures (forall after :: ValidateUpdate(hasher, HashOf(m), m, after) == None ==> after.freeze == m.freeze)
            <==> L.AtOrAfterFrozen(LaneSnapshot(m))
  {
    if !L.AtOrAfterFrozen(LaneSnapshot(m)) {
      var after := m.(freeze := if m.freeze.Some? then None else Some(FreezeRecord("b", "h", "c", "t", "d", 0)));
      assert ValidateUpdate(hasher, HashOf(m), m, after) == None;
    }
  }

  lemma ReviewProtectedIff(hasher: Hasher, m: Manifest)
    requires Valid(hasher, m)
    ensures (forall after :: ValidateUpdate(hasher, HashOf(m), m, after) == None ==> after.review == m.review)
            <==> L.AtOrAfterReviewed(LaneSnapshot(m))
  {
    if !L.AtOrAfterReviewed(LaneSnapshot(m)) {
      var after := m.(review := if m.review.Some? then None else Some(ReviewRecord("r", "f", "s", "PASS", "c", [], 0)));
      assert ValidateUpdate(hasher, HashOf(m), m, after) == None;
    }
  }

  lemma DispatchProtectedIff(hasher: Hasher, m: Manifest)
    requires Valid(hasher, m)
    ensures (forall after :: ValidateUpdate(hasher, HashOf(m), m, after) == None ==> after.dispatch == m.dispatch)
            <==> L.AtOrAfterActive(LaneSnapshot(m))
  {
    if !L.AtOrAfterActive(LaneSnapshot(m)) {
      var after := m.(dispatch := m.dispatch.(maxSeconds := m.dispatch.maxSeconds + 1));
      assert after.dispatch != m.dispatch;
      assert ValidateUpdate(hasher, HashOf(m), m, after) == None;
    }
  }
}
