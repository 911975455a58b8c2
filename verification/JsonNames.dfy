/** The files as others read them: each field of a stored lane or receipt, looked up
    under the name it has on disk. */
module JsonNames {
  import opened Wrappers
  import opened Order
  import opened Manifest
  import opened Evidence
  import opened CanonNumber
  import opened CanonParse
  import opened JsonRecord
  import opened ManifestJson
  import opened LaneJson
  import opened ReceiptJson
  import L = Lifecycle

  // ---------- Looking up ----------

  predicate Has(v: Json, key: string, x: Json) {
    v.JObj? && key in v.fields && v.fields[key] == x
  }

  predicate Lacks(v: Json, key: string) {
    v.JObj? && key !in v.fields
  }

  predicate HasText(v: Json, key: string, s: string) {
    Has(v, key, JStr(s))
  }

  /** A number that denotes this integer. */
  ghost predicate HasNumber(v: Json, key: string, n: int) {
    v.JObj? && key in v.fields && v.fields[key].JNum? && Value(v.fields[key].n) == n as real
  }

  /** A list written item by item. */
  ghost predicate Lists<T>(x: Json, items: seq<T>, write: T -> Json) {
    x.JArr? && |x.items| == |items| && forall i :: 0 <= i < |items| ==> x.items[i] == write(items[i])
  }

  ghost predicate HasList<T>(v: Json, key: string, items: seq<T>, write: T -> Json) {
    v.JObj? && key in v.fields && Lists(v.fields[key], items, write)
  }

  /** A list of texts, null for none. */
  ghost predicate HasTexts(v: Json, key: string, o: Option<seq<string>>) {
    match o
    case None => Has(v, key, JNull)
    case Some(s) => HasList(v, key, s, x => JStr(x))
  }

  predicate Only(v: Json, keys: set<string>) {
    v.JObj? && v.fields.Keys <= keys
  }

  lemma At(keys: seq<string>, values: seq<Option<Json>>, i: nat, key: string, value: Option<Json>)
    requires |keys| == |values| && Distinct(keys) && i < |keys| && keys[i] == key && values[i] == value
    ensures value.Some? ==> Has(JObj(Record(keys, values)), key, value.value)
    ensures value.None? ==> Lacks(JObj(Record(keys, values)), key)
  {
    RecordGet(keys, values, i);
  }

  /** A text that is left out when it is empty. */
  lemma OptionalAt(keys: seq<string>, values: seq<Option<Json>>, i: nat, key: string, text: string)
    requires |keys| == |values| && Distinct(keys) && i < |keys| && keys[i] == key && values[i] == OmitEmpty(text)
    ensures if text == "" then Lacks(JObj(Record(keys, values)), key)
            else HasText(JObj(Record(keys, values)), key, text)
  {
    At(keys, values, i, key, OmitEmpty(text));
  }

  lemma NumberAt(keys: seq<string>, values: seq<Option<Json>>, i: nat, key: string, n: int)
    requires |keys| == |values| && Distinct(keys) && i < |keys| && keys[i] == key
    requires values[i] == Some(IntJson(n)) && IsInt64(n)
    ensures HasNumber(JObj(Record(keys, values)), key, n)
  {
    At(keys, values, i, key, Some(IntJson(n)));
    IntValue(n);
  }

  lemma {:induction false} ListAt<T>(items: seq<T>, write: T -> Json)
    ensures Lists(JArr(ListJson(items, write)), items, write)
  {
    if items != [] {
      ListAt(items[1..], write);
      assert ListJson(items, write)[1..] == ListJson(items[1..], write);
    }
  }

  lemma TextsAt(keys: seq<string>, values: seq<Option<Json>>, i: nat, key: string, o: Option<seq<string>>)
    requires |keys| == |values| && Distinct(keys) && i < |keys| && keys[i] == key && values[i] == StringsJson(o)
    ensures HasTexts(JObj(Record(keys, values)), key, o)
  {
    At(keys, values, i, key, StringsJson(o));
    if o.Some? {
      ListAt(o.value, StrJson);
    }
  }

  /** No other names. */
  lemma OnlyThese(keys: seq<string>, values: seq<Option<Json>>, names: set<string>)
    requires |keys| == |values| && forall k :: k in keys ==> k in names
    ensures Only(JObj(Record(keys, values)), names)
  {
    RecordKnown(keys, values);
  }

  // ---------- The dispatch ----------

  lemma DispatchFirstNames(d: Dispatch)
    ensures var v := DispatchJson(d);
      && HasText(v, "workspace", d.workspace) && HasText(v, "source_control", d.sourceControl)
      && HasText(v, "writer", d.writer) && HasText(v, "adapter", d.adapter)
  {
    DispatchKeysDistinct();
    var k, g := DISPATCH_KEYS, DispatchValues(d);
    DispatchPlaces(d, g);
    At(k, g, 0, "workspace", Some(JStr(d.workspace)));
    At(k, g, 1, "source_control", Some(JStr(d.sourceControl)));
    At(k, g, 2, "writer", Some(JStr(d.writer)));
    At(k, g, 3, "adapter", Some(JStr(d.adapter)));
  }

  lemma DispatchSecondNames(d: Dispatch)
    ensures var v := DispatchJson(d);
      && HasText(v, "family", d.family) && HasText(v, "seat_id", d.seatId) && HasText(v, "cost_class", d.costClass)
      && HasText(v, "review_policy", d.reviewPolicy)
  {
    DispatchKeysDistinct();
    var k, g := DISPATCH_KEYS, DispatchValues(d);
    DispatchPlaces(d, g);
    At(k, g, 4, "family", Some(JStr(d.family)));
    At(k, g, 5, "seat_id", Some(JStr(d.seatId)));
    At(k, g, 6, "cost_class", Some(JStr(d.costClass)));
    At(k, g, 7, "review_policy", Some(JStr(d.reviewPolicy)));
  }

  lemma DispatchListNames(d: Dispatch)
    ensures var v := DispatchJson(d);
      && HasTexts(v, "allowed_paths", d.allowedPaths) && HasTexts(v, "forbidden_paths", d.forbiddenPaths)
      && HasTexts(v, "non_goals", d.nonGoals) && HasTexts(v, "required_checks", d.requiredChecks)
  {
    DispatchKeysDistinct();
    var k, g := DISPATCH_KEYS, DispatchValues(d);
    DispatchPlaces(d, g);
    TextsAt(k, g, 8, "allowed_paths", d.allowedPaths);
    TextsAt(k, g, 9, "forbidden_paths", d.forbiddenPaths);
    TextsAt(k, g, 10, "non_goals", d.nonGoals);
    TextsAt(k, g, 11, "required_checks", d.requiredChecks);
  }

  lemma DispatchLimitNames(d: Dispatch)
    requires DispatchInt64(d)
    ensures var v := DispatchJson(d);
      && HasNumber(v, "max_seconds", d.maxSeconds) && HasNumber(v, "max_output_bytes", d.maxOutputBytes)
      && HasNumber(v, "max_memory_bytes", d.maxMemoryBytes)
  {
    DispatchKeysDistinct();
    var k, g := DISPATCH_KEYS, DispatchValues(d);
    DispatchPlaces(d, g);
    NumberAt(k, g, 12, "max_seconds", d.maxSeconds);
    NumberAt(k, g, 13, "max_output_bytes", d.maxOutputBytes);
    NumberAt(k, g, 14, "max_memory_bytes", d.maxMemoryBytes);
  }

  lemma DispatchNames(d: Dispatch)
    requires DispatchInt64(d)
    ensures var v := DispatchJson(d);
      && HasText(v, "workspace", d.workspace) && HasText(v, "source_control", d.sourceControl)
      && HasText(v, "writer", d.writer) && HasText(v, "adapter", d.adapter) && HasText(v, "family", d.family)
      && HasText(v, "seat_id", d.seatId) && HasText(v, "cost_class", d.costClass)
      && HasText(v, "review_policy", d.reviewPolicy)
      && HasTexts(v, "allowed_paths", d.allowedPaths) && HasTexts(v, "forbidden_paths", d.forbiddenPaths)
      && HasTexts(v, "non_goals", d.nonGoals) && HasTexts(v, "required_checks", d.requiredChecks)
      && HasNumber(v, "max_seconds", d.maxSeconds) && HasNumber(v, "max_output_bytes", d.maxOutputBytes)
      && HasNumber(v, "max_memory_bytes", d.maxMemoryBytes)
  {
    DispatchFirstNames(d);
    DispatchSecondNames(d);
    DispatchListNames(d);
    DispatchLimitNames(d);
  }

  // ---------- Records ----------

  ghost predicate FreezeNamed(t: Times, f: FreezeRecord, v: Json) {
    && HasText(v, "base", f.base) && HasText(v, "head", f.head) && HasText(v, "candidate", f.candidate)
    && HasText(v, "tree", f.tree) && HasText(v, "diff", f.diff) && HasText(v, "at", t.text(f.at))
  }

  lemma FreezeNames(t: Times, f: FreezeRecord)
    ensures FreezeNamed(t, f, FreezeJson(t, f))
  {
    var k, g := FREEZE_KEYS, TextFields([f.base, f.head, f.candidate, f.tree, f.diff, t.text(f.at)]);
    At(k, g, 0, "base", Some(JStr(f.base)));
    At(k, g, 1, "head", Some(JStr(f.head)));
    At(k, g, 2, "candidate", Some(JStr(f.candidate)));
    At(k, g, 3, "tree", Some(JStr(f.tree)));
    At(k, g, 4, "diff", Some(JStr(f.diff)));
    At(k, g, 5, "at", Some(JStr(t.text(f.at))));
  }

  ghost predicate ReviewNamed(t: Times, r: ReviewRecord, v: Json) {
    && HasText(v, "reviewer", r.reviewer) && HasText(v, "family", r.family) && HasText(v, "seat_id", r.seatId)
    && HasText(v, "verdict", r.verdict) && HasText(v, "fingerprint", r.fingerprint)
    && HasText(v, "at", t.text(r.at)) && HasTexts(v, "evidence_hashes", Some(r.evidenceHashes))
  }

  lemma ReviewNames(t: Times, r: ReviewRecord)
    ensures ReviewNamed(t, r, ReviewField(t, Some(r)).value)
  {
    var k, g := REVIEW_KEYS, ReviewValues(t, r);
    At(k, g, 0, "reviewer", Some(JStr(r.reviewer)));
    At(k, g, 1, "family", Some(JStr(r.family)));
    At(k, g, 2, "seat_id", Some(JStr(r.seatId)));
    At(k, g, 3, "verdict", Some(JStr(r.verdict)));
    At(k, g, 4, "fingerprint", Some(JStr(r.fingerprint)));
    At(k, g, 5, "at", Some(JStr(t.text(r.at))));
    TextsAt(k, g, 6, "evidence_hashes", Some(r.evidenceHashes));
  }

  lemma EvidenceNames(e: EvidenceReference)
    ensures HasText(EvidenceJson(e), "name", e.name) && HasText(EvidenceJson(e), "hash", e.hash)
  {
    var k, g := EVIDENCE_KEYS, TextFields([e.name, e.hash]);
    At(k, g, 0, "name", Some(JStr(e.name)));
    At(k, g, 1, "hash", Some(JStr(e.hash)));
  }

  lemma FailureNames(t: Times, f: FailureRecord)
    ensures var v := FailureJson(t, f);
      && HasText(v, "class", f.kind) && HasText(v, "op", f.op)
      && HasText(v, "at", t.text(f.at)) && HasText(v, "error", f.error)
  {
    var k, g := FAILURE_KEYS, TextFields([f.kind, f.op, t.text(f.at), f.error]);
    At(k, g, 0, "class", Some(JStr(f.kind)));
    At(k, g, 1, "op", Some(JStr(f.op)));
    At(k, g, 2, "at", Some(JStr(t.text(f.at))));
    At(k, g, 3, "error", Some(JStr(f.error)));
  }

  // ---------- The lane ----------

  /** The names of the states on disk. */
  predicate StateNamed(s: L.State, text: string) {
    && (s == L.Planned <==> text == "PLANNED") && (s == L.Active <==> text == "ACTIVE")
    && (s == L.Frozen <==> text == "FROZEN") && (s == L.Reviewed <==> text == "REVIEWED")
    && (s == L.Ready <==> text == "READY") && (s == L.Closed <==> text == "CLOSED")
    && (s == L.Blocked <==> text == "BLOCKED") && (s == L.Abandoned <==> text == "ABANDONED")
    && (s == L.Incident <==> text == "INCIDENT") && (s == L.Other("") <==> text == "")
  }

  lemma StateNames(s: L.State)
    requires ProperState(s)
    ensures StateNamed(s, StateText(s))
  {
  }

  lemma LaneTextPlaces(t: Times, m: Manifest, g: seq<Option<Json>>)
    requires g == LaneValues(t, m)
    ensures g[0] == Some(JStr(m.laneId)) && g[1] == Some(JStr(StateText(m.state)))
    ensures g[2] == Some(JStr(m.dispatchHash))
    ensures g[3] == Some(JStr(t.text(m.createdAt))) && g[4] == Some(JStr(t.text(m.updatedAt)))
  {
  }

  lemma LaneTextNames(t: Times, m: Manifest)
    ensures var v := WriteLane(t, m);
      && HasText(v, "lane_id", m.laneId) && HasText(v, "dispatch_hash", m.dispatchHash)
      && HasText(v, "created_at", t.text(m.createdAt)) && HasText(v, "updated_at", t.text(m.updatedAt))
  {
    LaneKeysDistinct();
    var k, g := LANE_KEYS, LaneValues(t, m);
    LaneTextPlaces(t, m, g);
    At(k, g, 0, "lane_id", Some(JStr(m.laneId)));
    At(k, g, 2, "dispatch_hash", Some(JStr(m.dispatchHash)));
    At(k, g, 3, "created_at", Some(JStr(t.text(m.createdAt))));
    At(k, g, 4, "updated_at", Some(JStr(t.text(m.updatedAt))));
  }

  lemma LaneSchemaNames(t: Times, m: Manifest)
    requires IsInt64(m.schemaVersion)
    ensures HasNumber(WriteLane(t, m), "schema_version", m.schemaVersion)
  {
    LaneKeysDistinct();
    var k, g := LANE_KEYS, LaneValues(t, m);
    LaneRestPlaces(t, m, g);
    NumberAt(k, g, 5, "schema_version", m.schemaVersion);
  }

  lemma LaneFlagNames(t: Times, m: Manifest)
    ensures Has(WriteLane(t, m), "external_actions_human_only", JBool(m.externalActionsHumanOnly))
  {
    LaneKeysDistinct();
    var k, g := LANE_KEYS, LaneValues(t, m);
    LaneRestPlaces(t, m, g);
    At(k, g, 12, "external_actions_human_only", Some(JBool(m.externalActionsHumanOnly)));
  }

  ghost predicate HasState(v: Json, key: string, s: L.State) {
    v.JObj? && key in v.fields && v.fields[key].JStr? && StateNamed(s, v.fields[key].s)
  }

  lemma LaneStateText(t: Times, m: Manifest)
    ensures HasText(WriteLane(t, m), "state", StateText(m.state))
  {
    LaneKeysDistinct();
    var k, g := LANE_KEYS, LaneValues(t, m);
    LaneTextPlaces(t, m, g);
    At(k, g, 1, "state", Some(JStr(StateText(m.state))));
  }

  lemma LaneBlockedText(t: Times, m: Manifest)
    ensures if StateText(m.blockedFrom) == "" then Lacks(WriteLane(t, m), "blocked_from")
            else HasText(WriteLane(t, m), "blocked_from", StateText(m.blockedFrom))
  {
    LaneKeysDistinct();
    var k, g := LANE_KEYS, LaneValues(t, m);
    LaneRestPlaces(t, m, g);
    OptionalAt(k, g, 6, "blocked_from", StateText(m.blockedFrom));
  }

  /** The state by its name; the state blocked from only while there is one. */
  lemma LaneStateNames(t: Times, m: Manifest)
    requires Storable(m)
    ensures HasState(WriteLane(t, m), "state", m.state)
    ensures if m.blockedFrom == L.Other("") then Lacks(WriteLane(t, m), "blocked_from")
            else HasState(WriteLane(t, m), "blocked_from", m.blockedFrom)
  {
    LaneStateText(t, m);
    StateNames(m.state);
    LaneBlockedText(t, m);
    StateNames(m.blockedFrom);
  }

  /** Records and lists are there exactly when there are any. */
  lemma LaneRecordNames(t: Times, m: Manifest)
    ensures var v := WriteLane(t, m);
      && v.JObj? && Has(v, "dispatch", DispatchJson(m.dispatch))
      && (if m.freeze.None? then Lacks(v, "freeze")
          else "freeze" in v.fields && FreezeNamed(t, m.freeze.value, v.fields["freeze"]))
      && (if m.review.None? then Lacks(v, "review")
          else "review" in v.fields && ReviewNamed(t, m.review.value, v.fields["review"]))
      && (if m.evidence == [] then Lacks(v, "evidence") else HasList(v, "evidence", m.evidence, EvidenceJson))
      && (if m.failures == [] then Lacks(v, "failures")
          else HasList(v, "failures", m.failures, f => FailureJson(t, f)))
  {
    LaneKeysDistinct();
    var k, g := LANE_KEYS, LaneValues(t, m);
    LaneRestPlaces(t, m, g);
    At(k, g, 7, "dispatch", Some(DispatchJson(m.dispatch)));
    At(k, g, 8, "freeze", FreezeField(t, m.freeze));
    At(k, g, 9, "review", ReviewField(t, m.review));
    At(k, g, 10, "evidence", EvidenceField(m.evidence));
    At(k, g, 11, "failures", FailuresField(t, m.failures));
    if m.freeze.Some? {
      FreezeNames(t, m.freeze.value);
    }
    if m.review.Some? {
      ReviewNames(t, m.review.value);
    }
    ListAt(m.evidence, EvidenceJson);
    ListAt(m.failures, f => FailureJson(t, f));
  }

  lemma LaneOnlyNames(t: Times, m: Manifest)
    ensures Only(WriteLane(t, m), {
      "schema_version", "lane_id", "state", "blocked_from", "dispatch", "dispatch_hash", "freeze", "review",
      "evidence", "failures", "created_at", "updated_at", "external_actions_human_only"})
  {
    OnlyThese(LANE_KEYS, LaneValues(t, m), {
      "schema_version", "lane_id", "state", "blocked_from", "dispatch", "dispatch_hash", "freeze", "review",
      "evidence", "failures", "created_at", "updated_at", "external_actions_human_only"});
  }

  /** A lane on disk: every field under its own name, and no other name. */
  ghost predicate LaneNamed(t: Times, m: Manifest, v: Json) {
    && HasText(v, "lane_id", m.laneId) && HasNumber(v, "schema_version", m.schemaVersion)
    && HasState(v, "state", m.state)
    && (if m.blockedFrom == L.Other("") then Lacks(v, "blocked_from") else HasState(v, "blocked_from", m.blockedFrom))
    && Has(v, "dispatch", DispatchJson(m.dispatch)) && HasText(v, "dispatch_hash", m.dispatchHash)
    && (if m.freeze.None? then Lacks(v, "freeze")
        else "freeze" in v.fields && FreezeNamed(t, m.freeze.value, v.fields["freeze"]))
    && (if m.review.None? then Lacks(v, "review")
        else "review" in v.fields && ReviewNamed(t, m.review.value, v.fields["review"]))
    && (if m.evidence == [] then Lacks(v, "evidence") else HasList(v, "evidence", m.evidence, EvidenceJson))
    && (if m.failures == [] then Lacks(v, "failures")
        else HasList(v, "failures", m.failures, f => FailureJson(t, f)))
    && HasText(v, "created_at", t.text(m.createdAt)) && HasText(v, "updated_at", t.text(m.updatedAt))
    && Has(v, "external_actions_human_only", JBool(m.externalActionsHumanOnly))
    && Only(v, {
         "schema_version", "lane_id", "state", "blocked_from", "dispatch", "dispatch_hash", "freeze", "review",
         "evidence", "failures", "created_at", "updated_at", "external_actions_human_only"})
  }

  lemma LaneNames(t: Times, m: Manifest)
    requires Storable(m)
    ensures LaneNamed(t, m, WriteLane(t, m))
  {
    LaneTextNames(t, m);
    LaneSchemaNames(t, m);
    LaneStateNames(t, m);
    LaneRecordNames(t, m);
    LaneFlagNames(t, m);
    LaneOnlyNames(t, m);
  }

  // ---------- The receipt ----------

  ghost predicate ReceiptNamed(t: Times, r: Receipt, v: Json) {
    && HasText(v, "method_id", r.methodId) && HasText(v, "probe", r.probe)
    && HasText(v, "candidate_hash", r.candidateHash) && HasText(v, "manifest_hash", r.manifestHash)
    && HasText(v, "result_class", r.resultClass) && HasText(v, "timestamp", t.text(r.timestamp))
    && HasNumber(v, "schema_version", r.schemaVersion) && HasNumber(v, "exit_code", r.exitCode)
    && (if r.seatId == "" then Lacks(v, "seat_id") else HasText(v, "seat_id", r.seatId))
    && (if r.artifacts == [] then Lacks(v, "artifacts") else HasList(v, "artifacts", r.artifacts, ArtifactJson))
  }

  /** The first ten names and values are those of the payload. */
  predicate StartsAsPayload(t: Times, r: Receipt, k: seq<string>, g: seq<Option<Json>>) {
    |k| == |g| && Distinct(k) && PAYLOAD_KEYS <= k && PayloadValues(t, r) <= g
  }

  lemma ReceiptTextNames(t: Times, r: Receipt, k: seq<string>, g: seq<Option<Json>>)
    requires StartsAsPayload(t, r, k, g)
    ensures var v := JObj(Record(k, g));
      && HasText(v, "method_id", r.methodId) && HasText(v, "probe", r.probe)
      && HasText(v, "candidate_hash", r.candidateHash) && HasText(v, "manifest_hash", r.manifestHash)
      && HasText(v, "result_class", r.resultClass) && HasText(v, "timestamp", t.text(r.timestamp))
  {
    var v := PayloadValues(t, r);
    assert forall i :: 0 <= i < 6 ==> k[i] == PAYLOAD_KEYS[i] && g[i] == v[i];
    At(k, g, 0, "method_id", Some(JStr(r.methodId)));
    At(k, g, 1, "probe", Some(JStr(r.probe)));
    At(k, g, 2, "candidate_hash", Some(JStr(r.candidateHash)));
    At(k, g, 3, "manifest_hash", Some(JStr(r.manifestHash)));
    At(k, g, 4, "result_class", Some(JStr(r.resultClass)));
    At(k, g, 5, "timestamp", Some(JStr(t.text(r.timestamp))));
  }

  lemma PayloadPlaces(t: Times, r: Receipt, g: seq<Option<Json>>)
    requires g == PayloadValues(t, r)
    ensures |g| == 10 && g[6] == Some(IntJson(r.schemaVersion)) && g[7] == Some(IntJson(r.exitCode))
    ensures g[8] == OmitEmpty(r.seatId) && g[9] == ArtifactsField(r.artifacts)
  {
  }

  lemma ReceiptOtherNames(t: Times, r: Receipt, k: seq<string>, g: seq<Option<Json>>)
    requires StartsAsPayload(t, r, k, g) && IsInt64(r.schemaVersion) && IsInt64(r.exitCode)
    ensures var v := JObj(Record(k, g));
      && HasNumber(v, "schema_version", r.schemaVersion) && HasNumber(v, "exit_code", r.exitCode)
      && (if r.seatId == "" then Lacks(v, "seat_id") else HasText(v, "seat_id", r.seatId))
      && (if r.artifacts == [] then Lacks(v, "artifacts") else HasList(v, "artifacts", r.artifacts, ArtifactJson))
  {
    PayloadPlaces(t, r, PayloadValues(t, r));
    assert forall i :: 6 <= i < 10 ==> k[i] == PAYLOAD_KEYS[i] && g[i] == PayloadValues(t, r)[i];
    NumberAt(k, g, 6, "schema_version", r.schemaVersion);
    NumberAt(k, g, 7, "exit_code", r.exitCode);
    OptionalAt(k, g, 8, "seat_id", r.seatId);
    At(k, g, 9, "artifacts", ArtifactsField(r.artifacts));
    ListAt(r.artifacts, ArtifactJson);
  }

  lemma ReceiptFieldNames(t: Times, r: Receipt, k: seq<string>, g: seq<Option<Json>>)
    requires StartsAsPayload(t, r, k, g) && IsInt64(r.schemaVersion) && IsInt64(r.exitCode)
    ensures ReceiptNamed(t, r, JObj(Record(k, g)))
  {
    ReceiptTextNames(t, r, k, g);
    ReceiptOtherNames(t, r, k, g);
  }

  lemma StoredNames(t: Times, r: Receipt, h: string)
    requires IsInt64(r.schemaVersion) && IsInt64(r.exitCode)
    ensures ReceiptNamed(t, r, WriteReceipt(t, r, h)) && HasText(WriteReceipt(t, r, h), "canonical_hash", h)
  {
    ReceiptJson.KeysDistinct();
    var g := ReceiptValues(t, r, h);
    ReceiptFieldNames(t, r, RECEIPT_KEYS, g);
    assert g[10] == TextFields([h])[0];
    At(RECEIPT_KEYS, g, 10, "canonical_hash", Some(JStr(h)));
  }

  lemma HashedNames(t: Times, r: Receipt)
    requires IsInt64(r.schemaVersion) && IsInt64(r.exitCode)
    ensures ReceiptNamed(t, r, WritePayload(t, r))
  {
    ReceiptJson.KeysDistinct();
    ReceiptFieldNames(t, r, PAYLOAD_KEYS, PayloadValues(t, r));
  }

  lemma HashedLacks(t: Times, r: Receipt)
    ensures Lacks(WritePayload(t, r), "canonical_hash")
  {
    ReceiptJson.KeysDistinct();
    assert RECEIPT_KEYS == PAYLOAD_KEYS + ["canonical_hash"];
    NotAmong("canonical_hash", PAYLOAD_KEYS, PayloadValues(t, r), RECEIPT_KEYS);
  }

  lemma NotAmong(key: string, keys: seq<string>, values: seq<Option<Json>>, all: seq<string>)
    requires |keys| == |values| && all == keys + [key] && Distinct(all)
    ensures Lacks(JObj(Record(keys, values)), key)
  {
    RecordKnown(keys, values);
    assert all[|keys|] == key;
    assert forall i :: 0 <= i < |keys| ==> all[i] == keys[i];
  }

  /** The stored receipt and the text that is hashed name the same fields; the hash is in
      the first only. */
  lemma ReceiptNames(t: Times, r: Receipt, h: string)
    requires IsInt64(r.schemaVersion) && IsInt64(r.exitCode)
    ensures ReceiptNamed(t, r, WriteReceipt(t, r, h)) && HasText(WriteReceipt(t, r, h), "canonical_hash", h)
    ensures ReceiptNamed(t, r, WritePayload(t, r)) && Lacks(WritePayload(t, r), "canonical_hash")
  {
    StoredNames(t, r, h);
    HashedNames(t, r);
    HashedLacks(t, r);
  }

  lemma ArtifactNames(a: Artifact)
    ensures var v := ArtifactJson(a);
      (if a.name == "" then Lacks(v, "name") else HasText(v, "name", a.name)) && HasText(v, "hash", a.hash)
  {
    var k, g := ARTIFACT_KEYS, [OmitEmpty(a.name), Some(JStr(a.hash))];
    OptionalAt(k, g, 0, "name", a.name);
    At(k, g, 1, "hash", Some(JStr(a.hash)));
  }
}
