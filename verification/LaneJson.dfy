/** The JSON form of a whole manifest: the concrete codec of the store. */
module LaneJson {
  import opened Wrappers
  import opened Order
  import opened Manifest
  import opened CanonParse
  import opened JsonRecord
  import opened ManifestJson
  import L = Lifecycle

  // ---------- Records of text fields ----------

  /** A struct all of whose fields are texts. */
  function TextRecord(keys: seq<string>, texts: seq<string>): Json
    requires |keys| == |texts|
  {
    JObj(Record(keys, TextFields(texts)))
  }

  function ReadTexts(g: seq<Option<Json>>): Option<seq<string>> {
    if g == [] then Some([])
    else
      match ReadText(g[0])
      case None => None
      case Some(s) =>
        match ReadTexts(g[1..])
        case None => None
        case Some(more) => Some([s] + more)
  }

  lemma {:induction false} ReadTextsInverse(texts: seq<string>)
    ensures ReadTexts(TextFields(texts)) == Some(texts)
  {
    if texts != [] {
      ReadTextsInverse(texts[1..]);
      assert TextFields(texts)[1..] == TextFields(texts[1..]);
      assert texts == [texts[0]] + texts[1..];
    }
  }

  function ReadTextRecord(o: Option<Json>, keys: seq<string>): (r: Option<seq<string>>) {
    match ReadStruct(o, keys)
    case None => None
    case Some(g) => ReadTexts(g)
  }

  lemma TextRecordInverse(keys: seq<string>, texts: seq<string>)
    requires |keys| == |texts| && Distinct(keys)
    ensures ReadTextRecord(Some(TextRecord(keys, texts)), keys) == Some(texts)
    ensures AllCanonical(TextRecord(keys, texts))
  {
    TextsCanonical(texts);
    StructInverse(keys, TextFields(texts));
    ReadTextsInverse(texts);
  }

  // ---------- Freeze ----------

  const FREEZE_KEYS: seq<string> := ["base", "head", "candidate", "tree", "diff", "at"]

  function FreezeJson(t: Times, f: FreezeRecord): Json {
    TextRecord(FREEZE_KEYS, [f.base, f.head, f.candidate, f.tree, f.diff, t.text(f.at)])
  }

  function FreezeField(t: Times, f: Option<FreezeRecord>): Option<Json> {
    if f.None? then None else Some(FreezeJson(t, f.value))
  }

  /** A pointer field: absent or null is nil. */
  function ReadFreeze(t: Times, o: Option<Json>): Option<Option<FreezeRecord>> {
    if o.None? || o.value.JNull? then Some(None)
    else
      match ReadTextRecord(o, FREEZE_KEYS)
      case None => None
      case Some(s) =>
        if |s| != 6 || t.parse(s[5]).None? then None
        else Some(Some(FreezeRecord(s[0], s[1], s[2], s[3], s[4], t.parse(s[5]).value)))
  }

  lemma FreezeInverse(t: Times, f: Option<FreezeRecord>)
    requires TimesOk(t)
    ensures ReadFreeze(t, FreezeField(t, f)) == Some(f) && FieldCanonical(FreezeField(t, f))
  {
    if f.Some? {
      var v := f.value;
      TextRecordInverse(FREEZE_KEYS, [v.base, v.head, v.candidate, v.tree, v.diff, t.text(v.at)]);
    }
  }

  // ---------- Review ----------

  const REVIEW_KEYS: seq<string> := ["reviewer", "family", "seat_id", "verdict", "fingerprint", "at", "evidence_hashes"]

  function ReviewTexts(t: Times, r: ReviewRecord): seq<string> {
    [r.reviewer, r.family, r.seatId, r.verdict, r.fingerprint, t.text(r.at)]
  }

  function ReviewValues(t: Times, r: ReviewRecord): seq<Option<Json>> {
    TextFields(ReviewTexts(t, r)) + ListFields([Some(r.evidenceHashes)])
  }

  function ReviewField(t: Times, r: Option<ReviewRecord>): Option<Json> {
    if r.None? then None else Some(JObj(Record(REVIEW_KEYS, ReviewValues(t, r.value))))
  }

  function ReadReviewValues(t: Times, g: seq<Option<Json>>): Option<ReviewRecord>
    requires |g| == 7
  {
    var a, b, c, d, e, f, h := ReadText(g[0]), ReadText(g[1]), ReadText(g[2]), ReadText(g[3]), ReadText(g[4]),
                               ReadTime(t, g[5]), ReadStrings(g[6]);
    if a.None? || b.None? || c.None? || d.None? || e.None? || f.None? || h.None? then None
    else
      var hashes := if h.value.None? then [] else h.value.value;
      Some(ReviewRecord(a.value, b.value, c.value, d.value, e.value, hashes, f.value))
  }

  function ReadReview(t: Times, o: Option<Json>): Option<Option<ReviewRecord>> {
    if o.None? || o.value.JNull? then Some(None)
    else
      match ReadStruct(o, REVIEW_KEYS)
      case None => None
      case Some(g) =>
        match ReadReviewValues(t, g)
        case None => None
        case Some(r) => Some(Some(r))
  }

  lemma ReviewInverse(t: Times, r: Option<ReviewRecord>)
    requires TimesOk(t)
    ensures ReadReview(t, ReviewField(t, r)) == Some(r) && FieldCanonical(ReviewField(t, r))
  {
    if r.Some? {
      var v := r.value;
      TextsCanonical(ReviewTexts(t, v));
      ListsCanonical([Some(v.evidenceHashes)]);
      FieldsJoin(TextFields(ReviewTexts(t, v)), ListFields([Some(v.evidenceHashes)]));
      StructInverse(REVIEW_KEYS, ReviewValues(t, v));
      ReviewValuesInverse(t, v);
    }
  }

  lemma ReviewValuesInverse(t: Times, r: ReviewRecord)
    requires TimesOk(t)
    ensures ReadReviewValues(t, ReviewValues(t, r)) == Some(r)
  {
    StringsInverse(Some(r.evidenceHashes));
  }

  // ---------- Evidence and failures ----------

  const EVIDENCE_KEYS: seq<string> := ["name", "hash"]
  const FAILURE_KEYS: seq<string> := ["class", "op", "at", "error"]

  function EvidenceJson(e: EvidenceReference): Json {
    TextRecord(EVIDENCE_KEYS, [e.name, e.hash])
  }

  function ReadEvidence(v: Json): Option<EvidenceReference> {
    match ReadTextRecord(Some(v), EVIDENCE_KEYS)
    case None => None
    case Some(s) => if |s| == 2 then Some(EvidenceReference(s[0], s[1])) else None
  }

  lemma EvidenceInverse(e: EvidenceReference)
    ensures ReadEvidence(EvidenceJson(e)) == Some(e) && AllCanonical(EvidenceJson(e))
  {
    TextRecordInverse(EVIDENCE_KEYS, [e.name, e.hash]);
  }

  function FailureJson(t: Times, f: FailureRecord): Json {
    TextRecord(FAILURE_KEYS, [f.kind, f.op, t.text(f.at), f.error])
  }

  function ReadFailure(t: Times, v: Json): Option<FailureRecord> {
    match ReadTextRecord(Some(v), FAILURE_KEYS)
    case None => None
    case Some(s) =>
      if |s| != 4 || t.parse(s[2]).None? then None else Some(FailureRecord(s[0], s[1], t.parse(s[2]).value, s[3]))
  }

  lemma FailureInverse(t: Times, f: FailureRecord)
    requires TimesOk(t)
    ensures ReadFailure(t, FailureJson(t, f)) == Some(f) && AllCanonical(FailureJson(t, f))
  {
    TextRecordInverse(FAILURE_KEYS, [f.kind, f.op, t.text(f.at), f.error]);
  }

  /** A list that is left out when it is empty. */
  function ListField<T>(items: seq<T>, write: T -> Json): Option<Json> {
    if items == [] then None else Some(JArr(ListJson(items, write)))
  }

  function ReadList<T>(o: Option<Json>, read: Json -> Option<T>): Option<seq<T>> {
    if o.None? || o.value.JNull? then Some([])
    else if !o.value.JArr? then None
    else ReadItems(o.value.items, read)
  }

  lemma ListFieldInverse<T(!new)>(items: seq<T>, write: T -> Json, read: Json -> Option<T>)
    requires forall x :: x in items ==> Inverse(x, write, read)
    ensures ReadList(ListField(items, write), read) == Some(items) && FieldCanonical(ListField(items, write))
  {
    ListInverse(items, write, read);
  }

  function EvidenceField(evidence: seq<EvidenceReference>): Option<Json> {
    ListField(evidence, EvidenceJson)
  }

  function ReadEvidenceField(o: Option<Json>): Option<seq<EvidenceReference>> {
    ReadList(o, ReadEvidence)
  }

  function FailuresField(t: Times, failures: seq<FailureRecord>): Option<Json> {
    ListField(failures, f => FailureJson(t, f))
  }

  function ReadFailuresField(t: Times, o: Option<Json>): Option<seq<FailureRecord>> {
    ReadList(o, v => ReadFailure(t, v))
  }

  // ---------- The manifest ----------

  const LANE_KEYS: seq<string> := [
    "lane_id", "state", "dispatch_hash", "created_at", "updated_at",
    "schema_version", "blocked_from", "dispatch", "freeze", "review", "evidence", "failures",
    "external_actions_human_only"]

  function LaneTexts(t: Times, m: Manifest): seq<string> {
    [m.laneId, StateText(m.state), m.dispatchHash, t.text(m.createdAt), t.text(m.updatedAt)]
  }

  function LaneRest(t: Times, m: Manifest): seq<Option<Json>> {
    [Some(IntJson(m.schemaVersion)), OmitEmpty(StateText(m.blockedFrom)), Some(DispatchJson(m.dispatch)),
     FreezeField(t, m.freeze), ReviewField(t, m.review), EvidenceField(m.evidence), FailuresField(t, m.failures),
     Some(JBool(m.externalActionsHumanOnly))]
  }

  function LaneValues(t: Times, m: Manifest): seq<Option<Json>> {
    TextFields(LaneTexts(t, m)) + LaneRest(t, m)
  }

  function WriteLane(t: Times, m: Manifest): Json {
    JObj(Record(LANE_KEYS, LaneValues(t, m)))
  }

  function ReadLaneValues(t: Times, g: seq<Option<Json>>): Option<Manifest>
    requires |g| == 13
  {
    var a, b, c, d, e := ReadText(g[0]), ReadText(g[1]), ReadText(g[2]), ReadTime(t, g[3]), ReadTime(t, g[4]);
    var f, h, i, j, k := ReadInt(g[5]), ReadText(g[6]), ReadDispatch(g[7]), ReadFreeze(t, g[8]), ReadReview(t, g[9]);
    var l, m, n := ReadEvidenceField(g[10]), ReadFailuresField(t, g[11]), ReadBool(g[12]);
    if a.None? || b.None? || c.None? || d.None? || e.None? || f.None? || h.None? || i.None? || j.None? || k.None?
       || l.None? || m.None? || n.None? then None
    else
      Some(Manifest(f.value, a.value, StateOf(b.value), StateOf(h.value), i.value, c.value, j.value, k.value,
                    l.value, m.value, d.value, e.value, n.value))
  }

  function ReadLane(t: Times, v: Json): Option<Manifest> {
    match ReadStruct(Some(v), LANE_KEYS)
    case None => None
    case Some(g) => ReadLaneValues(t, g)
  }

  /** What memory can hold: int64 numbers, states that are what their text says. */
  predicate Storable(m: Manifest) {
    IsInt64(m.schemaVersion) && DispatchInt64(m.dispatch) && ProperState(m.state) && ProperState(m.blockedFrom)
  }

  lemma EvidenceFieldInverse(evidence: seq<EvidenceReference>)
    ensures ReadEvidenceField(EvidenceField(evidence)) == Some(evidence) && FieldCanonical(EvidenceField(evidence))
  {
    forall e | e in evidence
      ensures Inverse(e, EvidenceJson, ReadEvidence)
    {
      EvidenceInverse(e);
    }
    ListFieldInverse(evidence, EvidenceJson, ReadEvidence);
  }

  lemma FailuresFieldInverse(t: Times, failures: seq<FailureRecord>)
    requires TimesOk(t)
    ensures ReadFailuresField(t, FailuresField(t, failures)) == Some(failures)
    ensures FieldCanonical(FailuresField(t, failures))
  {
    var write, read := f => FailureJson(t, f), v => ReadFailure(t, v);
    forall f | f in failures
      ensures Inverse(f, write, read)
    {
      FailureInverse(t, f);
    }
    ListFieldInverse(failures, write, read);
  }

  lemma StateInverse(s: L.State)
    requires ProperState(s)
    ensures ReadText(OmitEmpty(StateText(s))) == Some(StateText(s)) && StateOf(StateText(s)) == s
  {
  }

  /** The texts and the rest, found again by their places. */
  lemma LaneTextsInverse(t: Times, m: Manifest, g: seq<Option<Json>>)
    requires TimesOk(t) && g == LaneValues(t, m)
    ensures ReadText(g[0]) == Some(m.laneId) && ReadText(g[1]) == Some(StateText(m.state))
    ensures ReadText(g[2]) == Some(m.dispatchHash)
    ensures ReadTime(t, g[3]) == Some(m.createdAt) && ReadTime(t, g[4]) == Some(m.updatedAt)
  {
  }

  lemma LaneRestPlaces(t: Times, m: Manifest, g: seq<Option<Json>>)
    requires g == LaneValues(t, m)
    ensures g[5] == Some(IntJson(m.schemaVersion)) && g[6] == OmitEmpty(StateText(m.blockedFrom))
    ensures g[7] == Some(DispatchJson(m.dispatch)) && g[8] == FreezeField(t, m.freeze)
    ensures g[9] == ReviewField(t, m.review)
    ensures g[10] == EvidenceField(m.evidence) && g[11] == FailuresField(t, m.failures)
    ensures g[12] == Some(JBool(m.externalActionsHumanOnly))
  {
  }

  lemma LaneRestInverse(t: Times, m: Manifest)
    requires TimesOk(t) && Storable(m)
    ensures ReadInt(Some(IntJson(m.schemaVersion))) == Some(m.schemaVersion)
    ensures ReadDispatch(Some(DispatchJson(m.dispatch))) == Some(m.dispatch)
    ensures ReadFreeze(t, FreezeField(t, m.freeze)) == Some(m.freeze)
    ensures ReadReview(t, ReviewField(t, m.review)) == Some(m.review)
    ensures ReadEvidenceField(EvidenceField(m.evidence)) == Some(m.evidence)
    ensures ReadFailuresField(t, FailuresField(t, m.failures)) == Some(m.failures)
  {
    IntInverse(m.schemaVersion);
    DispatchInverse(m.dispatch);
    FreezeInverse(t, m.freeze);
    ReviewInverse(t, m.review);
    EvidenceFieldInverse(m.evidence);
    FailuresFieldInverse(t, m.failures);
  }

  lemma ReadLaneFrom(t: Times, g: seq<Option<Json>>, m: Manifest)
    requires |g| == 13
    requires ReadText(g[0]) == Some(m.laneId) && ReadText(g[1]) == Some(StateText(m.state)) && ProperState(m.state)
    requires ReadText(g[2]) == Some(m.dispatchHash)
    requires ReadTime(t, g[3]) == Some(m.createdAt) && ReadTime(t, g[4]) == Some(m.updatedAt)
    requires ReadInt(g[5]) == Some(m.schemaVersion)
    requires ReadText(g[6]) == Some(StateText(m.blockedFrom)) && ProperState(m.blockedFrom)
    requires ReadDispatch(g[7]) == Some(m.dispatch) && ReadFreeze(t, g[8]) == Some(m.freeze)
    requires ReadReview(t, g[9]) == Some(m.review) && ReadEvidenceField(g[10]) == Some(m.evidence)
    requires ReadFailuresField(t, g[11]) == Some(m.failures) && ReadBool(g[12]) == Some(m.externalActionsHumanOnly)
    ensures ReadLaneValues(t, g) == Some(m)
  {
  }

  lemma LaneValuesInverse(t: Times, m: Manifest)
    requires TimesOk(t) && Storable(m)
    ensures ReadLaneValues(t, LaneValues(t, m)) == Some(m)
  {
    var g := LaneValues(t, m);
    LaneTextsInverse(t, m, g);
    LaneRestPlaces(t, m, g);
    LaneRestInverse(t, m);
    StateInverse(m.blockedFrom);
    ReadLaneFrom(t, g, m);
  }

  lemma LaneRestCanonical(t: Times, m: Manifest)
    requires TimesOk(t)
    ensures FieldsCanonical(LaneRest(t, m))
  {
    IntsCanonical([m.schemaVersion]);
    assert IntFields([m.schemaVersion])[0] == Some(IntJson(m.schemaVersion));
    DispatchCanonical(m.dispatch);
    FreezeInverse(t, m.freeze);
    ReviewInverse(t, m.review);
    EvidenceFieldInverse(m.evidence);
    FailuresFieldInverse(t, m.failures);
    EightFields(Some(IntJson(m.schemaVersion)), OmitEmpty(StateText(m.blockedFrom)), Some(DispatchJson(m.dispatch)),
                FreezeField(t, m.freeze), ReviewField(t, m.review), EvidenceField(m.evidence),
                FailuresField(t, m.failures), Some(JBool(m.externalActionsHumanOnly)));
  }

  lemma TwoFields(a: Option<Json>, b: Option<Json>)
    requires FieldCanonical(a) && FieldCanonical(b)
    ensures FieldsCanonical([a, b])
  {
  }

  lemma EightFields(a: Option<Json>, b: Option<Json>, c: Option<Json>, d: Option<Json>,
                    e: Option<Json>, f: Option<Json>, g: Option<Json>, h: Option<Json>)
    requires FieldCanonical(a) && FieldCanonical(b) && FieldCanonical(c) && FieldCanonical(d)
    requires FieldCanonical(e) && FieldCanonical(f) && FieldCanonical(g) && FieldCanonical(h)
    ensures FieldsCanonical([a, b, c, d, e, f, g, h])
  {
    TwoFields(a, b);
    TwoFields(c, d);
    TwoFields(e, f);
    TwoFields(g, h);
    FieldsJoin([a, b], [c, d]);
    FieldsJoin([e, f], [g, h]);
    FieldsJoin([a, b] + [c, d], [e, f] + [g, h]);
    assert [a, b] + [c, d] + ([e, f] + [g, h]) == [a, b, c, d, e, f, g, h];
  }

  lemma LaneKeysDistinct()
    ensures Distinct(LANE_KEYS)
  {
  }

  /** Reading inverts writing, and what is written has canonical numbers only. */
  lemma LaneInverse(t: Times, m: Manifest)
    requires TimesOk(t)
    ensures AllCanonical(WriteLane(t, m))
    ensures Storable(m) ==> ReadLane(t, WriteLane(t, m)) == Some(m)
  {
    TextsCanonical(LaneTexts(t, m));
    LaneRestCanonical(t, m);
    FieldsJoin(TextFields(LaneTexts(t, m)), LaneRest(t, m));
    LaneKeysDistinct();
    StructInverse(LANE_KEYS, LaneValues(t, m));
    if Storable(m) {
      LaneValuesInverse(t, m);
    }
  }

  // ---------- Reading gives storable manifests ----------

  lemma ReadDispatchInt64(o: Option<Json>)
    requires ReadDispatch(o).Some?
    ensures DispatchInt64(ReadDispatch(o).value)
  {
  }

  lemma ReadStorable(t: Times, v: Json)
    requires ReadLane(t, v).Some?
    ensures Storable(ReadLane(t, v).value)
  {
    var g := ReadStruct(Some(v), LANE_KEYS).value;
    ReadDispatchInt64(g[7]);
    ReadProper(ReadText(g[1]).value);
    ReadProper(ReadText(g[6]).value);
  }
}
