/** The JSON form of a receipt, field by field: the concrete format of the store. */
module ReceiptJson {
  import opened Wrappers
  import opened Order
  import opened Manifest
  import opened Evidence
  import opened EvidenceStore
  import opened JsonDecoder
  import opened CanonParse
  import opened CanonValue
  import opened CanonBytes
  import opened JsonRecord
  import opened ManifestJson
  import opened LaneJson

  // ---------- Artifacts ----------

  const ARTIFACT_KEYS: seq<string> := ["name", "hash"]

  function ArtifactJson(a: Artifact): Json {
    JObj(Record(ARTIFACT_KEYS, [OmitEmpty(a.name), Some(JStr(a.hash))]))
  }

  function ReadArtifact(v: Json): Option<Artifact> {
    match ReadTextRecord(Some(v), ARTIFACT_KEYS)
    case None => None
    case Some(s) => if |s| == 2 then Some(Artifact(s[0], s[1])) else None
  }

  lemma ReadPair(values: seq<Option<Json>>, x: string, y: string)
    requires |values| == 2 && ReadText(values[0]) == Some(x) && ReadText(values[1]) == Some(y)
    ensures ReadTexts(values) == Some([x, y])
  {
    var last := values[1..];
    assert last[1..] == [] && ReadTexts([]) == Some([]);
    assert [y] + [] == [y];
    assert ReadTexts(last) == Some([y]);
    assert [x] + [y] == [x, y];
  }

  lemma ArtifactInverse(a: Artifact)
    ensures ReadArtifact(ArtifactJson(a)) == Some(a) && AllCanonical(ArtifactJson(a))
  {
    var values := [OmitEmpty(a.name), Some(JStr(a.hash))];
    TwoFields(values[0], values[1]);
    StructInverse(ARTIFACT_KEYS, values);
    ReadPair(values, a.name, a.hash);
  }

  function ArtifactsField(artifacts: seq<Artifact>): Option<Json> {
    ListField(artifacts, ArtifactJson)
  }

  function ReadArtifacts(o: Option<Json>): Option<seq<Artifact>> {
    ReadList(o, ReadArtifact)
  }

  lemma ArtifactsInverse(artifacts: seq<Artifact>)
    ensures ReadArtifacts(ArtifactsField(artifacts)) == Some(artifacts) && FieldCanonical(ArtifactsField(artifacts))
  {
    forall i | 0 <= i < |artifacts|
      ensures ReadArtifact(ArtifactJson(artifacts[i])) == Some(artifacts[i]) && AllCanonical(ArtifactJson(artifacts[i]))
    {
      ArtifactInverse(artifacts[i]);
    }
    ListFieldInverse(artifacts, ArtifactJson, ReadArtifact);
  }

  // ---------- Receipts ----------

  const PAYLOAD_KEYS: seq<string> := [
    "method_id", "probe", "candidate_hash", "manifest_hash", "result_class", "timestamp",
    "schema_version", "exit_code", "seat_id", "artifacts"]

  const RECEIPT_KEYS: seq<string> := [
    "method_id", "probe", "candidate_hash", "manifest_hash", "result_class", "timestamp",
    "schema_version", "exit_code", "seat_id", "artifacts", "canonical_hash"]

  function ReceiptTexts(t: Times, r: Receipt): seq<string> {
    [r.methodId, r.probe, r.candidateHash, r.manifestHash, r.resultClass, t.text(r.timestamp)]
  }

  function PayloadValues(t: Times, r: Receipt): seq<Option<Json>> {
    TextFields(ReceiptTexts(t, r)) + IntFields([r.schemaVersion, r.exitCode])
    + [OmitEmpty(r.seatId), ArtifactsField(r.artifacts)]
  }

  function WritePayload(t: Times, r: Receipt): Json {
    JObj(Record(PAYLOAD_KEYS, PayloadValues(t, r)))
  }

  function ReceiptValues(t: Times, r: Receipt, h: string): seq<Option<Json>> {
    PayloadValues(t, r) + TextFields([h])
  }

  function WriteReceipt(t: Times, r: Receipt, h: string): Json {
    JObj(Record(RECEIPT_KEYS, ReceiptValues(t, r, h)))
  }

  function ReadReceiptValues(t: Times, g: seq<Option<Json>>): Option<(Receipt, string)>
    requires |g| == 11
  {
    var a, b, c := ReadText(g[0]), ReadText(g[1]), ReadText(g[2]);
    var d, e, f := ReadText(g[3]), ReadText(g[4]), ReadTime(t, g[5]);
    var i, j, k, l, m := ReadInt(g[6]), ReadInt(g[7]), ReadText(g[8]), ReadArtifacts(g[9]), ReadText(g[10]);
    if a.None? || b.None? || c.None? || d.None? || e.None? || f.None? || i.None? || j.None? || k.None? || l.None?
       || m.None? then None
    else
      Some((Receipt(i.value, a.value, k.value, b.value, c.value, d.value, e.value, j.value, l.value, f.value), m.value))
  }

  function ReadReceipt(t: Times, v: Json): Option<(Receipt, string)> {
    match ReadStruct(Some(v), RECEIPT_KEYS)
    case None => None
    case Some(g) => ReadReceiptValues(t, g)
  }

  lemma PayloadCanonical(t: Times, r: Receipt)
    ensures FieldsCanonical(PayloadValues(t, r))
  {
    TextsCanonical(ReceiptTexts(t, r));
    IntsCanonical([r.schemaVersion, r.exitCode]);
    FieldsJoin(TextFields(ReceiptTexts(t, r)), IntFields([r.schemaVersion, r.exitCode]));
    ArtifactsInverse(r.artifacts);
    TwoFields(OmitEmpty(r.seatId), ArtifactsField(r.artifacts));
    FieldsJoin(TextFields(ReceiptTexts(t, r)) + IntFields([r.schemaVersion, r.exitCode]),
               [OmitEmpty(r.seatId), ArtifactsField(r.artifacts)]);
  }

  lemma ReceiptPlaces(t: Times, r: Receipt, h: string, g: seq<Option<Json>>)
    requires TimesOk(t) && g == ReceiptValues(t, r, h)
    ensures ReadText(g[0]) == Some(r.methodId) && ReadText(g[1]) == Some(r.probe)
    ensures ReadText(g[2]) == Some(r.candidateHash) && ReadText(g[3]) == Some(r.manifestHash)
    ensures ReadText(g[4]) == Some(r.resultClass) && ReadTime(t, g[5]) == Some(r.timestamp)
    ensures g[6] == Some(IntJson(r.schemaVersion)) && g[7] == Some(IntJson(r.exitCode))
    ensures ReadText(g[8]) == Some(r.seatId) && g[9] == ArtifactsField(r.artifacts) && ReadText(g[10]) == Some(h)
  {
  }

  lemma ReadReceiptFrom(t: Times, g: seq<Option<Json>>, r: Receipt, h: string)
    requires |g| == 11
    requires ReadText(g[0]) == Some(r.methodId) && ReadText(g[1]) == Some(r.probe)
    requires ReadText(g[2]) == Some(r.candidateHash) && ReadText(g[3]) == Some(r.manifestHash)
    requires ReadText(g[4]) == Some(r.resultClass) && ReadTime(t, g[5]) == Some(r.timestamp)
    requires ReadInt(g[6]) == Some(r.schemaVersion) && ReadInt(g[7]) == Some(r.exitCode)
    requires ReadText(g[8]) == Some(r.seatId) && ReadArtifacts(g[9]) == Some(r.artifacts) && ReadText(g[10]) == Some(h)
    ensures ReadReceiptValues(t, g) == Some((r, h))
  {
  }

  lemma KeysDistinct()
    ensures Distinct(PAYLOAD_KEYS) && Distinct(RECEIPT_KEYS)
  {
  }

  lemma ReceiptValuesInverse(t: Times, r: Receipt, h: string)
    requires TimesOk(t) && IsInt64(r.schemaVersion) && IsInt64(r.exitCode)
    ensures ReadReceiptValues(t, ReceiptValues(t, r, h)) == Some((r, h))
  {
    ArtifactsInverse(r.artifacts);
    IntInverse(r.schemaVersion);
    IntInverse(r.exitCode);
    ReceiptPlaces(t, r, h, ReceiptValues(t, r, h));
    ReadReceiptFrom(t, ReceiptValues(t, r, h), r, h);
  }

  /** Reading inverts writing. */
  lemma ReceiptInverse(t: Times, r: Receipt, h: string)
    requires TimesOk(t)
    ensures AllCanonical(WritePayload(t, r)) && AllCanonical(WriteReceipt(t, r, h))
    ensures IsInt64(r.schemaVersion) && IsInt64(r.exitCode) ==> ReadReceipt(t, WriteReceipt(t, r, h)) == Some((r, h))
  {
    KeysDistinct();
    PayloadCanonical(t, r);
    TextsCanonical([h]);
    FieldsJoin(PayloadValues(t, r), TextFields([h]));
    RecordCanonical(PAYLOAD_KEYS, PayloadValues(t, r));
    StructInverse(RECEIPT_KEYS, ReceiptValues(t, r, h));
    if IsInt64(r.schemaVersion) && IsInt64(r.exitCode) {
      ReceiptValuesInverse(t, r, h);
    }
  }

  /** The store's format, for any hash function onto hashes. */
  function ReceiptFormat(t: Times, hash: Text -> string): Format {
    Format(r => WritePayload(t, r), (r, h) => WriteReceipt(t, r, h), v => ReadReceipt(t, v), hash)
  }

  lemma WrittenNormal(t: Times, r: Receipt, h: string)
    requires TimesOk(t)
    ensures Fits(WritePayload(t, r)) && Fits(WriteReceipt(t, r, h))
    ensures ReceiptValid(r) ==> ReadReceipt(t, Normal(WriteReceipt(t, r, h))) == Some((r, h))
  {
    ReceiptInverse(t, r, h);
    CanonicalIsNormal(WritePayload(t, r));
    CanonicalIsNormal(WriteReceipt(t, r, h));
    if ReceiptValid(r) {
      SmallNumbers(r);
    }
  }

  /** The payload says every field of the receipt. */
  lemma PayloadInjective(t: Times, r: Receipt, q: Receipt)
    requires TimesOk(t) && IsInt64(r.schemaVersion) && IsInt64(r.exitCode)
    requires IsInt64(q.schemaVersion) && IsInt64(q.exitCode) && WritePayload(t, r) == WritePayload(t, q)
    ensures r == q
  {
    KeysDistinct();
    RecordInverse(PAYLOAD_KEYS, PayloadValues(t, r));
    RecordInverse(PAYLOAD_KEYS, PayloadValues(t, q));
    ValuesInjective(t, r, q, "");
  }

  lemma ValuesInjective(t: Times, r: Receipt, q: Receipt, h: string)
    requires TimesOk(t) && IsInt64(r.schemaVersion) && IsInt64(r.exitCode)
    requires IsInt64(q.schemaVersion) && IsInt64(q.exitCode) && PayloadValues(t, r) == PayloadValues(t, q)
    ensures r == q
  {
    ReceiptValuesInverse(t, r, h);
    ReceiptValuesInverse(t, q, h);
  }

  lemma PrintedPayload(t: Times, r: Receipt, q: Receipt)
    requires TimesOk(t) && ReceiptValid(r) && ReceiptValid(q)
    requires Fits(WritePayload(t, r)) && Fits(WritePayload(t, q))
    requires Printed(WritePayload(t, r)) == Printed(WritePayload(t, q))
    ensures r == q
  {
    PrintedParses(WritePayload(t, r));
    PrintedParses(WritePayload(t, q));
    ReceiptInverse(t, r, "");
    ReceiptInverse(t, q, "");
    CanonicalIsNormal(WritePayload(t, r));
    CanonicalIsNormal(WritePayload(t, q));
    SmallNumbers(r);
    SmallNumbers(q);
    PayloadInjective(t, r, q);
  }

  lemma SmallNumbers(r: Receipt)
    requires ReceiptValid(r)
    ensures IsInt64(r.schemaVersion) && IsInt64(r.exitCode)
  {
  }

  lemma ReceiptFormatFaithful(t: Times, hash: Text -> string)
    requires TimesOk(t) && forall x :: IsHash(hash(x))
    ensures Faithful(ReceiptFormat(t, hash))
  {
    var f := ReceiptFormat(t, hash);
    forall r: Receipt
      ensures Fits(f.payload(r))
    {
      WrittenNormal(t, r, "");
    }
    forall r: Receipt, h: string
      ensures Fits(f.full(r, h))
      ensures ReceiptValid(r) ==> f.read(Normal(f.full(r, h))) == Some((r, h))
    {
      WrittenNormal(t, r, h);
    }
    forall r: Receipt, q: Receipt | ReceiptValid(r) && ReceiptValid(q) && Printed(f.payload(r)) == Printed(f.payload(q))
      ensures r == q
    {
      PrintedPayload(t, r, q);
    }
  }
}
