/** Evidence receipts: what `core/evidence/receipt.go` accepts. */
module Evidence {
  import opened Manifest
  import Utf8

  const RESULT_SUCCESS := "SUCCESS"
  const MAX_METHOD_ID: int := 128
  const MAX_PROBE_ID: int := 256
  const MAX_ARTIFACT: int := 32
  const MAX_NAME: int := 256

  datatype Artifact = Artifact(name: string, hash: string)

  /** A receipt without the hash the store adds. A nil artifact list is empty. */
  datatype Receipt = Receipt(
    schemaVersion: int, methodId: string, seatId: string, probe: string,
    candidateHash: string, manifestHash: string, resultClass: string, exitCode: int,
    artifacts: seq<Artifact>, timestamp: Instant)

  predicate HasControl(value: string) {
    exists i :: 0 <= i < |value| && (value[i] as int < 0x20 || value[i] as int == 0x7f)
  }

  /** The length of a string in bytes of UTF-8. */
  function ByteLength(value: string): nat {
    if value == "" then 0
    else
      var c := value[0] as int;
      (if c < 0x80 then 1 else if c < 0x800 then 2 else if c < 0x1_0000 then 3 else 4) + ByteLength(value[1..])
  }

  lemma {:induction false} ByteLengthIs(value: string)
    ensures ByteLength(value) == |Utf8.Encode(value)|
  {
    if value != "" {
      ByteLengthIs(value[1..]);
    }
  }

  /** `failure.CodeFor`; 0 is no code. */
  function CodeFor(kind: string): int {
    if kind == "USAGE_OR_SCHEMA" then 10
    else if kind == "POLICY_OR_TRANSITION" then 20
    else if kind == "WORKSPACE_DRIFT" then 30
    else if kind == "TOOLING_OR_ADAPTER" then 40
    else if kind == "CANDIDATE_OR_REVIEW" then 50
    else if kind == "INTEGRITY" then 60
    else if kind == "CONCURRENCY" then 70
    else 0
  }

  /** The failure classes and their exit codes are one to one. */
  lemma FailureCodes(kind: string)
    ensures IsFailureClass(kind) <==> CodeFor(kind) in {10, 20, 30, 40, 50, 60, 70}
    ensures !IsFailureClass(kind) ==> CodeFor(kind) == 0
    ensures CodeFor(kind) == 10 <==> kind == "USAGE_OR_SCHEMA"
    ensures CodeFor(kind) == 20 <==> kind == "POLICY_OR_TRANSITION"
    ensures CodeFor(kind) == 30 <==> kind == "WORKSPACE_DRIFT"
    ensures CodeFor(kind) == 40 <==> kind == "TOOLING_OR_ADAPTER"
    ensures CodeFor(kind) == 50 <==> kind == "CANDIDATE_OR_REVIEW"
    ensures CodeFor(kind) == 60 <==> kind == "INTEGRITY"
    ensures CodeFor(kind) == 70 <==> kind == "CONCURRENCY"
  {
  }

  predicate ArtifactValid(a: Artifact) {
    a.name != "" && ByteLength(a.name) <= MAX_NAME && !HasControl(a.name) && IsHash(a.hash)
  }

  /** `validateInput`. */
  predicate ReceiptValid(r: Receipt) {
    && r.schemaVersion == 1
    && r.methodId != "" && ByteLength(r.methodId) <= MAX_METHOD_ID && !HasControl(r.methodId)
    && r.probe != "" && ByteLength(r.probe) <= MAX_PROBE_ID && !HasControl(r.probe)
    && IsHash(r.candidateHash) && IsHash(r.manifestHash)
    && ByteLength(r.seatId) <= MAX_METHOD_ID && !HasControl(r.seatId)
    && |r.artifacts| <= MAX_ARTIFACT && (forall i :: 0 <= i < |r.artifacts| ==> ArtifactValid(r.artifacts[i]))
    && (if r.resultClass == RESULT_SUCCESS then r.exitCode == 0
        else CodeFor(r.resultClass) != 0 && r.exitCode == CodeFor(r.resultClass))
  }

  /** Installed receipts by hash. */
  type Receipts = map<string, Receipt>

  ghost predicate ReceiptsValid(s: Receipts) {
    forall h :: h in s ==> IsHash(h) && ReceiptValid(s[h])
  }

  /** Receipts are only ever added. */
  ghost predicate Grew(s: Receipts, t: Receipts) {
    forall h :: h in s ==> h in t && t[h] == s[h]
  }
}
