/** Readiness: the loops of `core/policy/readiness.go` and the order-free
    specification they decide. */
module Policy {
  import opened Wrappers
  import opened Order
  import opened Manifest
  import opened Evidence
  import L = Lifecycle

  datatype Fingerprint = Fingerprint(
    base: string, head: string, tree: string, diff: string, manifestHash: string, equivalent: string)

  datatype Reason = Independent | ReviewerFamily | ReviewerSeat

  datatype Denial =
    | ReadinessLifecycle | RequiredEvidence | DuplicateRequired | DuplicateName | LoadFailed | EvidenceBinding
    | ReviewEvidence | RequiredMissing | ReadyEvidence | CandidateDrift | NotIndependent(reason: Reason)
    | ReviewBindingDenied | EvidenceDiffers | VerdictNotPass

  datatype ReadyRecord = ReadyRecord(candidate: string, manifestHash: string, evidenceHashes: seq<string>)

  // ---------- The specification ----------

  function Hashes(evidence: seq<EvidenceReference>): (r: seq<string>)
    ensures |r| == |evidence| && forall i :: 0 <= i < |r| ==> r[i] == evidence[i].hash
  {
    seq(|evidence|, i requires 0 <= i < |evidence| => evidence[i].hash)
  }

  function Names(evidence: seq<EvidenceReference>): (r: seq<string>)
    ensures |r| == |evidence| && forall i :: 0 <= i < |r| ==> r[i] == evidence[i].name
  {
    seq(|evidence|, i requires 0 <= i < |evidence| => evidence[i].name)
  }

  function Required(m: Manifest): seq<string> {
    if m.dispatch.requiredChecks.Some? then m.dispatch.requiredChecks.value else []
  }

  /** A receipt satisfies an evidence reference of a candidate and a dispatch. */
  predicate Bound(receipt: Receipt, name: string, candidate: string, dispatchHash: string) {
    && receipt.methodId == name && receipt.candidateHash == candidate && receipt.manifestHash == dispatchHash
    && receipt.resultClass == RESULT_SUCCESS && receipt.exitCode == 0
  }

  predicate Backed(ref: EvidenceReference, candidate: string, dispatchHash: string, loader: Receipts) {
    ref.hash in loader && Bound(loader[ref.hash], ref.name, candidate, dispatchHash)
  }

  predicate RequiredListed(required: seq<string>) {
    required != [] && "" !in required && Distinct(required)
  }

  /** Names unique, every receipt bound and successful, every required check covered. */
  ghost predicate EvidenceVerified(m: Manifest, loader: Receipts) {
    && m.freeze.Some? && RequiredListed(Required(m))
    && Distinct(Names(m.evidence)) && IsHashSet(Hashes(m.evidence))
    && (forall i :: 0 <= i < |m.evidence| ==> Backed(m.evidence[i], m.freeze.value.candidate, m.dispatchHash, loader))
    && (forall name :: name in Required(m) ==> name in Names(m.evidence))
  }

  function IndependenceReason(writerFamily: string, writerSeat: string, family: string, seat: string): (r: Reason)
    ensures r == Independent <==>
            family != "" && seat != "" && writerFamily != "" && writerSeat != ""
            && family != writerFamily && seat != writerSeat
  {
    if writerFamily == "" || family == "" || writerFamily == family then ReviewerFamily
    else if writerSeat == "" || seat == "" || writerSeat == seat then ReviewerSeat
    else Independent
  }

  function FrozenFingerprint(m: Manifest): Fingerprint {
    match m.freeze
    case None => Fingerprint("", "", "", "", "", "")
    case Some(f) => Fingerprint(f.base, f.head, f.tree, f.diff, m.dispatchHash, f.candidate)
  }

  predicate Drifted(m: Manifest, current: Fingerprint) {
    FrozenFingerprint(m) != current
  }

  predicate ReviewBound(m: Manifest) {
    m.review.Some? && m.freeze.Some? &&
    var r := m.review.value;
    && r.reviewer != "" && r.family != "" && r.seatId != "" && r.verdict in {"PASS", "FAIL"}
    && r.fingerprint != "" && IsHash(r.fingerprint) && IsHash(m.freeze.value.candidate) && IsHash(m.dispatchHash)
    && r.fingerprint == m.freeze.value.candidate && IsHashSet(r.evidenceHashes)
  }

  predicate SameMembers(a: seq<string>, b: seq<string>) {
    (forall i :: 0 <= i < |a| ==> a[i] in b) && (forall i :: 0 <= i < |b| ==> b[i] in a)
  }

  predicate ReviewIndependent(m: Manifest)
    requires m.review.Some?
  {
    var d, r := m.dispatch, m.review.value;
    IndependenceReason(d.family, d.seatId, r.family, r.seatId) == Independent
  }

  /** When a lane may become READY. */
  ghost predicate Approved(m: Manifest, current: Fingerprint, loader: Receipts) {
    && m.state == L.Reviewed && ReviewBound(m) && EvidenceVerified(m, loader)
    && !Drifted(m, current) && ReviewIndependent(m) && m.review.value.verdict == "PASS"
    && SameMembers(Hashes(m.evidence), m.review.value.evidenceHashes)
  }

  // ---------- The loops ----------

  method ValidHashSet(values: seq<string>) returns (ok: bool)
    ensures ok <==> IsHashSet(values)
  {
    if |values| == 0 {
      return false;
    }
    var seen: set<string> := {};
    var i := 0;
    while i < |values|
      invariant 0 <= i <= |values|
      invariant seen == set j | 0 <= j < i :: values[j]
      invariant (forall j :: 0 <= j < i ==> IsHash(values[j])) && Distinct(values[..i])
    {
      var value := values[i];
      if !IsHash(value) {
        return false;
      }
      if value in seen {
        var j :| 0 <= j < i && values[j] == value;
        assert !Distinct(values);
        return false;
      }
      seen := seen + {value};
      i := i + 1;
    }
    assert values[..i] == values;
    return true;
  }

  /** Sort and compare, as written. */
  method EvidenceEqual(left: seq<string>, right: seq<string>) returns (equal: bool)
    ensures equal <==> IsHashSet(left) && IsHashSet(right) && SameMembers(left, right)
  {
    var okLeft := ValidHashSet(left);
    var okRight := ValidHashSet(right);
    if !okLeft || !okRight {
      return false;
    }
    SortedAgree(left, right);
    if |left| != |right| {
      return false;
    }
    SortedLength(left);
    SortedLength(right);
    equal := Pointwise(Sort(left), Sort(right));
  }

  method Pointwise(a: seq<string>, b: seq<string>) returns (equal: bool)
    requires |a| == |b|
    ensures equal <==> a == b
  {
    var i := 0;
    while i < |a|
      invariant 0 <= i <= |a| && forall j :: 0 <= j < i ==> a[j] == b[j]
    {
      if a[i] != b[i] {
        return false;
      }
      i := i + 1;
    }
    return true;
  }

  lemma SortedLength(a: seq<string>)
    ensures |Sort(a)| == |a|
  {
    SortCorrect(a);
    SameLength(a, Sort(a));
  }

  lemma SameLength<T>(a: seq<T>, b: seq<T>)
    requires multiset(a) == multiset(b)
    ensures |a| == |b|
  {
    assert |multiset(a)| == |a| && |multiset(b)| == |b|;
  }

  /** Without repetition, sorting is equal exactly for the same members. */
  lemma SortedAgree(a: seq<string>, b: seq<string>)
    requires Distinct(a) && Distinct(b)
    ensures Sort(a) == Sort(b) <==> SameMembers(a, b)
    ensures Sort(a) == Sort(b) ==> |a| == |b|
  {
    SortCorrect(a);
    SortCorrect(b);
    if SameMembers(a, b) {
      DistinctMultiset(a, b);
      SortedUnique(Sort(a), Sort(b));
    }
    if Sort(a) == Sort(b) {
      SameLength(a, b);
      MultisetDistinct(a, b);
    }
  }

  /** The first loop of `VerifyEvidence`: the table of required checks. */
  method RequiredTable(names: seq<string>) returns (table: Option<map<string, bool>>)
    ensures table.Some? <==> "" !in names && Distinct(names)
    ensures table.Some? ==> forall name :: name in table.value <==> name in names
    ensures table.Some? ==> forall name :: name in table.value ==> !table.value[name]
  {
    var required: map<string, bool> := map[];
    var i := 0;
    while i < |names|
      invariant 0 <= i <= |names| && "" !in names[..i] && Distinct(names[..i])
      invariant forall name :: name in required <==> name in names[..i]
      invariant forall name :: name in required ==> !required[name]
    {
      var name := names[i];
      if name == "" {
        return None;
      }
      if name in required {
        var j :| 0 <= j < i && names[j] == name;
        assert !Distinct(names);
        return None;
      }
      required := required[name := false];
      assert names[..i + 1] == names[..i] + [name];
      i := i + 1;
    }
    assert names[..i] == names;
    return Some(required);
  }

  /** The evidence up to `i` has passed the checks of the second loop. */
  ghost predicate PassedTo(
      evidence: seq<EvidenceReference>, i: nat, candidate: string, dispatchHash: string, loader: Receipts)
    requires i <= |evidence|
  {
    && Distinct(Names(evidence)[..i])
    && forall j :: 0 <= j < i ==> Backed(evidence[j], candidate, dispatchHash, loader)
  }

  lemma PassedNext(evidence: seq<EvidenceReference>, i: nat, candidate: string, dispatchHash: string, loader: Receipts)
    requires i < |evidence| && PassedTo(evidence, i, candidate, dispatchHash, loader)
    ensures PassedTo(evidence, i + 1, candidate, dispatchHash, loader) <==>
            evidence[i].name !in Names(evidence)[..i] && Backed(evidence[i], candidate, dispatchHash, loader)
  {
    var names := Names(evidence);
    assert names[..i + 1] == names[..i] + [names[i]];
    if evidence[i].name in names[..i] {
      var j :| 0 <= j < i && names[..i][j] == names[i];
      assert names[..i + 1][j] == names[..i + 1][i];
    }
  }

  lemma {:induction false} PassedEarlier(evidence: seq<EvidenceReference>, i: nat, k: nat, candidate: string,
                                         dispatchHash: string, loader: Receipts)
    requires i <= k <= |evidence| && PassedTo(evidence, k, candidate, dispatchHash, loader)
    ensures PassedTo(evidence, i, candidate, dispatchHash, loader)
  {
    assert Names(evidence)[..i] == Names(evidence)[..k][..i];
  }

  /** The second loop: every reference is new, loads, and binds; the checks met so
      far are marked. */
  method CheckReferences(evidence: seq<EvidenceReference>, table: map<string, bool>, candidate: string,
                         dispatchHash: string, loader: Receipts)
    returns (r: Result<map<string, bool>, Denial>)
    ensures r.Success? <==> PassedTo(evidence, |evidence|, candidate, dispatchHash, loader)
    ensures r.Success? ==> r.value.Keys == table.Keys
    ensures r.Success? ==>
              forall name :: name in table ==> (r.value[name] <==> table[name] || name in Names(evidence))
  {
    var required := table;
    var seenNames: set<string> := {};
    var i := 0;
    while i < |evidence|
      invariant 0 <= i <= |evidence| && PassedTo(evidence, i, candidate, dispatchHash, loader)
      invariant forall name :: name in seenNames <==> name in Names(evidence)[..i]
      invariant required.Keys == table.Keys
      invariant forall name :: name in table ==> (required[name] <==> table[name] || name in Names(evidence)[..i])
    {
      var ref := evidence[i];
      PassedNext(evidence, i, candidate, dispatchHash, loader);
      if PassedTo(evidence, |evidence|, candidate, dispatchHash, loader) {
        PassedEarlier(evidence, i + 1, |evidence|, candidate, dispatchHash, loader);
      }
      if ref.name in seenNames {
        return Failure(DuplicateName);
      }
      seenNames := seenNames + {ref.name};
      if ref.hash !in loader {
        return Failure(LoadFailed);
      }
      var receipt := loader[ref.hash];
      if receipt.methodId != ref.name || receipt.candidateHash != candidate || receipt.manifestHash != dispatchHash
         || receipt.resultClass != RESULT_SUCCESS || receipt.exitCode != 0 {
        return Failure(EvidenceBinding);
      }
      if ref.name in required {
        required := required[ref.name := true];
      }
      assert Names(evidence)[..i + 1] == Names(evidence)[..i] + [ref.name];
      i := i + 1;
    }
    assert Names(evidence)[..i] == Names(evidence);
    return Success(required);
  }

  /** `VerifyEvidence`: the loops decide the order-free specification. */
  method VerifyEvidence(m: Manifest, loader: Receipts) returns (r: Result<seq<string>, Denial>)
    ensures r.Success? <==> EvidenceVerified(m, loader)
    ensures r.Success? ==> r.value == Hashes(m.evidence)
  {
    if m.freeze.None? || |Required(m)| == 0 {
      return Failure(RequiredEvidence);
    }
    var table := RequiredTable(Required(m));
    if table.None? {
      return Failure(DuplicateRequired);
    }
    var checked := CheckReferences(m.evidence, table.value, m.freeze.value.candidate, m.dispatchHash, loader);
    assert Names(m.evidence)[..|m.evidence|] == Names(m.evidence);
    if checked.Failure? {
      return Failure(checked.error);
    }
    var valid := ValidHashSet(Hashes(m.evidence));
    if !valid {
      return Failure(ReviewEvidence);
    }
    if name :| name in checked.value && !checked.value[name] {
      return Failure(RequiredMissing);
    }
    return Success(Hashes(m.evidence));
  }

  /** `Evaluate`: succeeds exactly when the lane is approved. */
  method Evaluate(m: Manifest, current: Fingerprint, loader: Receipts) returns (r: Result<ReadyRecord, Denial>)
    ensures r.Success? <==> Approved(m, current, loader)
    ensures r.Success? ==>
              r.value == ReadyRecord(current.equivalent, m.dispatchHash, Sort(m.review.value.evidenceHashes))
  {
    if m.state != L.Reviewed || m.freeze.None? || m.review.None? {
      return Failure(ReadinessLifecycle);
    }
    var review := m.review.value;
    var verified := VerifyEvidence(m, loader);
    if verified.Failure? {
      return Failure(verified.error);
    }
    var valid := ValidHashSet(review.evidenceHashes);
    if !valid {
      return Failure(ReadyEvidence);
    }
    if Drifted(m, current) {
      return Failure(CandidateDrift);
    }
    var reason := IndependenceReason(m.dispatch.family, m.dispatch.seatId, review.family, review.seatId);
    if reason != Independent {
      return Failure(NotIndependent(reason));
    }
    if review.verdict == "" || !ReviewBound(m) {
      return Failure(ReviewBindingDenied);
    }
    var equal := EvidenceEqual(verified.value, review.evidenceHashes);
    if !equal {
      return Failure(EvidenceDiffers);
    }
    if review.verdict != "PASS" {
      return Failure(VerdictNotPass);
    }
    return Success(ReadyRecord(current.equivalent, m.dispatchHash, Sort(review.evidenceHashes)));
  }

  // ---------- Order does not matter ----------

  predicate Permuted<T(==)>(a: seq<T>, b: seq<T>) {
    multiset(a) == multiset(b)
  }

  /** The same manifest with its evidence, required checks and cited hashes listed
      in other orders. */
  predicate Reordered(m: Manifest, n: Manifest) {
    && m.review.Some? && n.review.Some?
    && Permuted(m.evidence, n.evidence) && Permuted(Required(m), Required(n))
    && Permuted(m.review.value.evidenceHashes, n.review.value.evidenceHashes)
    && n == m.(evidence := n.evidence,
               dispatch := m.dispatch.(requiredChecks := n.dispatch.requiredChecks),
               review := Some(m.review.value.(evidenceHashes := n.review.value.evidenceHashes)))
  }

  lemma PermutedMembers<T>(a: seq<T>, b: seq<T>, x: T)
    requires Permuted(a, b)
    ensures x in a <==> x in b
  {
    assert x in a <==> x in multiset(a);
    assert x in b <==> x in multiset(b);
  }

  lemma {:induction false} PermutedFields(a: seq<EvidenceReference>, b: seq<EvidenceReference>)
    requires Permuted(a, b)
    ensures Permuted(Names(a), Names(b)) && Permuted(Hashes(a), Hashes(b))
    decreases |a|
  {
    if a == [] {
      assert |multiset(b)| == |b|;
    } else {
      PermutedMembers(a, b, a[0]);
      var j :| 0 <= j < |b| && b[j] == a[0];
      var rest := b[..j] + b[j + 1..];
      RestPermuted(a, b, j, rest);
      PermutedFields(a[1..], rest);
      FieldsTaken(a, 0, a[1..]);
      FieldsTaken(b, j, rest);
    }
  }

  lemma RestPermuted<T>(a: seq<T>, b: seq<T>, j: nat, rest: seq<T>)
    requires Permuted(a, b) && a != [] && j < |b| && b[j] == a[0] && rest == b[..j] + b[j + 1..]
    ensures Permuted(a[1..], rest)
  {
    Taken(a, a[1..], 0);
    Taken(b, rest, j);
    assert multiset(a[1..]) == multiset(a) - multiset{a[0]};
    assert multiset(rest) == multiset(b) - multiset{a[0]};
  }

  lemma FieldsTaken(b: seq<EvidenceReference>, j: nat, rest: seq<EvidenceReference>)
    requires j < |b| && rest == b[..j] + b[j + 1..]
    ensures multiset(Names(b)) == multiset{b[j].name} + multiset(Names(rest))
    ensures multiset(Hashes(b)) == multiset{b[j].hash} + multiset(Hashes(rest))
  {
    Taken(Names(b), Names(rest), j);
    Taken(Hashes(b), Hashes(rest), j);
  }

  lemma Taken<T>(s: seq<T>, rest: seq<T>, j: nat)
    requires j < |s| && rest == s[..j] + s[j + 1..]
    ensures multiset(s) == multiset{s[j]} + multiset(rest)
  {
    assert s == s[..j] + [s[j]] + s[j + 1..];
  }

  lemma PermutedDistinct(a: seq<string>, b: seq<string>)
    requires Permuted(a, b)
    ensures Distinct(a) <==> Distinct(b)
  {
    if Distinct(a) {
      MultisetDistinct(a, b);
    }
    if Distinct(b) {
      MultisetDistinct(b, a);
    }
  }

  lemma PermutedHashSet(a: seq<string>, b: seq<string>)
    requires Permuted(a, b) && IsHashSet(a)
    ensures IsHashSet(b)
  {
    PermutedDistinct(a, b);
    PermutedMembers(a, b, a[0]);
    forall i | 0 <= i < |b|
      ensures IsHash(b[i])
    {
      PermutedMembers(a, b, b[i]);
    }
  }

  lemma PermutedSort(a: seq<string>, b: seq<string>)
    requires Permuted(a, b)
    ensures Sort(a) == Sort(b)
  {
    SortCorrect(a);
    SortCorrect(b);
    SortedUnique(Sort(a), Sort(b));
  }

  lemma ReorderedVerified(m: Manifest, n: Manifest, loader: Receipts)
    requires Reordered(m, n) && EvidenceVerified(m, loader)
    ensures EvidenceVerified(n, loader)
  {
    PermutedFields(m.evidence, n.evidence);
    PermutedDistinct(Names(m.evidence), Names(n.evidence));
    PermutedHashSet(Hashes(m.evidence), Hashes(n.evidence));
    PermutedRequired(Required(m), Required(n));
    forall i | 0 <= i < |n.evidence|
      ensures Backed(n.evidence[i], n.freeze.value.candidate, n.dispatchHash, loader)
    {
      PermutedMembers(m.evidence, n.evidence, n.evidence[i]);
    }
    forall name | name in Required(n)
      ensures name in Names(n.evidence)
    {
      PermutedMembers(Required(m), Required(n), name);
      PermutedMembers(Names(m.evidence), Names(n.evidence), name);
    }
  }

  lemma PermutedRequired(a: seq<string>, b: seq<string>)
    requires Permuted(a, b) && RequiredListed(a)
    ensures RequiredListed(b)
  {
    PermutedDistinct(a, b);
    PermutedMembers(a, b, "");
    PermutedMembers(a, b, a[0]);
  }

  lemma ReorderedApproved(m: Manifest, n: Manifest, current: Fingerprint, loader: Receipts)
    requires Reordered(m, n) && Approved(m, current, loader)
    ensures Approved(n, current, loader)
  {
    ReorderedVerified(m, n, loader);
    var a, b := m.review.value.evidenceHashes, n.review.value.evidenceHashes;
    PermutedHashSet(a, b);
    PermutedFields(m.evidence, n.evidence);
    forall x
      ensures x in Hashes(m.evidence) <==> x in Hashes(n.evidence)
      ensures x in a <==> x in b
    {
      PermutedMembers(Hashes(m.evidence), Hashes(n.evidence), x);
      PermutedMembers(a, b, x);
    }
  }

  /** Permuting evidence, required checks or cited hashes changes neither the
      acceptance nor the record. */
  lemma OrderFree(m: Manifest, n: Manifest, current: Fingerprint, loader: Receipts)
    requires Reordered(m, n)
    ensures Approved(m, current, loader) <==> Approved(n, current, loader)
    ensures Sort(m.review.value.evidenceHashes) == Sort(n.review.value.evidenceHashes)
  {
    if Approved(m, current, loader) {
      ReorderedApproved(m, n, current, loader);
    }
    if Approved(n, current, loader) {
      assert Reordered(n, m);
      ReorderedApproved(n, m, current, loader);
    }
    PermutedSort(m.review.value.evidenceHashes, n.review.value.evidenceHashes);
  }

  // ---------- The review gate ----------

  /** The inputs of `review record` that are not in the lane. */
  datatype ReviewInput = ReviewInput(
    reviewer: string, family: string, seatId: string, verdict: string, fingerprint: string, at: Instant)

  /** `parseVerdict`, on a text already in lower case. */
  function ParseVerdict(text: string): Option<string> {
    if text in {"pass", "approve", "approved"} then Some("PASS")
    else if text in {"fail", "reject", "rejected"} then Some("FAIL")
    else None
  }

  /** The checks of `runReviewRecord` on the lane it loaded. */
  ghost predicate ReviewGate(m: Manifest, input: ReviewInput, current: Fingerprint, loader: Receipts) {
    && m.state == L.Frozen && m.freeze.Some?
    && input.reviewer != ""
    && IndependenceReason(m.dispatch.family, m.dispatch.seatId, input.family, input.seatId) == Independent
    && !Drifted(m, current)
    && (input.fingerprint == "" || input.fingerprint == m.freeze.value.candidate)
    && EvidenceVerified(m, loader) && ParseVerdict(input.verdict).Some?
  }

  /** The record it hands to the store. */
  function ReviewOf(m: Manifest, input: ReviewInput): ReviewRecord
    requires m.freeze.Some? && ParseVerdict(input.verdict).Some?
  {
    ReviewRecord(input.reviewer, input.family, input.seatId, ParseVerdict(input.verdict).value,
                 m.freeze.value.candidate, Sort(Hashes(m.evidence)), input.at)
  }

  /** The checks as written, with the record they end in. */
  method ReviewChecks(m: Manifest, input: ReviewInput, current: Fingerprint, loader: Receipts)
    returns (r: Result<ReviewRecord, Denial>)
    ensures r.Success? <==> ReviewGate(m, input, current, loader)
    ensures r.Success? ==> r.value == ReviewOf(m, input)
  {
    if m.state != L.Frozen || m.freeze.None? {
      return Failure(ReadinessLifecycle);
    }
    if input.reviewer == "" || input.family == "" || input.seatId == "" {
      return Failure(ReviewBindingDenied);
    }
    var reason := IndependenceReason(m.dispatch.family, m.dispatch.seatId, input.family, input.seatId);
    if reason != Independent {
      return Failure(NotIndependent(reason));
    }
    if Drifted(m, current) {
      return Failure(CandidateDrift);
    }
    var fingerprint := if input.fingerprint == "" then m.freeze.value.candidate else input.fingerprint;
    if fingerprint != m.freeze.value.candidate {
      return Failure(ReviewBindingDenied);
    }
    var hashes := VerifyEvidence(m, loader);
    if hashes.Failure? {
      return Failure(hashes.error);
    }
    var verdict := ParseVerdict(input.verdict);
    if verdict.None? {
      return Failure(VerdictNotPass);
    }
    return Success(ReviewRecord(input.reviewer, input.family, input.seatId, verdict.value, fingerprint,
                                Sort(hashes.value), input.at));
  }

  lemma SortKeepsMembers(a: seq<string>)
    ensures SameMembers(a, Sort(a)) && (IsHashSet(a) ==> IsHashSet(Sort(a)))
  {
    SortCorrect(a);
    forall x
      ensures x in a <==> x in Sort(a)
    {
      PermutedMembers(a, Sort(a), x);
    }
    if IsHashSet(a) {
      PermutedHashSet(a, Sort(a));
    }
  }

  /** A verified lane binds real hashes, because its receipts do. */
  lemma VerifiedHashes(m: Manifest, loader: Receipts)
    requires EvidenceVerified(m, loader) && ReceiptsValid(loader)
    ensures IsHash(m.freeze.value.candidate) && IsHash(m.dispatchHash)
  {
    assert Hashes(m.evidence) != [];
    assert Backed(m.evidence[0], m.freeze.value.candidate, m.dispatchHash, loader);
  }

  /** Verification depends on the lane's fields and on receipts that stay. */
  lemma GrewVerified(m: Manifest, seen: Manifest, loader: Receipts, later: Receipts)
    requires EvidenceVerified(seen, loader) && Grew(loader, later)
    requires m.evidence == seen.evidence && m.freeze == seen.freeze
    requires m.dispatch == seen.dispatch && m.dispatchHash == seen.dispatchHash
    ensures EvidenceVerified(m, later)
  {
    forall i | 0 <= i < |m.evidence|
      ensures Backed(m.evidence[i], m.freeze.value.candidate, m.dispatchHash, later)
    {
      assert Backed(seen.evidence[i], seen.freeze.value.candidate, seen.dispatchHash, loader);
    }
  }
}
