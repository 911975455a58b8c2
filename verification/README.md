# Provehito: verified model

Provehito keeps one lane of work in one canonical JSON file, and evidence in
content-addressed receipts. Several command processes change these files at once
and may fail or die at any step. This project models that behaviour in Dafny and
proves what it promises.

- **Canonical JSON.** `Decimal`, `CanonNumber` and `CanonInt64` treat number lexemes of
  section 6 of RFC 8259: the int64 code with its wrapping arithmetic is proved against
  an unbounded reference, and the reference against rational values; `CanonLexeme` says
  which texts the lexemes are and what each denotes, from the pieces they are put together
  from. `JsonDecoder`, `CanonParse` and `CanonGrammar` treat the parser on a mutable decoder
  and the texts it accepts; `Order`, `CanonValue` and `CanonBytes` the printer and the
  canonical form. `Utf8` shows that the order of keys is the byte order of their encodings,
  `CanonOrder` what the canonical texts are, said of the texts themselves.
- **The lane.** `Lifecycle` is the state machine, `Manifest` the record with its
  validation and immutability rules, `Policy` the readiness and review gates,
  `LaneStore` the store as one caller sees it, `LaneStoreSteps` the same as steps of the protocol. `JsonRecord`, `ManifestJson` and `LaneJson`
  give the JSON form of a manifest field by field, `ManifestCodec` writing and reading back,
  `JsonNames` the names on disk.
- **The lane under concurrency.** `LaneSystem` is a transition system: each command
  handler is a sequence of steps (load, check, load again without the lock, take the
  lock, check again, scan, stage, install, sync), with an arbitrary failure or death
  between any two, and any number of processes. `LaneLog` and `LaneHistory` treat the
  sequence of installed contents, `LaneMeaning` what the records mean, `LaneInvariant`
  and `LaneSteps` the inductive invariant, `LaneTheorems` the results about runs.
  `LaneOrigins` ties every commit to the command of its owner, `LaneOutcomes` says what
  commands do to the lane and what READY means. `LaneProgress`, `LaneSolo`, `LaneAdding` and
  `LaneOpening` say exactly when each command left alone succeeds.
- **The lease.** `LeaseSystem` and `LeaseTheorems` treat the one-writer lease and its
  agent children under death at every step, `LeaseProgress` an agent left alone; `Lease` the
  lease object itself.
- **Receipts.** `Evidence`, `EvidenceStore`, `EvidenceProgress` and `ReceiptJson`: validation,
  concurrent `Add`, an `Add` left alone, and the JSON form of a receipt.
- **Loops.** `Supervisor` (output budget, dispatch limits), `GitStatus` and
  `GitSubmodules` (output of git), `ReleaseCheck` (archive checker), `Paths`
  (separation of state and workspace).

Conventions. A JSON text is the sequence of its lexical tokens. A content hash of a
manifest stands for the content it is of; `ManifestCodec.EncodeInjective` shows that
equal bytes mean equal content, and the hash itself is taken to be injective. The hash
of a dispatch and the hash of a receipt are arbitrary functions, and nothing is assumed
of them beyond the shape of their values. Code whose point is the interleaving of
processes is a transition system over values, because its object is the file system
and not an object in memory; `LaneStore` and `Lease` give the same operations in their
imperative form. `LaneStoreSteps` proves that the steps, driven by given outcomes of the
file operations, leave the file, residue and result that the contracts of `LaneStore` state;
`Lease.AcquireIsSteps` and `Lease.ReleaseIsSteps` do the same for the lease.

Where the code does something other than its documentation or names suggest, the code is followed:

- An operation can return an error although the new content is installed: the sync of
  the directory comes after the rename. `LaneStore.LaneFile.Update` states exactly when.
- `Apply` returns the manifest it handed to the store, whose `updatedAt` is older than the
  stored one. `LaneStore.LaneFile.Apply` returns both.
- `ValidateUpdate` protects freeze and review records by lifecycle order, which leaves out
  ABANDONED and INCIDENT: `Manifest.FreezeProtectedIff`, `Manifest.ReviewProtectedIff` and
  `Manifest.DispatchProtectedIff` give the exact conditions. Runs through the named changes
  keep the records all the same (`LaneHistory.HistoryEvolves`).
- Zero with an exponent outside int64 is refused (`CanonNumber.CanonicalMeaning`).
- `DetectAbandoned` can report a lease whose holder released between its two looks
  (`LeaseTheorems.FalseAlarm`, `LeaseTheorems.DetectExact`).
- Writes have no size limit, reads do (`ManifestCodec.LoadAfterStore`).

## Model

| member | source | states |
|---|---|---|
| CanonInt64.CanonicalNumber | core/canon/json.go:162-235 | the int64 code, wrapping included, accepts a lexeme shorter than 2^62 exactly when the unbounded reference does, with the same text, whose length is the length computed beforehand |
| CanonInt64.GuardsExact | core/canon/json.go:187-235 | the overflow guards accept exactly the expansions of at most 4096 bytes; then neither the decimal point nor the computed length has wrapped, and the computed length is the true one |
| CanonInt64.HugeRejected | core/canon/json.go:170-174 | a lexeme whose exponent is no int64 has no short expansion, so refusing it early loses nothing but zero |
| CanonInt64.CutNumber | core/canon/json.go:163-182 | the searches cut a text at sign, exponent mark and point as the grammar does |
| CanonNumber.CanonicalMeaning | core/canon/json.go:162-235 | the output of a lexeme is the one plain decimal of the same rational value within 4096 bytes; zero needs an int64 exponent |
| CanonNumber.CanonicalUnique | core/canon/json.go:162-218 | two accepted lexemes give the same text exactly when they denote the same rational, -0 and 0 included |
| CanonNumber.CanonicalFixed | core/canon/json.go:162-218 | every output is a lexeme that is mapped to itself |
| CanonNumber.PlainUnique | core/canon/json.go:201-217 | there is one plain decimal for each rational |
| CanonLexeme.LexemeIff | core/canon/json.go:162-182 | the lexemes are exactly the texts put together from sign, integer, fraction, mark, exponent sign and digits as section 6 of RFC 8259 says |
| CanonLexeme.LexemeValue | core/canon/json.go:170-189 | such a text denotes its digits read as one number, times ten to the signed exponent less the places after the point |
| CanonLexeme.AnswerIff | core/canon/json.go:162-235 | in terms of the pieces alone: a text is the answer exactly when it is plain, has at most 4096 bytes and denotes the same rational; zero needs an int64 exponent |
| CanonLexeme.AnswerPieces | core/canon/json.go:200-218 | every answer is put together from plain pieces |
| CanonLexeme.ScaledUp | core/canon/json.go:187-189 | scaling up multiplies by a power of ten |
| CanonLexeme.ScaledDown | core/canon/json.go:187-189 | scaling down divides by one |
| CanonLexeme.DigitsValue | core/canon/json.go:184-185 | digit strings spell numbers to the base ten |
| JsonDecoder.Decoder.NextToken | core/canon/json.go:52-64 | one token of the mutable decoder, commas and colons checked and skipped, as the token function says |
| CanonParse.ParseFrom | core/canon/json.go:52-105 | the recursive descent on the mutable decoder computes the parse of the state it starts from |
| CanonParse.ParseObject | core/canon/json.go:60-85 | the object loop, with its set of seen keys, computes the member parse |
| CanonParse.ParseArray | core/canon/json.go:86-98 | the array loop computes the item parse |
| CanonGrammar.ParseIff | core/canon/json.go:21-34 | a text is accepted as a value exactly when some tree without repeated keys spells it and denotes that value |
| CanonGrammar.ParseOfSpell | core/canon/json.go:72-75 | a well-formed text is refused as a duplicate key exactly when a key repeats in some object at any depth |
| CanonGrammar.ParseTrailing | core/canon/json.go:28-34 | a second value, or anything else after the value, is refused |
| CanonValue.NormalUnique | core/canon/json.go:107-160 | spelling every number canonically makes two values equal exactly when they are the same JSON value |
| CanonValue.NormalFixed | core/canon/json.go:107-160 | a value with canonical numbers is left alone |
| CanonValue.TreeMeans | core/canon/json.go:137-155 | the tree with sorted members has no repeated key and denotes the value it is made from |
| Order.SortOfKeys | core/canon/json.go:138-142 | sorting the keys gives one order whatever order the map is ranged over |
| Order.SortCorrect | core/canon/json.go:142 | the sort yields a sorted permutation |
| Utf8.OrderOfBytes | core/canon/json.go:138-142 | the order the keys are sorted by is the byte order of their UTF-8 encodings, as Go compares strings |
| Utf8.OrderOfPoints | core/canon/json.go:138-142 | the same on code points: the first difference decides, a prefix comes first |
| Utf8.EncodeInjective | core/canon/json.go:138-142 | no two strings have one encoding |
| CanonBytes.Keys | core/canon/json.go:138-142 | the key list is the sorted list of the map's keys |
| CanonBytes.WriteValue | core/canon/json.go:107-160 | appends exactly the canonical text of the value, or fails exactly when some number is over the limit |
| CanonBytes.WriteAllItems | core/canon/json.go:128-135 | the item loop appends the items with commas between them, or fails exactly when one does not fit |
| CanonBytes.WriteAllFields | core/canon/json.go:144-154 | the member loop appends key, colon and value in key order, or fails exactly when one does not fit |
| CanonBytes.CanonicalBytes | core/canon/json.go:21-40 | the whole of `Bytes`: parse, nothing after it, print |
| CanonBytes.BytesAccepts | core/canon/json.go:21-40 | accepted are exactly the texts of one value without repeated keys and with numbers within the limit |
| CanonBytes.PrintedParses | core/canon/json.go:21-160 | parsing the printed text gives back the value with canonical numbers, which is the same JSON value |
| CanonBytes.BytesCanonical | core/canon/json.go:19-40 | canonical form: two accepted texts give the same bytes exactly when they denote the same value up to member order, number spelling and string escapes |
| CanonBytes.BytesFixed | core/canon/json.go:19-40 | the output keeps the value and is its own canonical form |
| CanonOrder.OutputOrdered | core/canon/json.go:107-160 | every output spells a tree whose keys strictly ascend in byte order in every object and whose numbers are canonical at every depth |
| CanonOrder.CanonicalTextIff | core/canon/json.go:19-40 | a text is left as it is exactly when it spells such a tree |
| Lifecycle.RunShape | core/lifecycle/transition.go:19-92 | the events of a run other than Block and Resume are a prefix of the chain of progress as long as the final rank, with at most one side exit at the end |
| Lifecycle.LegalEvents | core/lifecycle/transition.go:19-92 | exactly which events are legal: none at the end, the side exits always before it, Resume for a blocked lane, Block and the next link of the chain otherwise |
| Lifecycle.AtMostFive | core/lifecycle/transition.go:19-92 | a run from PLANNED has at most five events other than Block and Resume |
| Lifecycle.OrderTellsHistory | core/lifecycle/order.go:25-52 | off the side exits the AtOrAfter predicates hold exactly when the matching event has happened |
| Lifecycle.ReachableIffWellFormed | core/lifecycle/order.go:54-67 | runs from PLANNED reach exactly the snapshots that validation admits |
| Lifecycle.RankNeverFalls | core/lifecycle/order.go:6-23 | the rank, a blocked lane read as its predecessor, never falls along a run |
| Lifecycle.BlockThenResume | core/lifecycle/transition.go:76-94 | a block is followed only by Resume, Abandon or Incident, and Resume gives back the exact snapshot |
| Lifecycle.ResumeAfterBlock | core/lifecycle/transition.go:76-80 | Resume comes only right after Block |
| Lifecycle.TerminalAbsorbs | core/lifecycle/transition.go:87-91 | no event follows a terminal state |
| Manifest.ValidateIff | core/manifest/model.go:205-261 | the chain of refusals accepts exactly the valid manifests |
| Manifest.NamedStepPassesBoundaries | core/manifest/model.go:93-123 | a legal lifecycle step with its named change never meets an immutability boundary |
| Manifest.UpdateExact | core/manifest/store.go:71-105 | on the content it was made from, a named proposal is stored with a new timestamp exactly when its record is complete and fits |
| Manifest.UpdatedExact | core/manifest/store.go:88-100 | an update from any proposal stores it with creation time, new time and dispatch hash filled in, exactly when that is valid and the boundaries are kept |
| Manifest.CreatedExact | core/manifest/store.go:40-52 | a created lane has both times set to now and is otherwise the manifest given, with its dispatch hash |
| Manifest.HashText | core/failure/failure.go:149-159 | a hash is 64 lower-case digits to the base sixteen |
| Manifest.IdentityProtected | core/manifest/model.go:93-109 | in every state an update needs the hash of the content it replaces and keeps schema, lane and creation time |
| Manifest.FreezeProtectedIff | core/manifest/model.go:116-118 | the freeze record is protected against every update exactly from FROZEN on, which excludes ABANDONED and INCIDENT |
| Manifest.ReviewProtectedIff | core/manifest/model.go:119-121 | the review record is protected exactly from REVIEWED on |
| Manifest.DispatchProtectedIff | core/manifest/model.go:110-115 | the dispatch is protected exactly from ACTIVE on |
| LaneJson.LaneInverse | core/manifest/model.go:17-87 | reading the JSON form of a manifest, with left-out and null fields, gives the manifest back, and every number in it is canonical |
| LaneJson.ReadStorable | core/manifest/model.go:182-187 | whatever is read holds int64 numbers and states that are their text |
| ManifestCodec.LaneCodecFaithful | core/manifest/model.go:153-166 | the field-by-field encoding meets what the codec results ask for |
| ManifestCodec.DecodeIff | core/manifest/model.go:174-203 | reading accepts exactly the texts normalized valid manifests encode to: one accepted text for each |
| ManifestCodec.EncodeInjective | core/manifest/model.go:139-172 | no text encodes two manifests |
| ManifestCodec.LoadAfterStore | core/manifest/store.go:58-67 | a valid manifest loads again exactly when its text is at most one MiB |
| ManifestCodec.StoredLoads | core/manifest/store.go:29-105 | every content that Create or Update stores loads again, as it was stored, exactly when its text is at most one MiB |
| JsonNames.LaneNames | core/manifest/model.go:17-31 | a stored lane has each field under its own name, states by their names, records and lists exactly when there are any, and no other name |
| JsonNames.DispatchNames | core/manifest/model.go:34-50 | the dispatch has each field under its own name |
| JsonNames.FreezeNames | core/manifest/model.go:53-60 | so has the freeze record |
| JsonNames.ReviewNames | core/manifest/model.go:63-71 | so has the review record |
| JsonNames.EvidenceNames | core/manifest/model.go:74-77 | so has an evidence reference |
| JsonNames.FailureNames | core/manifest/model.go:80-85 | so has a failure |
| JsonNames.ReceiptNames | core/evidence/receipt.go:56-83 | the stored receipt and the text that is hashed name the same fields; the hash is in the first only |
| LaneStore.LaneFile.WriteAtomic | core/manifest/store.go:228-284 | the file becomes the new content exactly when there is no residue and staging and rename succeed; an error after the rename comes with the new content; which failures leave a temporary, and that no other residue changes |
| LaneStore.LaneFile.WriteExclusive | core/manifest/store.go:164-226 | the same for the exclusive link, which never replaces a file |
| LaneStore.LaneFile.Create | core/manifest/store.go:29-55 | creates exactly on an absent file with a valid manifest, releasing the lock on every path; the residue it leaves |
| LaneStore.LaneFile.Update | core/manifest/store.go:71-105 | replaces exactly the content whose hash was expected; reports an error with the new content installed exactly when only the sync failed; the residue it leaves |
| LaneStore.LaneFile.Apply | core/manifest/ops.go:43-84 | the stored content is the named change of the content before, and success reports it exactly |
| LaneStore.OutcomeExact | core/manifest/ops.go:86-103 | a named change is stored exactly when the prior hash is met, the event legal and the record fitting |
| LaneStoreSteps.UpdateIsSteps | core/manifest/store.go:71-105 | the steps of an update under the lock, driven by any outcomes of the file operations, leave the file, residue and result of the contract of `LaneFile.Update` |
| LaneStoreSteps.CreateIsSteps | core/manifest/store.go:29-55 | the same for a creation and `LaneFile.Create` |
| LaneStoreSteps.ApplyIsSteps | core/manifest/ops.go:43-84 | the same for load, proposal and update and `LaneFile.Apply` |
| Policy.ValidHashSet | core/policy/readiness.go:209-224 | the loop decides: nonempty, all hashes, no repetition |
| Policy.EvidenceEqual | core/policy/readiness.go:226-239 | sort and compare decides equality as sets of two valid hash sets |
| Policy.RequiredTable | core/policy/readiness.go:98-107 | the table is built exactly for distinct nonempty names, and has exactly those |
| Policy.CheckReferences | core/policy/readiness.go:111-130 | the loop decides: names unique, every receipt present, bound and successful; and marks exactly the covered checks |
| Policy.VerifyEvidence | core/policy/readiness.go:94-140 | the loops decide the order-free specification and return the evidence hashes |
| Policy.Evaluate | core/policy/readiness.go:55-88 | succeeds exactly when the lane is approved, with the sorted cited hashes |
| Policy.IndependenceReason | core/policy/readiness.go:145-153 | no reason is given exactly for nonempty, different families and seats |
| Policy.OrderFree | core/policy/readiness.go:55-140 | permuting evidence, required checks or cited hashes changes neither acceptance nor record |
| Policy.ReviewChecks | cmd/provehito/commands_review.go:67-98 | the checks of `review record` pass exactly at the review gate, and end in its record |
| Policy.VerifiedHashes | core/policy/readiness.go:122-125 | a verified lane binds a candidate and a dispatch that are real hashes |
| LaneHistory.HistoryEvolves | core/manifest/model.go:93-123 | between any two contents of a history: one dispatch, written records unchanged, evidence only appended |
| LaneHistory.WrittenOnce | core/manifest/ops.go:86-96 | no history writes the freeze record, or the review record, twice |
| LaneHistory.HistoryRuns | core/manifest/ops.go:51-55 | the lifecycle fields are those of a run of the state machine from PLANNED |
| LaneMeaning.CommitKeepsMeaning | cmd/provehito/commands_review.go:131-159 | a change decided on an older content of the history still leaves records that mean what their gates checked |
| LaneMeaning.ReviewCites | cmd/provehito/commands_review.go:89-103 | a recorded review cites, as a set, the prefix of the evidence its gate verified |
| LaneMeaning.FrozenOn | cmd/provehito/commands_freeze.go:31-36 | a lane frozen on a fingerprint has drifted exactly when the current fingerprint differs in any part |
| LaneMeaning.AddedIsAttested | cmd/provehito/commands_evidence.go:47-62 | the receipt a handler adds is bound to the lane it loaded, and the reference it goes on to append is attested there, with a new name and a new hash |
| LaneSteps.RunInv | core/manifest/store.go:71-105 | the invariant of lock, file, temporaries, receipts and every process holds after every interleaving |
| LaneTheorems.Linearizable | core/manifest/ops.go:39-64 | installs form one sequence, each the named change of the content just before it, and the file is the last |
| LaneTheorems.ExpectedHashMet | core/manifest/ops.go:26-37 | in every run the hash a caller expected is that of the content just before its commit, and a caller who had to give one did |
| LaneTheorems.OneCommitEach | core/manifest/ops.go:59-63 | a successful operation has exactly one commit, of the change it holds and with its result; none has two (`LaneOutcomes.SuccessIsCommit` ties the change to its command) |
| LaneTheorems.OnlyInstallChanges | core/manifest/store.go:268-271 | crash atomicity: only the rename or link changes the file, in one step, to the staged content |
| LaneTheorems.LaneEvolves | core/manifest/model.go:110-121 | from any moment of any run to any later one the lane evolves and no receipt changes |
| LaneTheorems.ScanSeesResidueOnly | core/manifest/store.go:234-243 | what the scan under the lock sees is residue of ended processes, never the temporary of a live writer |
| LaneTheorems.ResidueForever | core/manifest/store.go:234-243 | after a temporary is left behind the file never changes again |
| LaneTheorems.ReadyMeans | cmd/provehito/commands_review.go:131-159 | a lane that is READY, CLOSED or BLOCKED from READY has a PASS by an independent reviewer on the frozen candidate, citing exactly a verified prefix of the evidence |
| LaneTheorems.FailNeverReady | cmd/provehito/commands_review.go:110-119 | a lane reviewed FAIL never becomes READY |
| LaneTheorems.GateConsistency | core/policy/readiness.go:55-140 | in every run a lane in REVIEWED has a review, and readiness approves it exactly when the verdict is PASS, the candidate has not drifted and no evidence has been added to what the review verified |
| LaneTheorems.PassStaysApproved | cmd/provehito/commands_review.go:49-159 | from any moment of any run to any later one an approved lane in REVIEWED stays approved, with the same hashes, while evidence list and candidate stay |
| LaneTheorems.EvidenceAttested | cmd/provehito/commands_evidence.go:29-62 | in every run each reference on the lane, cited or not, has an installed receipt of its method bound to the frozen candidate and the dispatch |
| LaneTheorems.FileIsLifecycleRun | core/lifecycle/transition.go:19-92 | the stored state is always the state its events lead to |
| LaneOrigins.CommitCommand | cmd/provehito/commands_state.go:337-370 | in every run each commit is the change that the one command of its owner asks for: its event, expected hash and record, decided on a lane in the history before and on a world its check saw |
| LaneOutcomes.CommandEffect | core/manifest/ops.go:43-84 | in every run the content of a commit differs from the one before by what its command stands for, and by nothing else |
| LaneOutcomes.SuccessIsCommit | core/manifest/ops.go:59-63 | a command that reports success has made exactly the commit it asks for, with the content it returns |
| LaneOutcomes.ReviewedBy | cmd/provehito/commands_review.go:93-108 | in every run a review on the lane is what one `review record` said: reviewer, family, seat, time, and PASS or FAIL by its word |
| LaneOutcomes.ReadyByReviewer | cmd/provehito/commands_review.go:110-159 | no lane gets to READY but on the word pass, approve or approved of the reviewer in its record |
| LaneOutcomes.RejectedNeverReady | cmd/provehito/commands_review.go:110-119 | once a review entered as fail, reject or rejected is committed the lane is never READY |
| LaneOutcomes.ReadyOutright | core/policy/readiness.go:55-140 | in every run, in terms of the fields alone: READY means a PASS by another family and seat on the frozen candidate, citing in ascending order exactly evidence whose receipts succeed on it and cover every required check |
| LaneProgress.AloneEnds | core/manifest/ops.go:43-84 | an operation at any stage has a run of its own steps, without error or death, that ends it, unless another process holds the lock |
| LaneProgress.SoloUpdate | core/manifest/store.go:71-105 | every run of its own steps that ends an update ends it the same way: with the proposal stored exactly when the base is still there, the record fits and there is no residue, and otherwise with nothing changed |
| LaneProgress.SoloCommand | core/manifest/ops.go:43-84 | every run of its own steps that ends a command ends it the same way: with the change it wants stored exactly when that applies, fits and meets no residue, and otherwise with nothing changed |
| LaneProgress.SoloReady | cmd/provehito/commands_review.go:131-159 | every run of its own steps that ends a `ready` ends it the same way: READY, with nothing else changed but the time, exactly when the lane is approved and there is no residue, and otherwise with nothing changed |
| LaneSolo.SoloTransition | cmd/provehito/commands_state.go:350-375 | `lane block`, `resume`, `abandon` and `incident` succeed exactly with the hash of the lane, from a state that allows the event, without residue; the effect of each |
| LaneSolo.SoloReview | cmd/provehito/commands_review.go:49-119 | `review record` succeeds exactly when lane, fingerprint, evidence, reviewer and word allow it and there is no residue; then the lane is REVIEWED with the words of the reviewer |
| LaneSolo.SoloFreeze | cmd/provehito/commands_freeze.go:23-43 | `freeze` succeeds exactly on an ACTIVE lane with no hash or the right one and a full fingerprint, which it records |
| LaneSolo.SoloClose | cmd/provehito/commands_review.go:161-181 | `close` succeeds exactly on a READY lane with no hash or the right one |
| LaneSolo.SoloBlock | cmd/provehito/commands_run.go:118-124 | `agent run` blocks the lane exactly when it is ACTIVE and the lease abandoned |
| LaneAdding.SoloEvidence | cmd/provehito/commands_evidence.go:31-66 | `evidence add`: exactly when the receipt stays and exactly when the lane gets the reference, and nothing else |
| LaneOpening.SoloOpen | cmd/provehito/commands_state.go:280-295 | `lane open` succeeds exactly without a lane and with name and dispatch filled in; then the lane is ACTIVE with both times equal and nothing recorded |
| Lease.StateRoot.Acquire | core/workspace/lease.go:62-132 | succeeds exactly with lock and record free and the record written out; a record not written out stays |
| Lease.StateRoot.DetectAbandoned | core/workspace/lease.go:192-231 | reports exactly a record with a free lock |
| Lease.WriterLease.ActiveWorkspace | core/workspace/lease.go:134-159 | a witness exactly while not released and the record exists |
| Lease.WriterLease.Release | core/workspace/lease.go:161-190 | the first call frees the lock and removes the record if it can, and reports no error exactly when the removal, the sync after it and the unlock all succeed; later calls do nothing |
| Lease.AcquireIsSteps | core/workspace/lease.go:84-131 | the method's outcome is that of its protocol steps run without interruption |
| Lease.ReleaseIsSteps | core/workspace/lease.go:171-183 | the same for Release |
| LeaseTheorems.OneChild | core/process/supervisor.go:90-118 | at most one agent child is alive at any moment of any run, and its lease record is there |
| LeaseTheorems.OneLease | core/workspace/lease.go:62-132 | at most one process holds the lease |
| LeaseTheorems.OrphanForever | core/workspace/lease.go:96-102 | once a holder died or left its record behind, no later Acquire succeeds and no child is started |
| LeaseTheorems.CrashLeavesRecord | cmd/provehito/commands_run.go:118-136 | death at any step frees the lock, keeps the record and the child, and orphans the record of the dead |
| LeaseTheorems.DetectExact | core/workspace/lease.go:211-230 | a report is of a true orphan exactly when the record is still there at the probe |
| LeaseTheorems.OrphanReported | core/workspace/lease.go:211-230 | an orphan with nobody at work is always reported |
| LeaseTheorems.FalseAlarm | core/workspace/lease.go:211-230 | a run in which the report is of a lease already released |
| LeaseProgress.SoloAgent | cmd/provehito/commands_run.go:108-180 | every run of an agent's own steps in which nothing fails has its child alive at some moment exactly when lock and record were free, and leaves lock, record and children as they were |
| LeaseProgress.AgentEnds | cmd/provehito/commands_run.go:108-180 | such a run exists from every stage |
| ReceiptJson.ReceiptInverse | core/evidence/receipt.go:56-99 | reading the JSON form of a receipt with its hash gives both back |
| ReceiptJson.ReceiptFormatFaithful | core/evidence/receipt.go:177-220 | the field-by-field encoding, with any hash function, meets what the store results ask for: the text that is hashed says the whole receipt |
| EvidenceStore.DecodeOfBytes | core/evidence/receipt.go:201-244 | a receipt written under its own hash is read back |
| EvidenceStore.HashCovers | core/evidence/receipt.go:177-200 | two receipts have one hash only by a collision of the hash function |
| EvidenceStore.OneReceipt | core/evidence/receipt.go:201-244 | whatever the files hold one reference loads one receipt, unless texts collide |
| EvidenceStore.RunInv | core/evidence/store.go:48-78 | every file is the encoding of a valid receipt under its hash, after every interleaving |
| EvidenceStore.Immutable | core/evidence/store.go:315-318 | bytes at an installed path never change |
| EvidenceStore.LoadAfterAdd | core/evidence/store.go:80-98 | a reference from Add loads, ever after, the input with the time of the store |
| EvidenceStore.InputOfSpawn | core/evidence/store.go:55-62 | in every run the input of an add that has not failed is the one it was called with |
| EvidenceStore.AddedLoads | core/evidence/store.go:46-98 | in every run the reference an add returned loads what the add was called with, with the time of the store |
| EvidenceStore.OneReference | core/evidence/store.go:46-78 | two adds return one reference exactly for one receipt |
| EvidenceStore.RefusedOnlyForCollision | core/evidence/store.go:331-340 | an install is refused exactly when another receipt with the same hash is installed |
| EvidenceStore.NeverRefused | core/evidence/store.go:315-340 | without collisions no install is ever refused |
| EvidenceProgress.SoloAdd | core/evidence/store.go:46-78 | every run of its own steps that ends an add ends it the same way: added exactly when the stamped receipt is valid and no other is installed under its hash, and otherwise with nothing changed |
| EvidenceProgress.AddEnds | core/evidence/store.go:46-78 | such a run exists from every stage |
| EvidenceProgress.AddedAsGiven | core/evidence/store.go:55-62 | in every run an added receipt has the input the add was spawned with and the time it read from the clock |
| Evidence.FailureCodes | core/failure/failure.go:108-127 | the failure classes and their exit codes |
| Evidence.ByteLengthIs | core/evidence/receipt.go:125-144 | the length limits count bytes of UTF-8 |
| Supervisor.OutputBudget.Take | core/process/supervisor.go:231-244 | takes what is asked or what is left |
| Supervisor.BoundedWriter.Write | core/process/supervisor.go:261-271 | keeps the taken prefix, hashes everything, flags a drop |
| Supervisor.Collect | core/process/supervisor.go:72-76 | two writers on one budget compute the interleaving they are fed |
| Supervisor.BudgetShared | core/process/supervisor.go:226-277 | in every interleaving the streams keep min(limit, total) bytes, each a prefix, flagged exactly when something was dropped, hashed in full |
| Supervisor.DispatchLimitsExact | core/adapter/profile.go:57-70 | the int64 test admits exactly profiles within the dispatch limits as integers |
| Supervisor.AdmittedOutput | core/adapter/profile.go:61-65 | an admitted run keeps no more output than its dispatch allows |
| GitStatus.ParseStatus | core/fingerprint/git.go:160-183 | the index walk answers as the record parser |
| GitStatus.StatusIff | core/fingerprint/git.go:160-183 | accepted are exactly the encodings of lists of well-formed entries; dirty exactly for a nonempty list |
| GitStatus.EncodeUnique | core/fingerprint/git.go:160-183 | no output encodes two lists |
| GitSubmodules.ValidSubmoduleLine | core/fingerprint/git.go:214-235 | the loop over id sizes decides the shape of a line |
| GitSubmodules.ParseSubmoduleStatus | core/fingerprint/git.go:194-212 | the line loop answers as its specification |
| GitSubmodules.SubmodulesIff | core/fingerprint/git.go:194-212 | accepted as dirty are exactly nonempty lists of well-formed lines, each ended by a line feed |
| GitSubmodules.CleanIffSilent | core/fingerprint/git.go:114-138 | clean exactly when git printed nothing |
| ReleaseCheck.Check | internal/releasecheck/releasecheck.go:59-207 | structural PASS exactly for the order-free property of the entries |
| ReleaseCheck.Visit | internal/releasecheck/releasecheck.go:90-171 | one turn of the loop; the running total stays within its limit |
| ReleaseCheck.SortedEqual | internal/releasecheck/releasecheck.go:174-181 | sorting and comparing decides equality as multisets |
| ReleaseCheck.MemberName | internal/releasecheck/releasecheck.go:153-157 | a member is a name below the prefix that does not end in a slash |
| ReleaseCheck.OrderFree | internal/releasecheck/releasecheck.go:90-181 | the order of the archive's entries does not matter |
| Paths.PathContains | core/workspace/paths.go:160-196 | the upward walk decides whether one path lies above another under any name |
| Paths.ValidateSeparation | core/workspace/paths.go:67-100 | succeeds exactly for paths of which neither is or lies above the other |
| Paths.OverlapNotSeparate | core/workspace/paths.go:67-100 | separate directories share no path |

## Left out

- The lexer and string encoder of `encoding/json`, SHA-256 and hexadecimal text: texts are tokens, hashes are functions.
- CanonInt64.CanonicalNumber: lexemes of 2^62 bytes and more, which no memory holds, are not covered.
- CanonParse.Parse: the two errors for what follows the value are not told apart.
- Field names in other case, which `encoding/json` takes: the concrete readers do not, but `ManifestCodec.DecodeIff` and its neighbours hold for any reader that inverts writing.
- Timestamp texts: instants are whole seconds with some text that parses back, so reformatting of timestamps is not modelled.
- LaneJson.LaneInverse: an empty list of evidence hashes in a review is written as an empty list, also where the source would write null; no valid review has one.
- LaneStore, Lease: file operations either succeed or fail as an input says; modes, symbolic links and inode checks are not modelled, nor is tampering from outside.
- LaneSystem: the classes of the source are not used here; processes interleave on values, and the manifest a process holds in memory is a field of its stage.
- LaneSystem: verifying evidence reads all receipts in one step. Receipts are only ever added, so a successful reading of one after another is a successful reading at the last of these moments.
- LeaseSystem.ProcStep: the trial lock of DetectAbandoned is taken and given back in one step, so a detector never shows as holder of the lock; the errors it may cause others are those of `AcquireFails` and `DetectFails`.
- LaneSystem: the hash of an added receipt is an input; the step is refused when it belongs to another receipt.
- Policy.Evaluate: which of several errors is reported first is not specified.
- Policy.ReviewOf: verdict words are compared in lower case; lower-casing is not modelled.
- Git, the fingerprint hash and the process runner: the current fingerprint is an input that may change between steps.
- Process groups, signals, timers and the environment of the agent child.
- ReleaseCheck.Check: name rules, case folding, the compression ratio, content regexes and the deny list are opaque inputs; the private status is not modelled.
- Paths.ValidateSeparation: resolving symbolic links is not modelled; it starts from canonical paths.
- Command-line flags, help, output rendering, corrections, exit codes, shell scripts, the renderer.
- Liveness and fairness of waiting for a lock.
