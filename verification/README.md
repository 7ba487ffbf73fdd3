# Attest: a verified model of the audit trail

Attest records what an institution's AI systems did, signs and links every record, seals records into
Merkle batches, judges outputs against policy, and lets outsiders read content only with consent. Most of
what it promises is about whole histories. This project models its protocols as state machines and its
calculations as functions, and proves the promises for every input, every run and every reachable state.

Each file follows one part of the service:

| file | part of the system |
|---|---|
| `Prelude.dfy` | shared datatypes and string helpers |
| `Merkle.dfy` | Merkle roots, proofs, and exactly what a root commits to |
| `Chain.dfy` | envelopes, signatures and chain re-verification |
| `Ledger.dfy` | recording, key rotation, batch sealing, shredding, deferred marks, replay |
| `Evidence.dfy` | evidence export and the offline bundle verifier |
| `Soundness.dfy` | what the offline verifier's acceptance shows, for bundles from any hand |
| `OfflineQueue.dfy` | the SDK's queue file, local claim chain and drain |
| `OfflineGraft.dfy` | server-side verification of offline segments, which chunks pass, and grafting them into the ledger |
| `Policy.dfy` | layers, rule matching and the deciding rule, on the server and in the SDK (with a stable sort) |
| `Verdicts.dfy` | packs, verdicts, what can block, and where server and SDK agree |
| `Gate.dfy` | the flagged, fixed, cured loop across gate calls |
| `Consent.dfy` | M-of-N access requests, grants, erasure and the consent trail |
| `RegWatch.dfy` | drift confirmation, citation publishing, and which checks raise |
| `Sweep.dfy` | the capped, longest-overdue sweep, and which sources it starves |
| `Login.dfy` | login-code budget and password lockout |
| `Profile.dfy` | institution profiles and the rulebooks they imply |

`dafny verify dfyconfig.toml` checks everything.

## How it is modelled

State that the source keeps in rows or files is a value (`Db`, `World`, `Desk`, `State`, `Org`, ...) with one
function or relation per operation; a run is a list of operations from the empty state. The code that updates
rows, files or loop variables is a class or a method with loops, and its `ensures` says that it performs
exactly that operation, so the theorems about runs are theorems about the methods. Beside each operation stand
laws, most of them named `...Exactly`, that say what it does to every field in terms of its inputs, or what a
run of it comes to in terms of the history before, without the function that computes it. An operation that
raises leaves the state as it was, because the callers roll the transaction back; for a sweep that means every
booking of the run.

Cryptography is a parameter, not an axiom. Hash, sign, verify and wrap functions are arbitrary function values,
and each theorem lists the laws it uses as hypotheses: `PairInjective` and `NotANode` for Merkle binding,
`EnvelopeInjective` for tamper evidence, `SignedVerifies` for replay, `SignatureNamesSigner` in addition for the
converse half of the evidence round trip, `EnvelopesAreNotNodes` and `SignaturesAreOurs` for the soundness of the
bundle verifier, `CollisionFree` and `OnlySignedVerify` for accepted offline segments, and `Matches` (which joins
the SDK's and the server's view of one device) for chunks the server is to accept.
Clocks, network outcomes, crashes, fetch results, anchor tokens and generated keys are inputs chosen by the
environment, and the theorems hold for every choice.

## Where the code and its promises part

For each of these the model follows the code, exhibits an input, and proves exactly when the promise holds or what
holds in its place.

- Odd batches. Appending a copy of the last leaf to an odd batch of three or more keeps the root
  (`Merkle.OddBatchCollides`); two batches share a root exactly when their completed trees agree
  (`Merkle.RootsCollideExactly`), and batches of one size never do unless equal (`Merkle.EqualLengthRootsBind`).
- Bundles carry the service key only. A trace signed with an organisation's own key exports a bundle the offline
  verifier rejects (`Evidence.OwnKeyBundleRejected`); acceptance holds exactly when all events are under the
  service key and no anchor fails (`Evidence.EvidenceRoundTrip`).
- `attest_sdk/offline.py` says it judges by the same rules as the server. It differs in five ways:
  - with no rule hit and a red layer floor the SDK blocks what the server flags (`Verdicts.SdkBlocksWhereServerFlags`);
  - the server reads a classifier field the SDK does not, so it can block what the SDK passes
    (`Verdicts.SdkPassesWhereServerBlocks`);
  - a malformed policy, such as one whose rules are not a list, makes the SDK raise where the server fails closed or
    open (`Verdicts.SdkRaisesWhereServerBlocks`); so does a pack whose rules cannot be walked through;
  - with packs but no active policy the server does not evaluate and the SDK does (`Verdicts.SdkJudgesWithoutPolicy`);
  - with an active policy that is an empty document and no packs it is the other way round
    (`Verdicts.SdkIgnoresEmptyPolicy`).

  `Verdicts.Comparable` names the cases in which both sides set out to judge, or neither does. On agreeing classifier
  fields the two give one answer exactly when the case is comparable and no red floor is left undecided by a rule
  (`Verdicts.SdkAgreesExactly`). An output is answered alike in exactly the comparable cases, over every policy, fail
  mode and set of packs, if and only if its classifier fields agree and its floor is not red
  (`Verdicts.SdkAlwaysAgreesExactly`), and its tier is if and only if they agree (`Verdicts.SdkTierExactly`). They
  agree when a truthy `classifier` equals `_classifier_tier`; then, and only then, the two matchers agree on every
  rule (`Policy.MatchersAgreeExactly`).
- `app/services/reg_watch.py` lines 515-519 say that every exit path of a check leaves the source scheduled. Only the
  fetch is guarded. A page with a NUL in it, as a PDF has, cannot be stored (`RegWatch.NulPageRaises`), and a second
  publication on top of one authored version does not fit the version column (`RegWatch.PublishesAtMostOnce`); the
  check raises and the run is rolled back. A check books its source ahead exactly when it does not raise
  (`RegWatch.BookedExactly`). A source due beside one whose check raises can starve (`Sweep.SpoiltSourceStarves`); it
  is served in its turn in every history exactly when its own check does not raise and runs take one source at a
  time with every source that raises strictly behind it (`Sweep.SweepFairExactly`).
- `attest_sdk/store.py` lines 81-83 say that a corrupt line must not stall the whole queue. The reader skips it, and
  the records around it no longer link. The server accepts a chunk exactly when its records are numbered consecutively
  (`OfflineGraft.ChunkVerifiesExactly`), and a gap in the first chunk stops every later drain
  (`OfflineGraft.GapStallsQueue`), as one bad line among three does (`OfflineGraft.BadLineLeavesGap`).
- `on_error="flag"` promises a result instead of an exception. An output that would be buffered raises all the same
  exactly when the cached rules cannot judge it or the tip of the chain cannot be read
  (`OfflineQueue.AttestClient.GateOutput`).
- `app/bundle/verify.py` prints ALL EVENTS VERIFIED for an accepted bundle. Whoever built it, such a bundle shows the
  beginning of one recorded trace (`Soundness.BundleSoundness`), but the end may be missing: an export is still
  accepted with its last events left out, its batches whole (`Soundness.CutExportAccepted`) or gone
  (`Soundness.CutBundleAccepted`).
- `attest_sdk/store.py` says a crash loses at most the record being written. A torn write leaves the queue file
  without a line break, the next claim is written behind it and never read again, and its number is signed a second
  time (`OfflineQueue.TornWriteForks`). Nothing is lost exactly when no claim is written behind an unterminated line
  and no torn write or bad line spoils a record the server has not got (`OfflineQueue.NothingLostExactly`).
- A crash between writing a claim and writing the chain head forks the local chain once the queue drains
  (`OfflineQueue.StaleHeadForks`). The chain is contiguous exactly when, at every claim, the queue read something and
  the last claim's line was not written over or gone bad, or it read nothing and the last claim's gate had completed
  (`OfflineQueue.ContiguousExactly`).
- The comment at `app/services/human_auth.py` lines 66-67 caps guesses at attempts times issued codes. A code
  issued just before the window adds one more code's attempts (`Login.BudgetExceeded`); the stated cap holds only
  for degenerate limits (`Login.DocumentedBudgetExactly`), and the cap with one more code always holds
  (`Login.GuessBudget`).
- Rules of a pack that share an id. Publishing can overwrite a confirmed provision (`RegWatch.SharedIdsOverwrite`);
  it fills in own, proven candidates exactly when rules sharing an id agree (`RegWatch.OwnCandidatesExactly`).
- A profile reduction approved late applies its stored proposal over a profile that has grown since
  (`Profile.LateApprovalSheds`); it sheds nothing exactly when the proposal still covers the profile
  (`Profile.ApprovalShedsExactly`).
- Reconciling deletes one row per code. An organisation has two when `app/api/admin.py` line 325 applies a pack
  again after a new version was published; the pack then stays applied although nothing requires it
  (`Profile.TwoRowsSurvive`). Applied and derived codes agree exactly when no code that fell away had two rows
  (`Profile.ReconcileExactly`).

## Model

| member | source | states |
|---|---|---|
| `Merkle.MerkleRoot` | app/crypto/merkle.py:12-22 | The loop over halving levels computes the recursive root; no leaves give the digest of nothing. |
| `Merkle.RootIsTree` | app/crypto/merkle.py:12-22 | The root is the balanced tree, built from the top by halving, over the leaves in order filled up with repeats to the least power of two. |
| `Merkle.MerkleProof` | app/crypto/merkle.py:25-45 | The loop collects exactly the siblings on the path of the leaf; no leaves give an empty proof, an index out of range the error. |
| `Merkle.VerifyMerkleProof` | app/crypto/merkle.py:48-61 | Accepts exactly when climbing from the leaf at the claimed index gives the root. |
| `Merkle.HonestProofVerifies` | app/crypto/merkle.py:25-61 | Every proof built for any leaf of any batch, odd levels included, verifies against the root. |
| `Merkle.PositionBinding` | app/crypto/merkle.py:12-61 | A proof of honest length verifies at a position if and only if it is the honest proof of the honest leaf. |
| `Merkle.EqualLengthRootsBind` | app/crypto/merkle.py:12-22 | Batches of one size have equal roots if and only if they are equal. |
| `Merkle.OddBatchCollides` | app/crypto/merkle.py:12-22 | An odd batch of at least three leaves has the root of the batch with its last leaf repeated. |
| `Merkle.RootsCollideExactly` | app/crypto/merkle.py:12-22 | Batches of any two sizes, over leaves that are not node digests, share a root if and only if their completed trees agree. |
| `Verification.VerifyEventChain` | app/services/verification.py:82-105 | Reports each event's checks against its own key and predecessor, all-verified exactly when every one holds, and fails exactly when a key is missing. |
| `Verification.ResultExactly` | app/services/verification.py:45-79 | What is reported of each event, in terms of its columns: the rebuilt envelope hashes to its hash, a supported algorithm's signature verifies under its own key, it points at the event before it; verified if all three. |
| `Verification.TamperEvidence` | app/services/verification.py:45-105 | Two verifying traces with the same last hash have equal length and agree on every envelope field at every position, whatever keys signed them. |
| `Ledger.LedgerService.RecordEvent` | app/services/events.py:29-103 | Either appends the one signed event, with redacted content and linked to the row of highest seq, or reports why not and changes nothing. |
| `Ledger.RecordExactly` | app/services/events.py:29-103 | In every reachable database: refused exactly for a blank type, a foreign trace or a number other than one past the trace's events; otherwise one row carries every argument, links to the last event, is signed with the newest usable active key or else the service key, and its payload keeps the state it had. |
| `Ledger.TipRowIsLast` | app/repositories/events.py:34-40 | In a linked ledger the row of highest seq is the last one recorded in the trace, and the next number is one more than its length. |
| `Ledger.LedgerService.StoreEncryptedPayload` | app/services/payload_store.py:72-120 | Stores a payload and its key once; the same content again, even after erasure, changes nothing. |
| `Ledger.LedgerService.ProvisionManagedSigningKey` | app/services/org_signing.py:54-74 | Retires the organisation's keys, adds one, and that one is now the active key. |
| `Ledger.ProvisionExactly` | app/services/org_signing.py:54-74 | The new key is the organisation's only active one; no other column of any key moves. |
| `Ledger.LedgerService.AssignEventsToBatch` | app/repositories/batches.py:44-54 | Exactly the listed events get the batch, the rest are untouched. |
| `Ledger.LedgerService.SealBatch` | app/services/batching.py:25-60 | Seals all unbatched events under one signed root, or does nothing when there are none. |
| `Ledger.SealExactly` | app/services/batching.py:25-60 | One unanchored batch of exactly the rows that had none, its root over their hashes and signed by the service; nothing else of any row moves. |
| `Ledger.LedgerService.CryptoShredPayload` | app/services/payload_store.py:156-182 | Deletes the key and marks the payload erased; false when there was no key. |
| `Ledger.ErasedExactly` | app/services/payload_store.py:72-182 | Over every run a payload is held exactly if an event recorded it, and marked erased with its key gone exactly if it was shredded since; recording the content again brings nothing back. |
| `Ledger.LedgerService.MarkDeferred` | app/services/offline.py:189-213 | Marks the named event as deferred and touches nothing else. |
| `Ledger.DeferExactly` | app/services/offline.py:189-213 | On a sound ledger the mark lands on the one event of that number in the trace and on nothing else. |
| `Ledger.LedgerService.ReplayTrace` | app/services/replay.py:17-30 | Reports the checks of every event under its own key, all-verified exactly when the chain verifies; foreign, unknown and empty traces and missing keys are refused; in every reachable state an existing trace is all-verified. |
| `Ledger.ReachableInv` | app/services/events.py:29-103 | Every reachable database satisfies the ledger invariant: keys, signatures, links, batches and traces consistent. |
| `Ledger.ListingIsSeqOrder` | app/repositories/events.py:34-49 | A trace's events in the order they were recorded are numbered 1..n, each pointing at the one before. |
| `Ledger.ChainInvariant` | app/services/replay.py:17-30 | After any interleaving of appends, rotations, sealing, shredding, anchoring and deferred marks, every trace is numbered 1..n and verifies with per-event keys, retired ones included. |
| `Ledger.AppendOnly` | app/repositories/events.py:85-119 | Whatever happens next, the signed columns recorded so far stay, in place. |
| `Evidence.VerifyEvents` | app/bundle/verify.py:202-216 | The event loop passes exactly when every event's hash, signature and link hold. |
| `Evidence.VerifyProofs` | app/bundle/verify.py:222-248 | The proof loop passes exactly when every exported inclusion proof climbs to the batch root. |
| `Evidence.VerifyBundle` | app/bundle/verify.py:196-269 | The verifier accepts exactly the bundles whose events, proofs, batch signatures and anchors all hold. |
| `Evidence.AcceptedChecksAll` | app/bundle/verify.py:196-269 | In an accepted bundle every event's fields hash to its hash, every signature and link and root signature was checked, no anchor fails, and every proof leads from the hash it speaks for to the root. |
| `Evidence.SerializeBatch` | app/services/evidence.py:66-92 | Exports every leaf hash of the batch and an honest proof for each event of the trace. |
| `Evidence.BuildEvidenceBundle` | app/services/evidence.py:95-146 | Builds the bundle of the trace from any database, tampered rows included, and says verified exactly when the chain is; refuses foreign and empty traces and missing keys. |
| `Evidence.ExportedProofs` | app/services/evidence.py:58-92 | Proofs recomputed at export verify against the root sealed earlier. |
| `Evidence.EvidenceRoundTrip` | app/services/evidence.py:95-146 | In every reachable state the exported bundle is accepted if and only if all events are under the service key and no anchor fails. |
| `Evidence.BundleCovers` | app/services/evidence.py:95-146 | Every event of the trace is exported in order with its hash, and each sealed one with a proof under its batch's root. |
| `Evidence.BundleShows` | app/services/evidence.py:35-146 | In every reachable state the bundle carries the service key, every signed column of every event, its payload marked erased exactly if shredded since, and every column of the batches it names. |
| `Evidence.OwnKeyBundleRejected` | app/services/evidence.py:95-146 | A trace signed with an organisation's own key exports a bundle that is rejected. |
| `Soundness.BundleSoundness` | app/bundle/verify.py:196-269 | Whoever built it, an accepted bundle with events under the service key shows the first events of one recorded trace, in order, with the envelopes recorded, if the signatures in it that verify are the service's. |
| `Soundness.CutBundleAccepted` | app/bundle/verify.py:196-269 | Any accepted bundle is still accepted with last events and all batches left out. |
| `Soundness.CutExportAccepted` | app/bundle/verify.py:196-269 | An accepted export is still accepted with any number of its last events left out and its batches whole. |
| `OfflineQueue.OfflineStore.Append` | attest_sdk/store.py:55-67 | Adds a readable line at the end of a terminated file; behind an unterminated line the record is not readable, and only a padded record there survives. |
| `OfflineQueue.OfflineStore.ReadAll` | attest_sdk/store.py:69-86 | Returns the readable records in order, skipping blank and unreadable lines. |
| `OfflineQueue.OfflineStore.Drop` | attest_sdk/store.py:88-100 | Drops the first non-blank lines, readable or not, and leaves the file terminated. |
| `OfflineQueue.OfflineStore.ReadChainState` | attest_sdk/store.py:107-117 | The tip is the last readable record, else the head file, else the start; a head file that is needed and broken raises. |
| `OfflineQueue.AttestClient.GateOffline` | attest_sdk/attest.py:291-329 | Signs the next claim of the local chain over exactly what was passed, queues it and remembers the head, or raises with nothing changed when the cached rules cannot judge the output or the head file cannot be read. |
| `OfflineQueue.ClaimPinsAll` | app/crypto/offline_envelope.py:31-50 | Two claims are equal exactly when device, number, time, action, payload and predecessor are, an absent predecessor counting as the empty one. |
| `OfflineQueue.AttestClient.DrainOffline` | attest_sdk/attest.py:331-371 | The chunked loop performs the drain and makes its posts: a chunk leaves the file only after its acceptance was acknowledged. |
| `OfflineQueue.DrainPostsBatches` | attest_sdk/attest.py:331-371 | Post i carries the records from i times the batch size on, a full batch or all that is left; only the last may be short, and each but the last was acknowledged. |
| `OfflineQueue.AttestClient.GateOutput` | attest_sdk/attest.py:153-195 | What comes back in every case; buffers exactly on a plain outage of an ordinary output with offline mode on, rules that can judge it and a readable tip; asked not to raise, raises exactly when one of the last two is missing; a reply triggers a drain; nothing else touches the queue. |
| `OfflineQueue.DropTakesAtMost` | attest_sdk/store.py:69-100 | Dropping n lines removes at most the first n readable records. |
| `OfflineQueue.DropTakesExactly` | attest_sdk/store.py:69-100 | Without unreadable lines it removes exactly the first n. |
| `OfflineQueue.DrainHandsOverSlice` | attest_sdk/attest.py:331-371 | For any outcomes and any unreadable lines a drain hands over a slice from the start and the file still reads everything after it. |
| `OfflineQueue.NoLoss` | attest_sdk/attest.py:331-371 | Over every run in which no write lands on a record's line and none goes bad, crashes, torn writes and lost replies included, what the queue reads is the tail of what was appended and everything before it was accepted. |
| `OfflineQueue.NothingLostExactly` | attest_sdk/store.py:61-86 | After any run of distinct calls every appended record can be read or was accepted, if and only if no claim was written behind an unterminated line and no torn write or bad line spoiled a record the server had not got. |
| `OfflineQueue.ExactlyOnce` | attest_sdk/attest.py:331-371 | Without unreadable lines or lost replies, accepted followed by queued is what was appended, in order. |
| `OfflineQueue.NextClaimContinues` | attest_sdk/store.py:107-127 | The next claim continues the chain if and only if there was none before, or the queue reads something and the last claim's line still does, or it reads nothing and the last gate completed. |
| `OfflineQueue.ContiguousExactly` | attest_sdk/attest.py:291-329 | The claims of a run form one chain 1,2,3,... if and only if that held at every claim, read off the operations and the file. |
| `OfflineQueue.CrashFreeContiguous` | attest_sdk/attest.py:291-329 | Runs in which no gate dies part way and no line goes bad always form one chain and lose nothing. |
| `OfflineQueue.StaleHeadForks` | attest_sdk/attest.py:314-328 | A crash, a drain and another gate sign two different claims as number 1. |
| `OfflineQueue.TornWriteForks` | attest_sdk/store.py:61-67 | After a torn write one completed claim can neither be read nor reaches the server, and its number is signed again. |
| `OfflineGraft.VerifySegment` | app/services/offline.py:78-125 | Accepts exactly the segments whose items are objects with matching payload hashes, unbroken links and valid signatures, and returns their claims; otherwise names the first item at fault and its first fault. |
| `OfflineGraft.AcceptedSegmentIsSlice` | app/services/offline.py:78-125 | An accepted segment is a contiguous slice of the device's signed chain, payload for payload. |
| `OfflineGraft.OfflineContiguity` | app/services/offline.py:78-125 | End to end: the run's claims form one chain and any accepted segment is a contiguous slice of it. |
| `OfflineGraft.DrainedChunksVerify` | app/services/offline.py:78-125 | Conversely, every chunk the SDK would post passes the server's checks, if no record was written over or went bad. |
| `OfflineGraft.ChunkVerifiesExactly` | app/services/offline.py:78-125 | After any run that always knew its tip, bad lines, torn writes and foreign lines included, a chunk of the queue passes the server's checks if and only if its records are numbered consecutively. |
| `OfflineGraft.GapStallsQueue` | attest_sdk/attest.py:331-371 | Once the first chunk skips a number, no later drain hands anything over, whatever else happens short of destroying another record. |
| `OfflineGraft.BadLineLeavesGap` | attest_sdk/store.py:69-86 | Three queued claims whose second line goes bad leave the queue with a gap in its first chunk. |
| `OfflineGraft.GraftService.RegisterDevice` | app/services/offline.py:44-75 | Registers a new device or accepts the same key again up to surrounding white space, refuses a different key, and changes no other device. |
| `OfflineGraft.GraftService.GraftOfflineSegment` | app/services/offline.py:128-186 | For a registered, unrevoked device and a valid segment, takes the ledger through every item or, if some item is refused, back to where it was; an unknown and a revoked device have their own errors. |
| `OfflineGraft.GraftRecordsSegment` | app/services/offline.py:128-213 | Grafting onto a sound ledger keeps it sound and every old row untouched, and adds per item, in order, the decision's event if there is one and right behind it one deferred event with the item's content, action, named or new trace, parsed time, device and signature. |
| `OfflineGraft.RefusedExactly` | app/services/offline.py:146-170 | An item is refused exactly when it is no object, names a trace that is no id or another organisation's, or has a blank action. |
| `StableSort.SortIsStable` | app/services/policy/evaluator.py:81-124 | Sorting by descending key keeps every element once, and ties in their original order. |
| `Policy.RunDeterministicLayers` | app/services/policy/layers.py:9-64 | The branches report those of the five layers that fire, in their order. |
| `Policy.LayerFloorTier` | app/services/policy/layers.py:67-71 | The fold returns the strictest layer tier. |
| `Policy.LayersExactly` | app/services/policy/layers.py:9-64 | When each of the five layers fires, at its boundary, and the tier it gives. |
| `Policy.FloorIsStrictestLayer` | app/services/policy/layers.py:9-71 | A direct case split on the features is the strictest layer tier, and nothing else is. |
| `Policy.FirstWayDecides` | app/services/policy/rules.py:14-69 | A rule without a match never matches; otherwise the first of its seven ways that matches or raises decides. |
| `Policy.ActionWay` | app/services/policy/rules.py:24-29 | By action exactly when the output's action is the one named or among those listed. |
| `Policy.PiiWay` | app/services/policy/rules.py:31-32 | By personal data exactly when the match asks for it and it is there. |
| `Policy.FeatureWay` | app/services/policy/rules.py:34-51 | By feature exactly for fewer citations than the bound, a border crossed without lawful basis, a prohibited phrase, or the classifier label asked for; raises exactly when the citation bound is no integer. |
| `Policy.KeyEqualsWay` | app/services/policy/rules.py:53-57 | By payload value exactly when it is the same value, booleans counting as numbers, missing as null. |
| `Policy.KeyGteWay` | app/services/policy/rules.py:58-59 | By a lower bound exactly when the value is a number at or above it; raises exactly when the value is a number and the bound is none. |
| `Policy.KeyLtWay` | app/services/policy/rules.py:60-64 | By an upper bound exactly when the value is missing, null or a number below it; raises exactly when the value is a number and the bound is none. |
| `Policy.ContainsWay` | app/services/policy/rules.py:66-84 | By text exactly when some text anywhere in the payload has the needle in it, letter case aside. |
| `Policy.PyEqualExactly` | app/services/policy/rules.py:50-57 | Two values are equal to Python exactly when they are the same once booleans are read as numbers, at any depth. |
| `Policy.MatchersAgreeExactly` | attest_sdk/policy/rules.py:14-81 | On a payload the server's and the SDK's matchers agree about every rule if and only if a truthy `classifier` equals `_classifier_tier`. |
| `Policy.FirstMatchingRule` | app/services/policy/evaluator.py:81-124 | Sort-then-scan finds the rule of highest priority, earliest on ties, that stops the scan. |
| `Policy.MeetingExactly` | app/services/policy/evaluator.py:100-132 | What meeting a rule comes to: an engine error exactly for no object or no tier name, a crash exactly when its match raises, and otherwise its tier and its own or the default decision exactly when it matches. |
| `Policy.HigherDecides` | app/services/policy/evaluator.py:94-98 | Of two rules that stop the scan the one ranked strictly higher decides, of two ranked alike the earlier one; rules that do not stop it do not matter. |
| `Policy.ScanUnique` | app/services/policy/evaluator.py:81-124 | That description determines the outcome. |
| `Verdicts.EvaluatePacks` | app/services/policy/packs.py:102-155 | Findings are exactly those of the well-formed pack rules that match, under their packs' names, strictest first. |
| `Verdicts.CombineTiers` | app/services/policy/packs.py:158-164 | The combined tier is the strictest of the base tier and all findings. |
| `Verdicts.BlockedExactly` | app/services/policy/evaluator.py:32-78 | For a well-formed policy, blocked if and only if the deciding rule denies, or flags at a red effective tier outside allow_with_flag, whatever the packs. |
| `Verdicts.StatusExactly` | app/services/verdict.py:23-32 | On both sides: blocked exactly if not allowed, flagged exactly if allowed but at orange or red or with a matching pack rule, compliant otherwise; unevaluated, raised and failed-closed answers exactly when. |
| `Verdicts.DenyRuleBlocks` | app/services/policy/evaluator.py:32-78 | An output whose action the one rule names and denies is blocked on either side, whatever the fail mode and packs; one that matches in no way is allowed by the server. |
| `Verdicts.PacksOnlyAdvise` | app/services/policy/packs.py:102-164 | Adding packs never changes what is allowed or blocked, never lowers the tier and never makes a flagged verdict compliant. |
| `Verdicts.PackOrderIrrelevant` | app/services/policy/packs.py:102-164 | Permuting the packs changes nothing in the verdict. |
| `Verdicts.TierIsStrictest` | app/services/policy/evaluator.py:32-78 | The tier is the strictest of floor, deciding rule and findings. |
| `Verdicts.SdkAgreesExactly` | attest_sdk/offline.py:57-116 | On equal features and agreeing classifier fields, for every policy, none and malformed ones included: the answers are equal if and only if the case is comparable and a red floor is not left undecided, the tiers if and only if it is comparable, and once both judge, allowed and status agree if and only if an own rule matched or the floor is not red. |
| `Verdicts.SdkAlwaysAgreesExactly` | attest_sdk/offline.py:57-116 | Over every policy, fail mode and set of packs an output gets one answer from both sides in exactly the comparable cases, if and only if its classifier fields agree and its floor is not red. |
| `Verdicts.SdkTierExactly` | attest_sdk/offline.py:57-116 | It gets one tier in exactly the comparable cases if and only if its classifier fields agree. |
| `Verdicts.SdkBlocksWhereServerFlags` | attest_sdk/policy/evaluator.py:28-69 | A cross-border output with no rule: the server flags and allows, the SDK blocks. |
| `Verdicts.SdkPassesWhereServerBlocks` | app/services/policy/rules.py:44-51 | A classifier label with a rule about it: the server blocks, the SDK calls it compliant. |
| `Verdicts.SdkRaisesWhereServerBlocks` | attest_sdk/policy/evaluator.py:83-87 | Policy rules that are not a list: the server blocks, the SDK raises. |
| `Verdicts.SdkJudgesWithoutPolicy` | app/services/gate.py:125-145 | No active policy and a pack: the server does not evaluate, the SDK calls the output compliant. |
| `Verdicts.SdkIgnoresEmptyPolicy` | attest_sdk/offline.py:57-75 | An empty policy document and no packs: the server calls the output compliant, the SDK does not evaluate it. |
| `Verdicts.EvaluateOnServer` | app/services/policy/evaluator.py:32-78 | Unevaluated without an active policy; otherwise the verdict of the one possible scan, whatever the policy document holds. |
| `Verdicts.EvaluateInSdk` | attest_sdk/offline.py:57-152 | With neither a non-empty policy nor packs cached the output is unevaluated; otherwise the verdict is that of the one possible scan, and a malformed policy or pack raises. |
| `Gate.GateService.ValidateRemediates` | app/services/gate.py:67-100 | Resolves a fix to the flagged or blocked decision it names, or gives the error that applies. |
| `Gate.GateService.RunGate` | app/services/gate.py:103-202 | Performs the gate step and tells the caller what fits: blocked exactly if refused or failed closed, unevaluated exactly without a policy, flagged and compliant exactly by tier and findings; numbers the events it recorded, and the decision's row says the same as the reply. A bad reference, a foreign trace or a blank action changes nothing. |
| `Gate.AnsweredExactly` | app/services/gate.py:67-135 | In every reachable state, which calls are answered and which error each of the others gets, told from the rows a call may name. |
| `Gate.ReplyStaysRecorded` | app/services/gate.py:158-188 | Whatever follows, the row of a judged output carries the status and output number the caller was told. |
| `Gate.RemediationLoop` | app/services/gate.py:67-202 | In every reachable state a decision marked remediated was flagged or blocked, and the mark names exactly one, strictly later, compliant decision of the same org and trace that points back at it. |
| `Gate.OnlyCompliantFixCloses` | app/services/gate.py:103-202 | No step changes an existing decision except a compliant fix of it, and then only its cure mark. |
| `Gate.FlagClosesExactly` | app/services/gate.py:67-202 | Over any continuation of any run, a decision keeps everything but its cure mark, and carries one if and only if a later call named it and was judged compliant. |
| `Gate.CompliantFixCloses` | app/services/gate.py:103-202 | A compliant fix of a flagged or blocked decision does close it. |
| `Consent.ConsentDesk.CreateAccessRequest` | app/services/access_review.py:44-95 | Files a request that carries the threshold, at least one, deadline, scope, organisation and grantee asked for, or nothing when the scope repeats a record or the event cannot be recorded. |
| `Consent.FilingKept` | app/services/access_review.py:44-95 | Over every run a filed request keeps the threshold, deadline, scope, organisation and grantee it was filed with, and each approver on it clicked on the record since. |
| `Consent.FilingGuardsReads` | app/services/access_review.py:44-95 | Content comes back through a request only for a record and organisation its filing named, before the deadline it set, and after at least as many different people clicked as it asked for, and at least one. |
| `Consent.ConsentDesk.ReleaseKeys` | app/services/access_review.py:98-124 | Re-wraps to the grantee exactly the keys the organisation's key opens. |
| `Consent.ConsentDesk.ApproveAccessRequest` | app/services/access_review.py:127-167 | One approval by a new approver of a pending request; keys and approval at the threshold; otherwise nothing. |
| `Consent.ApprovalExactly` | app/services/access_review.py:98-167 | A click by someone new on a pending request counts; below the threshold nothing is released, at it the request is approved and exactly the keys that open are re-wrapped. |
| `Consent.ConsentDesk.RecordClientApproval` | app/services/access_review.py:232-301 | The client path: posted keys are stored, approval waits for the threshold and for every key. |
| `Consent.ClientApprovalExactly` | app/services/access_review.py:232-301 | Posted keys of records in scope are kept, and the request is approved exactly with enough clicks and a key for every record. |
| `Consent.ConsentDesk.ResolveAccessRequest` | app/services/access_review.py:170-190 | Denies or revokes a request not already so resolved; any other status is refused. |
| `Consent.ConsentDesk.ReadViaGrant` | app/services/access_review.py:304-355 | Returns content exactly when the grant allows it and the read event was recorded. |
| `Consent.GrantReadsExactly` | app/services/access_review.py:304-355 | Content comes back exactly for an approved, unexpired request with a released key that opens to the one the unerased payload was stored under. |
| `Consent.ConsentDesk.StoreEncryptedPayload` | app/services/payload_store.py:72-120 | Stores content and its key, wrapped when the organisation has a key, once per content, even after erasure. |
| `Consent.StoredExactly` | app/services/payload_store.py:72-182 | Over every run a record is held exactly as its first storing gave it, content and wrapped key, until it is erased. |
| `Consent.PlainReadExactly` | app/services/payload_store.py:123-153 | Attest reads a record on its own exactly while it is unerased and was stored without an organisation key. |
| `Consent.ConsentDesk.CryptoShredPayload` | app/services/payload_store.py:156-182 | Deletes the key and marks the payload erased; false when there was no key. |
| `Consent.ReadNeedsConsent` | app/services/access_review.py:304-355 | Over all runs, content comes back only with the required number of distinct approvers, in time, in scope, with a released key, unerased, and it is that record's content. |
| `Consent.NoReadAfterClosing` | app/services/access_review.py:170-190 | After denial or revocation no later read through the request succeeds, whatever follows. |
| `Consent.NoReadAfterErasure` | app/services/payload_store.py:123-182 | After erasure no read by any path ever succeeds, although grant rows keep their keys and the content may be recorded again. |
| `Consent.TrailSufficient` | app/services/consent_events.py:62-97 | The trail alone rebuilds scope, threshold, expiry, status, the approvers, the released set and the records whose content was returned, in order. |
| `Consent.RepeatsAddNothing` | app/services/access_review.py:137-147 | After an approver's first click, on either path, a later one on either path changes nothing, whatever happened between. |
| `Consent.ResolvingAgain` | app/services/access_review.py:170-190 | Resolving to the same status again changes nothing and records nothing. |
| `Consent.ApprovalOpensScope` | app/services/access_review.py:98-167 | The deciding approval does make the in-scope record readable. |
| `RegWatch.Watcher.Check` | app/services/reg_watch.py:510-631 | Performs the check step on every exit path, or raises exactly when the text or the version string cannot be stored, and then rolls back. |
| `RegWatch.FailureExactly` | app/services/reg_watch.py:524-609 | A failed fetch: which interval is booked, and which change is recorded for a raised fetch, for 404 and 410, 401 and 403, a lasting 429, and anything else; none for a source kept by hand. |
| `RegWatch.AnswerExactly` | app/services/reg_watch.py:607-631 | A page that answers ends the streak and books the usual interval, and recovery is recorded exactly if the source was kept by hand. |
| `RegWatch.EvaluationExactly` | app/services/reg_watch.py:706-833 | What one text leaves: a pending hash alone, or the text cut at the limit, with confirmations reported exactly when it proves a rule of the newest version and published exactly if publishing is on. |
| `RegWatch.CheckRaisesExactly` | app/services/reg_watch.py:744-748 | A check raises exactly when a text to be kept has a NUL in its kept part, or is to be published under a string of more than 32 characters. |
| `RegWatch.Watcher.Supply` | app/services/reg_watch.py:634-703 | Performs the hand-supplied step, or refuses without text or attestor, or when what it writes cannot be stored. |
| `RegWatch.SupplyExactly` | app/services/reg_watch.py:634-703 | A supplied text makes the source one kept by hand, books its interval and is reported first; refused exactly without attestor or text. |
| `RegWatch.Watcher.UpsertPack` | app/services/regulation_packs.py:17-59 | Replaces the row of that version or appends one; refused when the version string does not fit. |
| `RegWatch.Watcher.PublishConfirmations` | app/services/reg_watch.py:847-892 | Publishes a new version with the confirmed provisions filled in, or nothing when its version string does not fit. |
| `RegWatch.ProvenanceExactly` | app/services/reg_watch.py:836-892 | Over every run a version is only added on top of the newest; it says attested, in string and status, exactly when a person supplied the text, and each rule it changed names the source. |
| `RegWatch.ExtractConfirmations` | app/services/reg_watch.py:406-424 | Collects the unconfirmed candidates that the text proves, by rule id. |
| `RegWatch.ProvableExactly` | app/services/reg_watch.py:364-424 | A text proves a rule exactly when the rule has an id, no provision yet, and a candidate, not blank, that stands in the text, both normalised. |
| `RegWatch.BookedExactly` | app/services/reg_watch.py:510-631 | A check of a due source books a time in the future if and only if it does not raise, whatever the fetch gave. |
| `RegWatch.NulPageRaises` | app/services/reg_watch.py:744-748 | A page with a NUL makes the check raise and leaves the source as due as it was. |
| `RegWatch.PublishesAtMostOnce` | app/services/reg_watch.py:847-892 | Over every run the watcher publishes at most one version on top of an authored one, since a second stamp overflows the version column. |
| `RegWatch.SourceTracksSightings` | app/services/reg_watch.py:524-609 | Over every run, with any packs, clock and publishing mode, a source's accepted and pending hashes are a function of its sightings, and its failure counter is the current failing streak. |
| `RegWatch.DriftExactly` | app/services/reg_watch.py:706-748 | Over every run, an operation finds drift if and only if its text differs from the accepted one and repeats the previous sighting or was supplied by hand; it is recorded with both hashes if and only if some pack cites the source. |
| `RegWatch.DriftIsReported` | app/services/reg_watch.py:706-833 | One evaluation records drift if and only if it found it and a pack cites the source, first and with both hashes. |
| `RegWatch.AlternatingNeverDrifts` | app/services/reg_watch.py:721-748 | Over every run, variants that never repeat twice in a row are never found nor recorded as drift, and the first stays accepted. |
| `RegWatch.PublishFillsProvable` | app/services/reg_watch.py:847-892 | With unique ids, publishing fills in exactly the provable rules with their own candidates. |
| `RegWatch.NoInventedCitations` | app/services/reg_watch.py:706-892 | Over every run from any rows of which none extends the newest version string, each published citation was a declared candidate found in the text retained then; confirmed provisions, other rule content, targeting and old rows stay, and each change is in the log. |
| `RegWatch.TextPublishesOnce` | app/services/reg_watch.py:706-833 | Over every run, once a text was retained with publishing on, bringing it again, to any source and whatever was published in between, publishes and confirms nothing. |
| `RegWatch.OwnCandidatesExactly` | app/services/reg_watch.py:406-424 | For any rules, publishing only fills in own, proven candidates if and only if rules sharing an id agree. |
| `RegWatch.SharedIdsOverwrite` | app/services/reg_watch.py:847-892 | Two rules with one id: a confirmed provision is overwritten. |
| `Sweep.DueSources` | app/services/reg_watch.py:895-923 | Picks eligible sources in order, never checked first, then longest overdue, then oldest; one left out is behind them all and the cap is used up. |
| `Sweep.RunWatch` | app/services/reg_watch.py:926-954 | A run checks exactly such a set and books each one ahead, or raises exactly when it picked a source whose check raises, and then books nothing. |
| `Sweep.PassedOverBound` | app/services/reg_watch.py:895-954 | Every run that passes over a due source uses up cap places ahead of it. |
| `Sweep.SweepFairness` | app/services/reg_watch.py:895-954 | A due source with p due sources ahead is checked by the (p / cap + 1)-th run that comes through, whatever runs raise in between. |
| `Sweep.SweepFairExactly` | app/services/reg_watch.py:895-954 | For any cap, a due source is checked in its turn in every history if and only if its own check does not raise and every live source whose check raises is strictly behind it with runs of one; otherwise any number of runs can pass without it. |
| `Sweep.SpoiltSourceStarves` | app/services/reg_watch.py:926-954 | At the default cap, a source due beside one whose check raises is not checked in any number of runs. |
| `Login.HumanAuth.RequestLoginCode` | app/services/human_auth.py:116-149 | Issues a code that voids the others, unless the window's cap is reached. |
| `Login.RequestExactly` | app/services/human_auth.py:116-149 | Nothing exactly when the window already saw the cap; otherwise every code is used up and a fresh one with a full lifetime is added. |
| `Login.HumanAuth.VerifyLoginCode` | app/services/human_auth.py:152-182 | Succeeds exactly on a match with the newest live code while it has attempts left, which are spent first. |
| `Login.VerifyExactly` | app/services/human_auth.py:152-182 | A guess spends an attempt on the newest live code, is compared exactly if one was left, and uses the code up exactly if it was compared and right; no other code moves. |
| `Login.CodeWorksOnce` | app/services/human_auth.py:116-182 | A code that logged in, or that a newer one replaced, is never compared with a guess again. |
| `Login.HumanAuth.TryPassword` | app/services/human_auth.py:298-327 | Succeeds exactly with a password set, no lock and the right password; is wrong, locked or without a password exactly otherwise; counts failures, locks at the threshold, clears on success. |
| `Login.AttemptExactly` | app/services/human_auth.py:298-327 | Over every run the outcome of each attempt, told from the outcomes before it: locked exactly while a lock that earlier wrong passwords began lasts, otherwise a success exactly if the password is right. |
| `Login.LockHolds` | app/services/human_auth.py:311-320 | Once the wrong passwords in a row reach the threshold, every attempt before the lock's end is refused, the right password included, unless a new one is set. |
| `Login.HumanAuth.SetPassword` | app/services/human_auth.py:330-363 | Sets an acceptable password, needing the current one from a password session, and clears the lockout. |
| `Login.GuessBudget` | app/services/human_auth.py:116-182 | At most one unused code, at most the cap of codes per window, and at most (cap + 1) times the attempt limit of comparisons per window. |
| `Login.BudgetExceeded` | app/services/human_auth.py:63-68 | For all other limits a run and a window that see exactly that many comparisons, more than documented. |
| `Login.DocumentedBudgetExactly` | app/services/human_auth.py:63-68 | The documented cap holds of every run and window if and only if no attempts or codes are allowed or codes expire at once. |
| `Login.LockoutBound` | app/services/human_auth.py:298-363 | After any history, a lockout-length window without success or reset sees at most the threshold of wrong checks. |
| `Profile.ProfileService.MandatoryCodes` | app/services/org_profile.py:75-86 | The loop yields exactly the codes of the packs open to all or one of the declared jurisdictions and to all or one of the declared sectors. |
| `Profile.AppliedReachesExactly` | app/services/org_profile.py:58-120 | In every reachable state a rulebook is applied exactly when some version of it reaches the declared profile on both axes. |
| `Profile.ProfileService.SubscribeOrg` | app/services/regulation_packs.py:83-118 | Adds the newest row of a known code, once. |
| `Profile.ProfileService.ReconcilePacks` | app/services/org_profile.py:89-120 | Missing codes get their newest row, exactly one row of each code that fell away is deleted, every other row stays; reports both sets. |
| `Profile.ProfileService.SetOrgProfile` | app/services/org_profile.py:144-192 | Applies an update that removes nothing, files a request that lists what it removes otherwise, or refuses: unknown codes and the internal one, an empty axis, or a removal without reason, each exactly. |
| `Profile.ProfilesAcceptable` | app/services/org_profile.py:45-52 | Over every run, what is declared and what requests propose is known, not internal, and not empty on either axis. |
| `Profile.ProfileService.DecideChangeRequest` | app/services/org_profile.py:195-217 | Decides a pending request once and marks it approved or denied; approval applies its stored proposal, denial changes nothing else. |
| `Profile.DerivedMonotone` | app/services/org_profile.py:58-86 | Declaring more never implies fewer rulebooks. |
| `Profile.ReconcileExactly` | app/services/org_profile.py:105-117 | Applied codes equal derived codes if and only if no code that fell away had two rows. |
| `Profile.TwoRowsSurvive` | app/services/org_profile.py:105-117 | A pack applied again after a new version was published stays applied when nothing requires it. |
| `Profile.ObligationsNotShed` | app/services/org_profile.py:144-217 | Over every run applied codes equal derived codes; updates and denials only grow; only an approval can shrink, to what its proposal derives. |
| `Profile.ApprovalShedsExactly` | app/services/org_profile.py:208-215 | An approval sheds nothing if and only if the stored proposal covers the profile at that moment. |
| `Profile.LateApprovalSheds` | app/services/org_profile.py:208-215 | A late approval drops a jurisdiction declared after the request. |

## Left out

- Evidence.BuildEvidenceBundle: assumes that a batch row lists existing events, none twice; names, compliance summary and instructions in the bundle are not modelled.
- Evidence.VerifyBundle: the RFC 3161 anchor verdict is an oracle, and printing is not modelled.
- Ledger.LedgerService.SealBatch: the order of the unbatched query is an input, any listing without repeats, because rows with equal timestamps have no fixed order; the batch row's organisation and seal time are not modelled.
- Ledger.LedgerService.RecordEvent: row ids are positions in recording order instead of UUIDs, and concurrent writers are serialised by the trace's unique sequence number.
- Ledger.LedgerService.StoreEncryptedPayload: the ledger tracks only which payloads and keys exist; their content and wrapping are in `Consent.ConsentDesk.StoreEncryptedPayload`.
- OfflineQueue.OfflineStore.Append: encryption at rest and file permissions are not modelled; which records end in base64 padding is a parameter.
- OfflineQueue.NothingLostExactly: assumes that no two gates are the same call at the same moment, so that a lost record is not mistaken for an equal one that was kept.
- OfflineQueue.OfflineStore.ReadAll: a queue file that is not text at all, which makes reading raise, is not modelled.
- OfflineQueue.AttestClient.GateOutput: whether the cached rules can judge the output is an input here (`Verdicts.EvaluateInSdk` says when they can); the automatic remediation and cure loop of the client is not modelled.
- OfflineGraft.GraftService.GraftOfflineSegment: the gate's judgement of each item is an input that fixes the events it records; its decision index is modelled in `Gate.dfy`, not joined to the ledger here.
- Policy.FirstMatchingRule: rule documents are parsed values with integer priorities, and feature vectors are inputs.
- Verdicts.EvaluateOnServer: reasons, mitigations, citations and risk scores attached to a verdict are not modelled; the active policy judges, a policy version named in the call is not.
- Verdicts.SdkAgreesExactly: the SDK's cache holds the server's current policy, packs and fail mode.
- Gate.GateService.RunGate: the verdict on the output is an input.
- Sweep.RunWatch: which checks raise and the positive wait booked for each other source are inputs, as `RegWatch.BookedExactly` allows; sources are not registered or revived during the histories.
- Sweep.SweepFairExactly: a source's check raises always or never within a history.
- RegWatch.Watcher.Check: the message of a failed fetch is taken to be storable.
- RegWatch.Watcher.Supply: the note of an attestation is taken to be storable.
- RegWatch.Watcher.PublishConfirmations: the stamp in the version string is an input, and the repeated-extraction gate always agrees because extraction is a function here.
- RegWatch.TextPublishesOnce: rule ids are strings. The source files a candidate under the id as text but looks it up under the id itself, so a rule with an integer id is never filled in, and each check of its text publishes again.
- RegWatch.NoInventedCitations: says nothing of pack rows among which some version string properly extends the newest one, where a publication may overwrite that row.
- Profile.ProfileService.SubscribeOrg: the enabled flag and the enforcement level of a subscription are not modelled.
- Profile.ProfileService.SetOrgProfile: code lists are sets, and the allow_reduction switch, which no caller sets, is not modelled.
- Consent.ConsentDesk.ReadViaGrant: payload encryption opens under one content key, and redaction of event payloads is not modelled.
- Login.HumanAuth.VerifyLoginCode: sessions, hashing, e-mail and the user lookup are not modelled.
- Login.HumanAuth.SetPassword: revoking the user's other sessions is not modelled.
- Text handling: blank means spaces, tabs and line breaks only, and hex and JSON encodings are injective by hypothesis.
- Real cryptography, HTTP fetching and pacing, the language-model rewrite and feature extraction are inputs or parameters.
- The erasure event's retry wrapper, workflow gate, rate limiter, flush buffer, routes, schemas, migrations, dashboards and constant tables would only add easy members.
