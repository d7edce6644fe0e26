# SENTINEL trust core: a Dafny model

SENTINEL decides who may do what with signed canonical JSON, one-shot replay
slots, ordered refusal ladders and small state machines. The tests of the
repository sample those rules. This project models them and proves what they
are for: over every value, every object graph, every interleaving and every run.

Check it with `dafny verify dfyconfig.toml` (Dafny 4.11).

## How the model is laid out

| files | subject |
|---|---|
| `JsText`, `KeyOrder`, `JsonValue`, `JsonText`, `JsonRoundTrip`, `CanonicalJson`, `JsonShortest`, `JsonGuard` | strings as UTF-16 code units, JavaScript's own key order, `JSON.stringify` and `JSON.parse` (section 25.5 of ECMA-262, sections 4 to 7 of RFC 8259), deep key sorting, and the guard that walks a possibly cyclic object graph |
| `FieldNames`, `SignedRecord`, `DomainSeparation`, `StoredOperation` | signed statements, fingerprints and replay keys as canonical texts; what a stored queue entry must look like |
| `Base64Url`, `P256` | the wire form of signatures and public keys (sections 3.5 and 5 of RFC 4648), with the real curve constants |
| `DeviceTime`, `OneShot`, `RequestProof`, `OfflineOperation`, `Enrolment`, `KeyRotation`, `WhisperAction` | the five ordered evaluators and the classification of one-shot identities |
| `ReplayStore`, `EdgeQueue`, `EdgeProtocol`, `RotationRuns`, `DeviceLineage`, `RevokedOperation`, `TextSort`, `OfflineRequest`, `OfflineCursor` | transition systems: read, decide and commit as separate steps, over every list of events; key changes and revoked work |
| `ConstitutionPolicy`, `ConstitutionEngine`, `ConstitutionValidation`, `ConstitutionStore`, `ConstitutionRuns` | the policy, its twelve-check evaluator, its validator, its versioned store behind its own gate, and every run of that store |
| `FiniteSets`, `Binary64`, `NoisyOr`, `ThreatState`, `Patrol`, `EdgeRoute` | double-precision arithmetic between 0 and 1 (IEEE 754, round to nearest, ties to even), the threat machine over it, patrol runs, route canonicality |

Where the source mutates, the model does: the guard's path set, the repository
and the service are classes; byte loops, the validator's loops, the seeding
loop and the evaluator's reason list are methods with loops. Each such method is
proved against a specification function, and the theorems are about that
function. A run is a fold of one step function over an arbitrary list of events;
an event whose guard fails changes nothing, so every interleaving is some list.

## What came out that the source does not say

- **A worker that outlives its lease can break the order of offline effects.**
  `OfflineCursor.LateWorkerBreaksOrder` gives nine events that leave effects at
  positions 1, 0: the successor rejects position 0, position 1 takes effect, and
  then the first worker commits position 0. The exact condition is
  `OfflineCursor.OrderedIffNoneOvertaken`: effects come in strictly increasing
  order if and only if no worker commits a position that was rejected meanwhile
  and that a later effect has already passed.
- **It can also contradict a receipt.** In the first five of those events and one
  commit more, an effect stands at a position reported as rejected
  (`OfflineCursor.LateWorkerContradictsItsReceipt`). `OfflineCursor.HonestIffTimely`
  says exactly when this cannot happen. The cursor, the receipts and the
  at-most-once rule hold in every run.
- **Without the key, a covert action's answer can still depend on its slot.** The
  ordering of the checks is meant to rule that out, and does for a repetition of
  the same bytes. `WhisperAction.KeylessAnswerDependsOnSlotExactlyWhen` gives the
  exact condition: everything but possession holds, and the slot was spent on
  other bytes or holds a blank reference, both of which are answered before
  possession is asked for. `WhisperAction.ChangedActionIsToldApart` is the input.
- **A blank outcome reference makes an exact retry inconsistent**
  (`OneShot.HonestReports`): the classifier's report on it is refused, so the
  retry does not converge; it still has no second effect
  (`ReplayStore.AtMostOneEffectPerSlot` has no condition on references).
- **The validator admits categories nobody can ever satisfy.** A category that
  demands different approval roles but lists fewer than two never yields ALLOW
  (`ConstitutionValidation.DiversityWithoutRolesNeverAllows`);
  `ConstitutionValidation.AllowableExactlyWhen` says exactly which actions of a
  valid policy can be allowed.
- **Noisy-OR does reach one, and it does depend on order.** Its comment calls the
  value half open and order-independent. In double precision it is one exactly
  when the computed product of complements is at most 2^-54
  (`NoisyOr.SaturatesExactlyWhen`), which fifty-four weights of one half achieve
  (`NoisyOr.HalvesSaturate`). The order of n signals can move the probability by
  at most 2n + 3 units in the last place below one
  (`ThreatState.AggregatesIgnoreOrder`), and at a threshold that is enough to
  change the state: `ThreatState.OrderMovesTheState` has four reports that end in
  SUSPICIOUS in one order and in OBSERVE in another.
- **The ledgered ALLOW of an activation does not name the version activated.** The
  request put through the gate has no field for it, so record and activation are
  tied by position only (`ConstitutionRuns.EveryChangeWasAllowed`).
- **The fifteen-minute request limit cannot fire in an ordinary ceremony**
  (`Enrolment.ExpiredRequestPredatesGrant`): only for a request made more than
  five minutes before its grant.
- **`CARRIES_WHITESPACE` is never reported** (`EdgeRoute.WhitespaceIsNeverReported`):
  the printable-ASCII test comes first.

## Model

| member | source | states |
|---|---|---|
| `JsonRoundTrip.ParsePrint` | packages/contracts/src/device-identity.ts:246-254 | parsing a printed value of any depth returns that very value and leaves nothing over |
| `JsonRoundTrip.ReadsWellFormed` | packages/contracts/src/edge-runtime.ts:300-312 | every text the parser reads, whole numbers only, gives a value with distinct keys and valid parts |
| `CanonicalJson.SortEqualIffSame` | packages/contracts/src/device-identity.ts:233-244 | two values sort to the same value exactly when they agree up to the order of keys at every depth |
| `CanonicalJson.CanonicalInjective` | packages/contracts/src/device-identity.ts:233-254 | two values have the same canonical text exactly when they agree up to key order |
| `CanonicalJson.ParseCanonical` | packages/contracts/src/device-identity.ts:251-254 | parsing a canonical text returns the value with its keys sorted |
| `CanonicalJson.CanonicalIdempotent` | packages/contracts/src/edge-runtime.ts:313-324 | canonicalising what was parsed from a canonical text gives the text back |
| `KeyOrder.KeyOrderMeans` | packages/contracts/src/device-identity.ts:233-244 | the order of keys in a printed object: array indices first, by number; every other key after them, by its first differing code unit |
| `JsonShortest.PrintedIsShortest` | packages/contracts/src/device-identity.ts:251-254 | no text the reader reads as the value is shorter than the printed one, so no space, escape or zero in it can be left out; for strings without lone surrogates |
| `JsonShortest.CanonicalIsShortest` | packages/contracts/src/device-identity.ts:233-254 | no text that reads as the value up to key order is shorter than its canonical text |
| `JsonShortest.CanonicalKeysAscend` | packages/contracts/src/device-identity.ts:233-254 | the canonical text reads back as the same value with the keys of every object, at every depth, in the order above |
| `JsonShortest.ShortEscapesArePrescribed` | packages/contracts/src/device-identity.ts:251-254 | the seven two-character escapes of section 25.5.2 of ECMA-262, each by its letter |
| `JsonShortest.HexEscapesArePrescribed` | packages/contracts/src/device-identity.ts:251-254 | every other control character and every lone surrogate is written as four lower-case hexadecimal digits |
| `JsonGuard.AssertJsonSafe` | packages/contracts/src/device-identity.ts:169-205 | the walk with a mutable path set ends on every finite graph, gives the verdict of the specification, and on acceptance leaves the path set as it found it |
| `JsonGuard.AssertDenseJsonArray` | packages/contracts/src/device-identity.ts:207-231 | the same for arrays: holes, extra members, accessors and symbols are refused; the path set is restored on acceptance |
| `JsonGuardExactness.GuardIsExact` | packages/contracts/src/device-identity.ts:157-231 | the guard accepts exactly when no walk meets an object twice and everything any walk reaches is representable; sharing without a cycle is accepted |
| `JsonGuardExactness.CanonicalDeviceJson` | packages/contracts/src/device-identity.ts:251-254 | a value the guard refuses has no text; the text of an accepted one reads back as what the heap holds: the same leaves, arrays of the same length slot by slot, objects with the same keys |
| `JsonGuardExactness.UnfoldWellFormed` | packages/contracts/src/device-identity.ts:169-231 | every accepted graph unfolds to a finite tree with distinct keys, which is what the printing theorems need |
| `JsonGuardExactness.GraphsShareTextIffSameValue` | packages/contracts/src/device-identity.ts:169-254 | two accepted graphs, however shared, have one text exactly when some JSON value is what both of them hold |
| `JsonGuardExactness.TextSaysWhatTheGraphHolds` | packages/contracts/src/device-identity.ts:169-254 | what an accepted text reads as agrees with the heap at every depth, and nothing else does up to key order |
| `JsonGuardExactness.HeldValueDecidesText` | packages/contracts/src/device-identity.ts:169-254 | whatever JSON value an accepted graph holds, its text is the canonical text of that value |
| `StoredOperation.FixpointIffPrinted` | packages/contracts/src/edge-runtime.ts:294-324 | over JSON with whole numbers: a text parses and is unchanged by canonicalisation exactly when it is the canonical text of some value |
| `StoredOperation.AcceptedIffCanonical` | packages/contracts/src/edge-runtime.ts:247-339 | over payloads with whole numbers: an entry is admitted exactly when state and settlement agree, a receipt names an operation, and the payload is a canonical text with the signed digest |
| `StoredOperation.PayloadIssueMeaning` | packages/contracts/src/edge-runtime.ts:298-324 | over payloads with whole numbers: which of the two payload complaints is raised, unreadable text or readable text that is no canonical text; a number with a fraction or an exponent counts as unreadable here |
| `StoredOperation.OtherIssuesMeaning` | packages/contracts/src/edge-runtime.ts:247-339 | when each of the other four complaints is raised |
| `StoredOperation.AcceptedValueIsUnique` | packages/contracts/src/edge-runtime.ts:294-339 | an admitted payload stands for one value up to key order and reads back as it, sorted |
| `SignedRecord.TextDecidesFields` | packages/contracts/src/device-identity.ts:233-254 | two records over the same names have one text exactly when every field agrees up to key order |
| `SignedRecord.TextDecidesLeaves` | packages/contracts/src/device-offline.ts:303-327 | for records of strings and numbers the text decides every field |
| `SignedRecord.RecordSays` | packages/contracts/src/device-identity.ts:251-274 | a record text, read back, holds exactly its fields, each value under its own name |
| `SignedRecord.RecordTextIsCanonical` | packages/contracts/src/device-identity.ts:251-274 | a statement's bytes survive parsing and canonicalising unchanged |
| `SignedRecord.DomainsApart` | packages/contracts/src/device-offline.ts:140-147 | records with different domain tags never have equal bytes, whatever their other fields |
| `DomainSeparation.KindsNeverMeet` | packages/contracts/src/device-identity.ts:752-828 | over every tagged record of the five protocols: statements, fingerprints and replay keys of different kinds never have equal bytes |
| `Base64Url.EncodeShape` | packages/contracts/src/device-signature.ts:248-255 | encoding yields alphabet characters only, one per started sextet, without padding |
| `Base64Url.EncodeSpellsTheNumber` | packages/contracts/src/device-signature.ts:248-255 | the text is symbols of the alphabet of RFC 4648, in its order, whose places are the base-64 digits of the number the bytes spell, filled with zero bits at the end |
| `Base64Url.DecodeEncode` | packages/contracts/src/device-signature.ts:201-255 | decoding an encoding gives the bytes back |
| `Base64Url.EncodeDecode` | packages/contracts/src/device-signature.ts:201-212 | re-encoding a decoded text gives it back exactly when its trailing bits are zero |
| `P256.BytesToBigInt` | packages/contracts/src/device-signature.ts:171-175 | the accumulating loop computes the big-endian value |
| `P256.FirstByteIsMostSignificant` | packages/contracts/src/device-signature.ts:171-175 | that value is the first byte times the power of 256 that stands for the rest, plus the value of the rest |
| `P256.BigIntToScalarBytes` | packages/contracts/src/device-signature.ts:177-185 | the loop from the last byte down fills exactly the 32 big-endian bytes |
| `P256.DecodeCanonicalP256Signature` | packages/contracts/src/device-signature.ts:187-225 | computes the decoding, refusals included, that the theorems below are about |
| `P256.EncodeCanonicalP256Signature` | packages/contracts/src/device-signature.ts:247-255 | computes the encoding, range errors included, that the theorems below are about |
| `P256.DecodeAfterEncode` | packages/contracts/src/device-signature.ts:201-255 | decoding an encoded pair gives the pair back |
| `P256.RIsFirst` | packages/contracts/src/device-signature.ts:201-255 | the raw text of a pair carries 64 bytes: 32 that spell r, then 32 that spell s |
| `P256.EncodeAfterDecode` | packages/contracts/src/device-signature.ts:201-255 | encoding a decoded text gives the text back, and every accepted text has 86 characters |
| `P256.SignatureBijection` | packages/contracts/src/device-signature.ts:90-101 | accepted texts and pairs with 1 <= r < n and 1 <= s <= n / 2 are in bijection, in both directions |
| `P256.OneOfTwoAccepted` | packages/contracts/src/device-signature.ts:227-245 | of s and n - s exactly one is accepted on the wire, and the signer-side conversion returns it from either |
| `P256.OneSpellingPerKey` | packages/contracts/src/device-signature.ts:305-336 | a point in the field range has exactly one accepted spelling, of 87 characters |
| `P256.KeyBytes` | packages/contracts/src/device-signature.ts:305-336 | an accepted key carries 65 bytes: 0x04, then 32 that spell x, then 32 that spell y |
| `DeviceTime.ParseAuthoritativeInstants` | packages/contracts/src/device-identity.ts:84-97 | the loop returns a record of every instant under its own key, or nothing as soon as one text is unreadable |
| `OneShot.HonestReports` | packages/contracts/src/device-identity.ts:704-752 | which answer the classifier gives for which stored row, and that its report is consistent except on a retry whose stored reference is blank |
| `OneShot.ConsistentExactly` | packages/contracts/src/device-identity.ts:650-704 | a report is consistent exactly when it is our own store's, names slot and bytes, and names a non-blank outcome exactly as a duplicate |
| `RequestProof.StatementInjective` | packages/contracts/src/device-context.ts:226-305 | two proofs are signed as the same bytes exactly when every field but the claimed profile agrees, under the same server-resolved profile |
| `RequestProof.StatementSays` | packages/contracts/src/device-context.ts:226-305 | which value stands under which name in the signed statement, read back |
| `RequestProof.ReplayKeyInjective` | packages/contracts/src/device-context.ts:307-368 | two proofs share a slot exactly when organisation, site, actor, device, key version and nonce agree |
| `RequestProof.DecisionExact` | packages/contracts/src/device-context.ts:594-734 | the ladder of refusals as one rule, the trust each purpose demands written out: PROCEED on a new slot, CONVERGE on the reported reference, and possession blamed exactly when it alone is missing |
| `RequestProof.RefusalsAreTrue` | packages/contracts/src/device-context.ts:594-734 | a refusal is never given for a defect that is not there: what each refusal code says is wrong, and that it is |
| `RequestProof.OnlyFittingTrustIsAdmitted` | packages/contracts/src/device-context.ts:437-462 | from the decision alone: TRUSTED may attempt everything, DEGRADED everything but the covert channel, SUSPICIOUS and OFFLINE the handshake only; a QUARANTINED or COMPROMISED device is refused under every purpose and mode |
| `RequestProof.StolenContextIsRefusedForPossession` | packages/contracts/src/device-context.ts:699-733 | anything admitted with possession is refused for lack of possession without it |
| `RequestProof.RetryConverges` | packages/contracts/src/device-context.ts:699-733 | a proof that proceeded converges, on the stored reference, once its slot reports these bytes |
| `RequestProof.ModesDifferByActorAuthority` | packages/contracts/src/device-context.ts:594-734 | the two modes admit the same proofs up to the actor's own authority |
| `RequestProof.PurposesDoNotCross` | packages/contracts/src/device-context.ts:136-171 | a proof made for one purpose is refused for every other |
| `RequestProof.TrustOnlyGates` | packages/contracts/src/device-context.ts:430-462 | among the trust levels a purpose permits, the level decides nothing else |
| `RequestProof.QueueOpensExactlyWhen` | packages/contracts/src/device-context.ts:857-1041 | reconnect then queue admission: a queue opens exactly for the proved identity, unchanged key and context, and actor, site and trust as they are at the second decision |
| `RequestProof.ProvingIdentityIsNotPermission` | packages/contracts/src/device-context.ts:818-1041 | a SUSPICIOUS or OFFLINE device still authenticates as before, and its queue stays shut |
| `OfflineOperation.StatementInjective` | packages/contracts/src/device-offline.ts:205-273 | two envelopes are signed as the same bytes exactly when every field but the claimed profile agrees, under the same profile |
| `OfflineOperation.StatementSays` | packages/contracts/src/device-offline.ts:205-273 | which value stands under which name in the signed envelope, read back |
| `OfflineOperation.ReplayKeyInjective` | packages/contracts/src/device-offline.ts:275-327 | two envelopes share a slot exactly when organisation, site, actor, device, key version and nonce agree |
| `OfflineOperation.DecisionExact` | packages/contracts/src/device-offline.ts:682-920 | effect, convergence or refusal as one rule, with the instant that established it: the Edge's trusted time exactly for the kinds that need a witness, the server's own reading otherwise |
| `OfflineOperation.RefusalsAreTrue` | packages/contracts/src/device-offline.ts:682-920 | a refusal is never given for a defect that is not there: what each refusal code says is wrong, and that it is |
| `OfflineOperation.RetryConverges` | packages/contracts/src/device-offline.ts:905-920 | an operation that proceeded converges on the stored reference when its slot reports these bytes |
| `OfflineOperation.CreatedAtIsNotAuthority` | packages/contracts/src/device-offline.ts:682-920 | re-dating an admitted operation on the device changes neither the answer nor the instant it rests on |
| `Enrolment.RequestFingerprintInjective` | packages/contracts/src/device-identity.ts:1232-1261 | two enrolment requests share a fingerprint exactly when they are equal, attestation evidence included |
| `Enrolment.RequestSays` | packages/contracts/src/device-identity.ts:1232-1261 | which value stands under which name in the fingerprinted request, read back, down to the attestation |
| `Enrolment.GrantReplayKeyInjective` | packages/contracts/src/device-identity.ts:809-828 | two grants share a slot exactly when organisation, site, intended user and grant id agree |
| `Enrolment.ChallengeReplayKeyInjective` | packages/contracts/src/device-identity.ts:752-808 | two challenges share a slot exactly when organisation, site, intended user, request, challenge and nonce agree |
| `Enrolment.PossessionSays` | packages/contracts/src/device-identity.ts:1347-1387 | which value stands under which name in the statement the new key signs, read back |
| `Enrolment.ReachesEffect` | packages/contracts/src/device-identity.ts:1602-1793 | the ladder reaches its effect rule exactly under the conjunction of all ceremony facts, in whatever order it asks for them |
| `Enrolment.DecisionExact` | packages/contracts/src/device-identity.ts:1733-1793 | COMMIT exactly when the ceremony holds and neither slot is spent; CONVERGE exactly when the spent ones name one outcome |
| `Enrolment.RefusalsAreTrue` | packages/contracts/src/device-identity.ts:1602-1793 | a refusal is never given for a defect that is not there: what each refusal code says is wrong, and that it is |
| `Enrolment.RetryConverges` | packages/contracts/src/device-identity.ts:1733-1793 | a committed enrolment repeated on slots that name one outcome converges on it |
| `Enrolment.CommitChronology` | packages/contracts/src/device-identity.ts:119-141 | every admitted enrolment has grant <= request <= approval <= challenge <= verification <= now, all within less than 600 000 ms |
| `Enrolment.ExpiredRequestPredatesGrant` | packages/contracts/src/device-identity.ts:1136-1144 | the request limit fires only for a request made more than five minutes before its grant |
| `KeyRotation.RequestFingerprintIsStatement` | packages/contracts/src/device-key-rotation.ts:160-200 | the request fingerprint is a canonical record text over distinct names and never blank |
| `KeyRotation.RequestFingerprintInjective` | packages/contracts/src/device-key-rotation.ts:178-200 | two rotation requests share a fingerprint exactly when they are equal |
| `KeyRotation.RequestSays` | packages/contracts/src/device-key-rotation.ts:160-200 | which value stands under which name in the proposal, read back |
| `KeyRotation.PossessionSays` | packages/contracts/src/device-key-rotation.ts:264-302 | which value stands under which name in the statement the new key signs, read back |
| `KeyRotation.ReplayKeyInjective` | packages/contracts/src/device-key-rotation.ts:384-412 | two rotations share a slot exactly when the nine identifying fields agree |
| `KeyRotation.DecisionExact` | packages/contracts/src/device-key-rotation.ts:516-697 | ROTATE exactly when the ceremony holds on a new slot, from the version in force; CONVERGE exactly on an exact retry while that version is in force |
| `KeyRotation.RefusalsAreTrue` | packages/contracts/src/device-key-rotation.ts:516-697 | a refusal is never given for a defect that is not there: what each refusal code says is wrong, and that it is |
| `KeyRotation.RetryConverges` | packages/contracts/src/device-key-rotation.ts:667-697 | with the same server facts an exact retry converges on the stored reference |
| `KeyRotation.SupersededRotationIsRefused` | packages/contracts/src/device-key-rotation.ts:576-592 | once the version in force has moved on, the rotation is refused, retry or not |
| `WhisperAction.StatementInjective` | packages/contracts/src/whisper-device-action-v2.ts:323-430 | two submissions, their confidence a whole number of a fixed unit, are signed as the same bytes exactly when they are equal under the same profile |
| `WhisperAction.StatementSays` | packages/contracts/src/whisper-device-action-v2.ts:323-430 | which value stands under which name in the signed submission, read back |
| `WhisperAction.ReplayKeyInjective` | packages/contracts/src/whisper-device-action-v2.ts:474-520 | two submissions share a slot exactly when the eight identifying fields agree |
| `WhisperAction.DecisionExact` | packages/contracts/src/whisper-device-action-v2.ts:634-781 | PROCEED exactly when authentic, possessed and new; that a slot was spent on these very bytes is told only to a holder of the key |
| `WhisperAction.RefusalsAreTrue` | packages/contracts/src/whisper-device-action-v2.ts:634-781 | a refusal is never given for a defect that is not there: what each refusal code says is wrong, and that it is |
| `WhisperAction.RetryIsRefused` | packages/contracts/src/whisper-device-action-v2.ts:740-780 | a repeated action is refused as spent and never confirmed |
| `WhisperAction.KeylessAnswerDependsOnSlotExactlyWhen` | packages/contracts/src/whisper-device-action-v2.ts:745-767 | what a caller without the key can learn: the answer on a spent slot differs from that on an empty one exactly when all but possession holds and the slot holds other bytes or a blank reference |
| `WhisperAction.ChangedActionIsToldApart` | packages/contracts/src/whisper-device-action-v2.ts:757-767 | the failing case: the same action under another action id, without the key, is answered differently once the original was received |
| `WhisperAction.SomeAnswerDependsOnSlot` | packages/contracts/src/whisper-device-action-v2.ts:757-767 | a concrete input of that case |
| `ReplayStore.EffectNeedsFreshSlots` | packages/contracts/src/device-context.ts:330-345 | across all five evaluators: an effect is decided only when no slot of the request is occupied |
| `ReplayStore.ConvergenceNamesTheStoredOutcome` | packages/contracts/src/device-identity.ts:708-752 | whoever converges is told the reference that every occupied slot of its own holds, under these very bytes |
| `ReplayStore.ExactRetryConverges` | packages/contracts/src/device-identity.ts:708-752 | the same request over a store holding its own effect converges on it; the covert action alone is declined |
| `ReplayStore.AtMostOneEffectPerSlot` | packages/contracts/src/device-context.ts:336-343 | over every interleaving of read, decide and commit, with blank references too: a slot has at most one effect and names it ever after |
| `ReplayStore.LaterAdmissionsConverge` | packages/contracts/src/device-context.ts:699-733 | every later admission of an occupied slot has no effect, and if admitted carries the first effect's bytes and reference |
| `ReplayStore.UncontestedCommitSucceeds` | packages/contracts/src/device-context.ts:336-343 | a decided effect nobody contests does commit, so the guard does not win by refusing everything |
| `EdgeQueue.AdmitKeeps` | services/edge-runtime/src/modules/queue/edge-queue.store.ts:791-900 | admission changes nothing central answered; an admitted envelope is accounted for at its position |
| `EdgeQueue.AdmittedExactlyWhen` | services/edge-runtime/src/modules/queue/edge-queue.store.ts:791-900 | what admission asks for, written out with its limits, and the entry it then stores; otherwise nothing changes |
| `EdgeQueue.MoveIsLocal` | services/edge-runtime/src/modules/queue/edge-queue.store.ts:944-1100 | no local move between states loses an entry or touches an answer |
| `EdgeQueue.MovesOfAnUnsettledEntry` | services/edge-runtime/src/modules/queue/edge-queue.state.ts:245-275 | from every state an unsettled entry can be in, which moves exist and what each writes; a move that does not exist changes nothing |
| `EdgeQueue.AttemptIsPossible` | services/edge-runtime/src/modules/queue/edge-queue.store.ts:944-1040 | every unsettled entry can be put under way, whatever the wire left it in |
| `EdgeQueue.SettleRecordsTheAnswer` | services/edge-runtime/src/modules/queue/edge-queue.store.ts:1102-1143 | an entry under way ends with exactly the answer given, in the state that answer determines; a settled entry and every other entry are left alone |
| `EdgeQueue.SettleKeeps` | services/edge-runtime/src/modules/queue/edge-queue.store.ts:1108-1143 | settling adds central's answer to that entry alone and alters no other answer |
| `EdgeQueue.ReclaimKeeps` | services/edge-runtime/src/modules/queue/edge-queue.store.ts:751-789 | exactly the entries carrying an answer are reclaimed; they leave the queue and stay on record |
| `EdgeQueue.RecoverKeeps` | services/edge-runtime/src/modules/queue/edge-queue.store.ts:424-446 | recovery after a crash makes exactly the attempts in flight UNKNOWN, changes no other entry and settles nothing |
| `EdgeProtocol.ApplySound` | packages/contracts/src/edge-runtime.ts:60-181 | every step of device, Edge, link and central keeps the joint invariant and only extends the record |
| `EdgeProtocol.NoOperationDisappears` | packages/contracts/src/edge-runtime.ts:96-181 | under loss, duplication, reordering, timeout and crash, an admitted operation is queued or carries central's answer, and TERMINAL means exactly the latter |
| `EdgeProtocol.QueuedCanBeBroughtToAnEnd` | packages/contracts/src/edge-runtime.ts:96-181 | from every reachable state a queued operation can be driven to TERMINAL by a list of events that is constructed, with the answer central then holds for it |
| `EdgeProtocol.AcceptedNamesTheStoredOutcome` | packages/contracts/src/edge-runtime.ts:247-275 | a TERMINAL accepted entry names the outcome central stores for that slot and those bytes, now and in every later state, with one effect behind it |
| `EdgeProtocol.RefusedEntriesWereDeclined` | packages/contracts/src/edge-runtime.ts:247-275 | a TERMINAL refused entry carries, in every later state, a refusal central gave to that very envelope at some step of the run |
| `EdgeProtocol.EachEnvelopeTakesEffectAtMostOnce` | packages/contracts/src/device-offline.ts:732-920 | however often an envelope is delivered, its slot has at most one effect |
| `EdgeProtocol.AcceptancesAgree` | packages/contracts/src/edge-runtime.ts:247-275 | two accepted entries for one envelope carry one answer |
| `TextSort.SortEqualIffSameElements` | packages/contracts/src/field-offline.ts:283-297 | sorted id lists are equal exactly when they hold the same ids as often |
| `OfflineRequest.SemanticRequestDecides` | packages/contracts/src/field-offline.ts:244-334 | two operations have one semantic fingerprint exactly when they agree in namespace and content up to key order and order of ids |
| `OfflineRequest.SemanticSays` | packages/contracts/src/field-offline.ts:299-334 | the semantic request read back: the authenticated namespace, the operation's fields under their names, the payload with its recipients sorted |
| `OfflineRequest.TraceIsNotSemantic` | packages/contracts/src/field-offline.ts:299-321 | the trace id does not enter the fingerprint |
| `OfflineCursor.ApplySound` | services/core-api/src/modules/field-offline/field-offline.repository.ts:376-510 | every step of submitting, claiming, executing, probing and finalising keeps the invariant, and the cursor moves only by one, only on a finalisation at the expected position |
| `OfflineCursor.FinalizedPrefixIsImmutable` | packages/contracts/src/field-offline.ts:197-242 | finalised positions are exactly 0 up to the cursor, their receipts never change, and nothing passes the largest safe integer |
| `OfflineCursor.AtMostOneEffectPerPosition` | services/core-api/src/modules/field-offline/field-offline.service.ts:368-516 | a position has at most one domain effect, and an APPLIED receipt has one |
| `OfflineCursor.Resubmission` | services/core-api/src/modules/field-offline/field-offline.service.ts:269-353 | at a finalised position the same request is told the stored outcome and a changed one is refused; neither changes anything |
| `OfflineCursor.AnsweredExactlyWhen` | services/core-api/src/modules/field-offline/field-offline.service.ts:269-353 | which of the seven answers a submission gets in every reachable state; the refusal for an outcome not yet known is never reached |
| `OfflineCursor.NothingLeapfrogs` | packages/contracts/src/field-offline.ts:215-242 | a submission anywhere but at the next position changes nothing; ahead of it, it is refused |
| `OfflineCursor.FreshOperationIsTaken` | services/core-api/src/modules/field-offline/field-offline.service.ts:269-516 | in every reachable state a parsed operation at the next position under an unused id is taken, and three events bring it to APPLIED: its receipt, its one effect after all others, and the cursor on it |
| `OfflineCursor.OpenReceiptCanBeFinished` | services/core-api/src/modules/field-offline/field-offline.service.ts:355-630 | in every reachable state an open receipt, stuck in whatever status, can be brought to APPLIED with exactly one effect behind it |
| `OfflineCursor.OrderedIffNoneOvertaken` | services/core-api/src/modules/field-offline/field-offline.service.ts:368-516 | domain effects occur in strictly increasing order exactly in the runs where no rejected position is committed after a later one took effect |
| `OfflineCursor.HonestIffTimely` | services/core-api/src/modules/field-offline/field-offline.service.ts:355-630 | no effect stands at a position reported as rejected exactly in the runs without a late commit or a stale rejection, and then effects are in order too |
| `OfflineCursor.EffectsInOrderUnderClaims` | services/core-api/src/modules/field-offline/field-offline.repository.ts:376-418 | if workers commit only while they hold the claim, effects are in order and agree with their receipts in every run |
| `OfflineCursor.LateWorkerBreaksOrder` | services/core-api/src/modules/field-offline/field-offline.service.ts:551-630 | nine events, two operations: an expired worker commits position 0 after position 1 took effect, and the effects stand at 1, 0 |
| `OfflineCursor.LateWorkerContradictsItsReceipt` | services/core-api/src/modules/field-offline/field-offline.service.ts:551-630 | six events, one operation: an expired worker commits the position its successor had rejected |
| `RotationRuns.ApplySound` | services/core-api/src/modules/shield/device-key.service.ts:426-698 | every step of enrolment, revocation, decision and fenced commit keeps the registry invariant and only extends it |
| `RotationRuns.OneCurrentKey` | packages/contracts/src/device-identity.ts:425-468 | versions are exactly 1 up to the current one, and no device ever has two CURRENT keys |
| `RotationRuns.StatesMoveDownhill` | packages/contracts/src/device-identity.ts:445-454 | a key's state only moves down the lifecycle table; a key that left CURRENT never returns |
| `RotationRuns.OneRotationPerVersion` | packages/contracts/src/device-key-rotation.ts:543-697 | over every run at most one rotation leaves a given version of a device |
| `RotationRuns.SupersededVersionIsRefusedForever` | packages/contracts/src/device-context.ts:655-666 | after a rotation, in every later state, request proofs, queued operations and covert actions bound to the older version are refused |
| `RotationRuns.LoserOfTheRaceCannotCommit` | services/core-api/src/modules/shield/device-key.service.ts:520-640 | of two rotations decided from one version, the second commit changes nothing |
| `RotationRuns.UncontestedRotationReplacesTheKey` | services/core-api/src/modules/shield/device-key.service.ts:414-698 | in every reachable state a rotation decided and committed with nothing in between makes the CURRENT key ROTATED, the proposed one CURRENT with the pointer on it, spends the slot on these bytes, and moves nothing else |
| `RotationRuns.WithdrawalReachesOneKey` | packages/contracts/src/device-identity.ts:445-454 | a withdrawal changes one key row and only downwards, by the lifecycle table written out |
| `DeviceLineage.NamespaceInjective` | packages/contracts/src/device-identity.ts:1968-1989 | two devices never share a sequence namespace, in one organisation or across two |
| `DeviceLineage.ClassificationExact` | packages/contracts/src/device-identity.ts:2037-2095 | a key change is a rotation exactly when the credential continues in its own namespace at a higher version, a new identity exactly when it does not continue |
| `DeviceLineage.ChangesTakeEffect` | packages/contracts/src/device-identity.ts:2037-2095 | what each kind of change does to such a registry: the key replaced, the identity retired and its successor enrolled at version 1, or nothing |
| `DeviceLineage.NoSequenceReset` | packages/contracts/src/device-identity.ts:1968-1989 | over every run of a registry that gives new identities fresh ids and computed namespaces: two keys in one namespace belong to one device, the later with the higher version |
| `DeviceLineage.RetiredIdentityIsGone` | packages/contracts/src/device-identity.ts:2059-2078 | over every run of such a registry: a retired identity is never in use again and gets no further key |
| `RevokedOperation.CommittedOnlyAsItself` | packages/contracts/src/device-offline.ts:1066-1124 | against the record of a committed envelope, a queued one is resolved as committed exactly when it is that operation field for field; a reused id is a conflict |
| `RevokedOperation.ResolvesExactlyWhen` | packages/contracts/src/device-offline.ts:1066-1124 | against any single piece of evidence: committed exactly when id, fingerprint, organisation and site all agree, a conflict when only the id does, and otherwise by how the device was lost |
| `RevokedOperation.ResolvedExactlyFromRecords` | packages/contracts/src/device-offline.ts:985-1124 | against all of Sentinel's records: resolved as committed exactly when they hold that very operation, a conflict exactly when they hold its id for another, and never on no record |
| `RevokedOperation.RevokedCredentialIsRefused` | packages/contracts/src/device-offline.ts:751-789 | either record of a revocation, or a key no longer CURRENT, refuses every operation |
| `ConstitutionPolicy.ContentIgnoresKeyOrder` | services/core-api/src/modules/constitution/constitution.hash.ts:24-53 | policies that differ only in stored key order have one content text |
| `ConstitutionPolicy.ContentDecidesPolicy` | services/core-api/src/modules/constitution/constitution.hash.ts:24-53 | two policies have one content text exactly when they agree up to stored key order, so the hash tells any other two apart |
| `ConstitutionPolicy.CoherenceIgnoresKeyOrder` | services/core-api/src/modules/constitution/constitution.validation.ts:65-135 | validity does not depend on stored key order |
| `ConstitutionPolicy.ShapeIgnoresKeyOrder` | services/core-api/src/modules/constitution/constitution.policy.ts:43-80 | nor does passing the body schema |
| `ConstitutionPolicy.ShapeFindsEmptyNames` | services/core-api/src/modules/constitution/constitution.policy.ts:43-80 | the body schema, over typed bodies, refuses exactly those that hold an empty text where a name or a description is asked for |
| `ConstitutionEngine.Evaluate` | services/core-api/src/modules/constitution/constitution.engine.ts:806-868 | all twelve checks run in order, every failed check is among the reasons and no passed one is, and the first reason explains the decision |
| `ConstitutionEngine.AllowExactlyWhen` | services/core-api/src/modules/constitution/constitution.engine.ts:671-868 | ALLOW exactly when the declarative rule holds, DENY exactly when a merit is missing, the merits spelled out with their levels and trust states |
| `ConstitutionEngine.DecisionReadOffTheRecords` | services/core-api/src/modules/constitution/constitution.engine.ts:258-868 | every decision read off the records of policy and request without a word of the checks: DENY off the merits, and on them the answer of the category's own requirement to whether the people it asks for have agreed |
| `ConstitutionEngine.TwoPersonsStandBehindIt` | services/core-api/src/modules/constitution/constitution.engine.ts:371-416 | under two-person control an ALLOW has two approvals with different normalised ids, neither the actor's, each by the holder of a role the category authorises |
| `ConstitutionEngine.SelfApprovalBlocks` | services/core-api/src/modules/constitution/constitution.engine.ts:411-416 | one approval by the actor under any spelling of the id rules ALLOW out |
| `ConstitutionEngine.ProhibitedIsDenied` | services/core-api/src/modules/constitution/constitution.engine.ts:806-868 | a prohibited action is DENY under every policy and every request |
| `ConstitutionEngine.ApprovalsAreASet` | services/core-api/src/modules/constitution/constitution.engine.ts:376-416 | permuting or repeating approvals changes no decision |
| `ConstitutionEngine.ClaimsAreNotRead` | services/core-api/src/modules/constitution/constitution.engine.ts:382-400 | the role and time an approval claims for itself change no decision |
| `ConstitutionEngine.DecisionIgnoresKeyOrder` | services/core-api/src/modules/constitution/constitution.engine.ts:258-264 | the stored key order of the policy changes no decision |
| `ConstitutionValidation.DanglingCategories` | services/core-api/src/modules/constitution/constitution.validation.ts:65-80 | the first loop reports exactly the actions whose category does not exist |
| `ConstitutionValidation.GrantIssues` | services/core-api/src/modules/constitution/constitution.validation.ts:82-104 | the inner loop over one role's grants reports exactly that role's violations |
| `ConstitutionValidation.RoleIssues` | services/core-api/src/modules/constitution/constitution.validation.ts:82-104 | the loop over roles reports exactly the unregistered and the prohibited grants |
| `ConstitutionValidation.CategoryIssues` | services/core-api/src/modules/constitution/constitution.validation.ts:106-132 | the inner loop reports exactly one category's approval violations |
| `ConstitutionValidation.ApprovalIssues` | services/core-api/src/modules/constitution/constitution.validation.ts:106-132 | the loop over categories reports exactly the empty and the unregistered approval roles |
| `ConstitutionValidation.ValidatePolicy` | services/core-api/src/modules/constitution/constitution.validation.ts:65-135 | the issues are exactly the violations of the five rules, so none means valid and valid means none |
| `ConstitutionValidation.GrantedActionsCanBeAllowed` | services/core-api/src/modules/constitution/constitution.engine.ts:775-868 | in a valid policy every granted action, if its category can meet its own demand for diversity, has a request that is answered ALLOW |
| `ConstitutionValidation.DiversityWithoutRolesNeverAllows` | services/core-api/src/modules/constitution/constitution.engine.ts:671-752 | a category that demands diversity of fewer than two roles never yields ALLOW |
| `ConstitutionValidation.UngrantedNeverAllows` | services/core-api/src/modules/constitution/constitution.engine.ts:806-868 | an action no role is granted is always DENY |
| `ConstitutionValidation.AllowableExactlyWhen` | services/core-api/src/modules/constitution/constitution.validation.ts:61-135 | exactly which actions of a valid policy can be allowed at all |
| `ConstitutionStore.Repository.CreateDraft` | services/core-api/src/modules/constitution/constitution.repository.ts:150-162 | adds one draft of a valid policy under an unused version, and changes nothing otherwise |
| `ConstitutionStore.Repository.Activate` | services/core-api/src/modules/constitution/constitution.repository.ts:170-201 | retires the active row and activates the named draft together, or changes nothing |
| `ConstitutionStore.Repository.SeedBaselineOnce` | services/core-api/src/modules/constitution/constitution.repository.ts:250-273 | seeds only an empty table; a conflict leaves the table to the other writer |
| `ConstitutionStore.Repository.EnsureBaselineSeeded` | services/core-api/src/modules/constitution/constitution.repository.ts:217-248 | at most five attempts; a normal return means a non-empty table; giving up means five conflicts |
| `ConstitutionStore.Service.LoadStored` | services/core-api/src/modules/constitution/constitution.service.ts:153-182 | a row loads exactly when its body has the shape, is valid and hashes to what was stored |
| `ConstitutionStore.LoadedIsWhatWasHashed` | services/core-api/src/modules/constitution/constitution.service.ts:153-182 | under the hash of a policy a row loads exactly when it holds that policy up to key order under its own version; anything else of valid shape is an integrity error |
| `ConstitutionStore.Service.Reload` | services/core-api/src/modules/constitution/constitution.service.ts:143-151 | after a normal return the loaded policy is the active row of a non-empty table; a failure keeps the old one; the first boot on an empty table seeds the baseline and loads it |
| `ConstitutionStore.Service.Decided` | services/core-api/src/modules/constitution/constitution.service.ts:202-229 | no decision is returned that is not in the ledger first, under the loaded version and hash |
| `ConstitutionStore.Service.ActivatePolicy` | services/core-api/src/modules/constitution/constitution.service.ts:236-268 | the attempt is ledgered before anything; without ALLOW neither rows nor loaded policy move; rows change only by activating a stored valid version; and an allowed activation of a version that loads and can be activated does so and puts that policy in force |
| `ConstitutionStore.StoredDraftCanBeActivated` | services/core-api/src/modules/constitution/constitution.repository.ts:164-201 | a stored valid draft loads, can be activated, and ends as the one active row while the row in force retires |
| `ConstitutionStore.GateDemandsPlatformAuthority` | services/core-api/src/modules/constitution/constitution.service.ts:270-292 | under any policy an ALLOW of the alter action needs the platform organisation, clearance 3, a purpose and a trusted or degraded device |
| `ConstitutionRuns.ExactlyOneActive` | services/core-api/src/modules/constitution/constitution.repository.ts:125-273 | over every run: once seeded there is exactly one active row, and it is the last change |
| `ConstitutionRuns.RetiredIsAbsorbing` | services/core-api/src/modules/constitution/constitution.repository.ts:164-201 | rows keep version, author, hash and content, and a retired row stays retired |
| `ConstitutionRuns.ReloadAlwaysSucceeds` | services/core-api/src/modules/constitution/constitution.service.ts:143-182 | however the database reorders stored keys, the active row reloads without an integrity error |
| `ConstitutionRuns.EveryChangeWasAllowed` | services/core-api/src/modules/constitution/constitution.service.ts:236-268 | every activation but the bootstrap has its own ledgered ALLOW of the alter action, tied to it by position and not by the version activated, which the entry does not name |
| `Binary64.RoundError` | docs/execution/certification/artifacts/cert-s/threatState.ts:166-186 | rounding to the nearest double on the unit interval errs by at most half a unit in the last place below one |
| `Binary64.RoundIsDouble` | docs/execution/certification/artifacts/cert-s/threatState.ts:166-186 | what rounding yields is a double, subnormals included: rounding again changes nothing |
| `NoisyOr.NoisyOrGrows` | docs/execution/certification/artifacts/cert-s/threatState.ts:183-186 | in double precision one more weight never lowers the combined strength |
| `NoisyOr.SaturatesExactlyWhen` | docs/execution/certification/artifacts/cert-s/threatState.ts:166-186 | in double precision the combined strength is one exactly when the computed product of complements is at most 2^-54 |
| `NoisyOr.CertaintySaturates` | docs/execution/certification/artifacts/cert-s/threatState.ts:166-186 | one certain weight saturates the strength whatever follows |
| `NoisyOr.HalvesSaturate` | docs/execution/certification/artifacts/cert-s/threatState.ts:166-186 | fifty-four weights of one half saturate the strength in double precision, fifty-three do not |
| `NoisyOr.RoundingError` | docs/execution/certification/artifacts/cert-s/threatState.ts:183-186 | the product as computed differs from the exact product by at most one unit in the last place a weight |
| `NoisyOr.OrderError` | docs/execution/certification/artifacts/cert-s/threatState.ts:166-186 | two orders of the same weights differ in strength by at most 2n + 1 units in the last place |
| `ThreatState.AggregatesIgnoreOrder` | docs/execution/certification/artifacts/cert-s/threatState.ts:183-260 | diverse sources and ceiling depend only on the multiset of signals; in double precision the figures do so up to 2n + 3 units in the last place |
| `ThreatState.FiguresIgnoreOrder` | docs/execution/certification/artifacts/cert-s/threatState.ts:335-418 | two histories that accept the same signals as often record figures equal up to that rounding, and support the same state unless a threshold is within it |
| `ThreatState.StateIgnoresOrderOffThresholds` | docs/execution/certification/artifacts/cert-s/threatState.ts:211-250 | the order of signals can move the supported state only where a threshold is within the rounding error |
| `ThreatState.OrderMovesTheState` | docs/execution/certification/artifacts/cert-s/threatState.ts:335-384 | and there it does: four reports, in two orders, end in states 2 and 1 |
| `ThreatState.FiguresAreAggregates` | docs/execution/certification/artifacts/cert-s/threatState.ts:335-418 | after every history the recorded figures are those of the recorded signals and lie between 0 and 1 |
| `ThreatState.RecordedAreAccepted` | docs/execution/certification/artifacts/cert-s/threatState.ts:335-352 | every accepted signal, contradictions too, stays on record in order |
| `ThreatState.SupportNeverLowers` | docs/execution/certification/artifacts/cert-s/threatState.ts:354-384 | in double precision, after every history: a supporting signal lowers neither the probability nor the state, unless the state was 5 |
| `ThreatState.WhoCanWeighIn` | docs/execution/certification/artifacts/cert-s/threatState.ts:147-163 | what the trust weights amount to: only a trusted source can force de-escalation, only a trusted or a fully certain degraded one counts towards diversity |
| `ThreatState.FirstSignal` | docs/execution/certification/artifacts/cert-s/threatState.ts:346-384 | figures and state after the first supporting signal: the probability is its weight up to one unit in the last place, and the state stops at 2, from a suspicious source at 1 |
| `ThreatState.StrongContradictionLowers` | docs/execution/certification/artifacts/cert-s/threatState.ts:362-384 | a strong contradiction that does not pass the gate strictly lowers any state above 0 |
| `ThreatState.SeverityMonotone` | docs/execution/certification/artifacts/cert-s/threatState.ts:262-296 | severity never becomes less urgent as state or impact rises; and which states and impacts have which severity |
| `ThreatState.TransitionsChain` | docs/execution/certification/artifacts/cert-s/threatState.ts:386-408 | the transition log leads without a gap from 0 to the current state |
| `ThreatState.TransitionsTellWhy` | docs/execution/certification/artifacts/cert-s/threatState.ts:386-408 | each change of state is logged once, with whether the gate, a strong contradiction or missing corroboration decided it |
| `ThreatState.QuarantineOnlyRecords` | docs/execution/certification/artifacts/cert-s/threatState.ts:335-343 | erasing quarantined signals from a history changes the list of ignored signals and nothing else |
| `ThreatState.TopStateIsTheGate` | docs/execution/certification/artifacts/cert-s/threatState.ts:370-384 | state 5 holds exactly when the last accepted signal was a qualified life-safety signal that left at least the 0.65 threshold, corroboration, and, if it contradicted strongly, a state of 4 or more before it |
| `ThreatState.StateIsReadOffTheRecord` | docs/execution/certification/artifacts/cert-s/threatState.ts:211-384 | where an accepted signal leaves a hypothesis, threshold by threshold: which probability and which corroboration each state takes, and what a strong contradiction adds |
| `ThreatState.SourcesThatCount` | docs/execution/certification/artifacts/cert-s/threatState.ts:221-227 | after every history exactly these sources stand behind a hypothesis: those of a supporting report, trusted at half confidence or more, or degraded in full certainty |
| `ThreatState.OneSourceStaysBelow` | docs/execution/certification/artifacts/cert-s/threatState.ts:221-260 | one supporting source without an authorised field report never exceeds state 2, whatever the volume |
| `Patrol.StepKeeps` | services/core-api/src/modules/patrol/patrol.repository.ts:639-1060 | start, call-off, abandonment, verification and sweep keep every row and the run valid under a clock that does not run backwards |
| `Patrol.StartingOpensTheRun` | services/core-api/src/modules/patrol/patrol.repository.ts:646-734 | a start by someone who may execute opens a scheduled run with every window counted from that instant; nothing else does |
| `Patrol.EndingEarly` | services/core-api/src/modules/patrol/patrol.repository.ts:736-853 | calling off ends a scheduled run, abandoning one in progress; its pending rows become MISSED or CANCELLED by their deadline and the decided ones stay |
| `Patrol.VerifyingDecides` | services/core-api/src/modules/patrol/patrol.repository.ts:893-1003 | an accepted verification writes state and receipt into its own row and completes the run exactly when no other row is pending; any other changes nothing |
| `Patrol.SweepingDecides` | services/core-api/src/modules/patrol/patrol.repository.ts:1005-1055 | the sweep makes an overdue pending row MISSED, completes the run exactly when it was the last, and does nothing else |
| `Patrol.ReachedInRouteOrder` | packages/contracts/src/field.ts:496-512 | two reached checkpoints were reached in the order of the route |
| `Patrol.StatusTellsTheRows` | packages/contracts/src/field.ts:528-535 | COMPLETED runs hold no PENDING and no CANCELLED row; a run is IN_PROGRESS exactly while a row is pending |
| `Patrol.AbandonmentIsExact` | packages/contracts/src/field.ts:514-526 | in an abandoned run an unreached checkpoint is MISSED exactly if its deadline had passed, CANCELLED otherwise |
| `Patrol.RowsAreHonest` | packages/contracts/src/field.ts:358-395 | every row passes its schema: receipts exactly on reached rows, inside the part of the window their state names, and the window is the one the start fixed |
| `Patrol.DecidedForever` | services/core-api/src/modules/patrol/patrol.repository.ts:893-1035 | no later event changes a row that has left PENDING |
| `Patrol.BothEnabledExactlyWhen` | packages/contracts/src/field.ts:463-494 | verification and sweep can both claim a pending row at one instant exactly when its window is stored out of order |
| `Patrol.VerifyAndSweepExclude` | services/core-api/src/modules/patrol/patrol.repository.ts:911-946 | in every reachable run they never both can, and a verification refused as expired leaves the row to the sweep |
| `Patrol.AcceptedExactlyWhen` | services/core-api/src/modules/patrol/patrol.repository.ts:893-955 | in every reachable run a verification is accepted exactly for a pending row with nothing pending before it, between opening and deadline, and is LATE exactly after the late mark |
| `Patrol.SweepingCompletes` | services/core-api/src/modules/patrol/patrol.repository.ts:1005-1055 | once all deadlines have passed, one sweep over the rows completes any run still in progress |
| `EdgeRoute.CheckCanonicalEdgeRequestRoute` | packages/contracts/src/edge-request.ts:170-188 | the early-return loop computes the check the theorems below are about |
| `EdgeRoute.JoinSplit` | packages/contracts/src/edge-request.ts:183-187 | splitting at slashes and rejoining gives the text back |
| `EdgeRoute.AcceptedExactlyFixedPoints` | packages/contracts/src/edge-request.ts:145-188 | a route is accepted exactly when it is a plain absolute path that dot-segment removal (section 5.2.4 of RFC 3986), slash collapsing, trailing-slash stripping and percent-decoding all leave unchanged |
| `EdgeRoute.NormalisationIsInjective` | packages/contracts/src/edge-request.ts:145-188 | no two different accepted routes normalise to the same path |
| `EdgeRoute.AcceptedSegments` | packages/contracts/src/edge-request.ts:183-187 | an accepted route is the join of non-empty segments, none a dot segment |
| `EdgeRoute.RefusalsInOrder` | packages/contracts/src/edge-request.ts:170-182 | which refusal a path gets: the first of the ordered tests it fails, each written out |
| `EdgeRoute.WhitespaceIsNeverReported` | packages/contracts/src/edge-request.ts:173-177 | the white-space refusal is unreachable behind the printable-ASCII one |

## Left out

- JSON numbers are whole numbers in the safe range; fractions, exponents and `-0` are not modelled, so a Whisper confidence is a whole number here and a payload holding a fraction is outside the stored-operation results.
- A key named `__proto__`, proxies, getters with effects and prototypes other than the plain one: the guard refuses or never meets them.
- SHA-256: a fingerprint is the canonical text itself, and a digest in a stored entry is any function of the text. Equality of fingerprints is therefore equality of texts, not of hashes.
- Curve arithmetic and signature verification: whether a signature verifies is an input.
- `Date.parse` and `toLowerCase` are parameters: every result holds for every reading of timestamps and every case folding (fixed points of folding are named where a result needs them).
- Shape checks of the zod schemas (lengths, enums, unknown keys), except the lifetime window, version plus one, and the agreement of state and settlement. Policy bodies are typed, so keys the parser would strip do not occur.
- Trace ids beyond their absence from fingerprints, reason prose, audit rows, timelines and outbox rows.
- How the server derives instants and facts from its database: evaluators take them as arguments, and in the runs every clock reading is arbitrary unless a theorem says otherwise. `Patrol` assumes a clock that does not run backwards.
- The newline-joined downstream key of field operations: effects are keyed by operation id, and each domain operation is taken to be idempotent under its key.
- `RotationRuns` takes enrolment as one step that registers version 1; `Enrolment` has the ceremony itself.
- In `DeviceLineage` the registry meets what the classifier asks of a new identity (a device id never used before, the computed namespace, version 1); the code that stores it is not part of this model.
- Trust transitions, attestation standing and custody associations: single-call tables or classifiers.
- The signed Edge receipt statement, the evidence channel of the forwarder, back-off and the choice of queue heads. The queue is stepped in any order, which covers each schedule.
- The text of SENTINEL's baseline policy: the store is proved for every baseline of proper shape.
- Idempotency keys of patrol actions and the verification rows they return: a repeated action changes nothing and is not an event.
- Confidences that are not finite numbers; every finite double is covered, with the rounding of binary64.
- `edge-enrolment.ts`, the canonicaliser twin of `whisper.ts`, the superseded constitution and threat artifacts, HTTP, configuration, schedulers and the user interface: restatements or wiring.
