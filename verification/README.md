# EchoDesk: verified models of its protocols and exact algorithms

This Dafny project models the parts of EchoDesk whose correctness rests on state or on exact
computation, and proves what they are for. Code that updates fields or arrays step by step is a
class or a method with a loop, proved equal to a function on values; the properties are lemmas
about that function, over every input and every run. `dafny verify dfyconfig.toml` checks it all.

| module | what it models |
|---|---|
| `IdentityCredentialStore`, `CredentialRotation`, `RotationSafety` | the in-memory identity vault, the renderer's session, reconnect and rotation operations against a server over a lossy network, and their safety and convergence over whole runs |
| `SessionState` | the module-level session state under interleaved origin switches and completions |
| `IdentityLock` | the promise chain that serializes identity operations |
| `EventStream` | the sequenced WebSocket client: cursor, epoch, gaps, duplicates, resets and reloads |
| `SseStream` | the server-sent event readers of `ragAsk` and `chatAsk` |
| `EditDistance`, `TranscriptMerge` | the two-row edit distance, transcript similarity and the deduplicating merge |
| `VersionOrder` | version comparison on strings against section 11 of Semantic Versioning 2.0.0 |
| `IncludeGraph` | the recursive walk over requirement files with one shared visited set |
| `PathPolicy`, `Grants` | path normalization and containment, grant compilation, conflicts and decisions |
| `VoicedSegments` | the one-pass splitter of audio into voiced segments |
| `SyncOutbox`, `SyncRuns` | the durable sync outbox and its push loop, and whole runs with crashes, pairings and overlapping batches |
| `DurableEvents`, `Framing`, `AgentBridge` | event admission, the length-prefixed transport, and the pipeline from runtime frames to the snapshot |
| `Prelude`, `Strings`, `Sorting` | options, results, bytes and ratios; searching, splitting, joining, trimming and comparing strings; stable sorting |

## Contract of the credential server and the network

The rotation results hold under this contract, stated as `Fate`, `ServeRenew`, `ServeEnroll` and
`ServeRotate`: the server holds one active credential for the device; renewing succeeds only with
the active credential and answers 401 otherwise; rotating replaces it when the offered current
secret is active and the new one differs; 400, 413, 415 and 422 mean that the request was not
applied; every other failure, a lost reply or an unreadable 2xx body leaves open whether it was.
Enrolling records the first pair of id and secret, acknowledges its repetition, and answers 409 to the
known id with another secret. The server is seen as its record of the one identity that this vault
enrolls; the source admits an unknown enrollment id as a further identity, which this client never
asks for (`EnrollsOwnId`). `Honoured` states the two conditions on a run: a definitive status is never
the answer to a pair that an earlier request has already applied, and a request arriving late is no
longer accepted or leads to a credential the vault still has.

## Findings

Where a desirable property does not hold of the code, the project proves exactly when it does.

- Repeating a rotation whose reply was lost is answered with 401 and marks a live identity as lost
  (`RetriedRotationLooksLost`, `DeliveredRotationLostIff`); a clean reconnect repairs it.
- A definitive status in answer to a retry, or a rotation processed after its abort, leaves the
  client without the active credential (`DefinitiveAnswerToRetryStrands`, `DelayedRotationStrands`).
  A late rotation does so if and only if its pair is still accepted and the vault no longer has its
  new secret (`LateRotationHarmlessIff`); a late enrollment never does (`LateEnrollmentIsHarmless`).
  Over whole runs with late arrivals there is no other way (`NeverStranded`).
- The same epoch-change resync twice clears the event store and does not ask for its contents
  (`ResetRehydratesUnlessFenceRepeats`, `RepeatedResyncLeavesStoreEmpty`), and a resync moves the
  cursor without storing it; so does an epoch from an unsequenced event, and a negative maximum in a
  hello is stored but not loaded (`ReloadResumesCursor`).
- Prerelease identifiers with leading zeros end the comparison too early
  (`desktop/src/runtime.ts:502`), and the order is then not transitive (`PrereleaseAgreesIff`,
  `LeadingZeroBreaksTransitivity`).
- Allow and deny rules for one command with disjoint, non-empty variable sets compile together
  although a request without variables matches both (`CommandOverlapMissesIff`).
- `_decide_with_rules` gives a denial a reason that, unlike its status, depends on the order of the
  rules (`ReasonFollowsOrder`, `StatusIgnoresOrder`): exactly when no deny rule matches and the allow
  rules of the capability deny with different reasons (`DecisionIgnoresOrderIff`), which happens for
  network requests only (`OnlyNetworkReasonsVary`). The compiler hides it: it sorts the rules, so the
  same facts in any order give the same grant and the same decisions (`GrantIgnoresFactOrder`).
- A Windows device path written with slashes is normalized once and refused when normalized again
  (`SlashedDevicePath`, `WindowsTwice`). A POSIX root whose first component is a colon is also a Windows path
  (`PosixRootAsWindowsPath`); an allow and a deny root on different platforms never compile
  together all the same (`PlatformsAlwaysConflict`).
- An operation marked as sending is offered again by the next load, so overlapping batches may push
  it twice (`SendingIsOfferedAgain`). Then an operation that one batch has given up as non-retryable
  can be pushed and offered again by the other (`OverlapPushesGivenUpAgain`), which is possible
  exactly while a batch in progress still holds it (`GivenUpForGoodIff`, `GivenUpStaysIff`) and
  impossible without overlap (`GivenUpIsNeverPushed`). A remounted sync worker or a second tab
  overlaps.
- A completed turn without a text of its own ends with the default text, even after messages and
  streamed text (`TextsOfRun`): the translator never leaves the message empty, so the snapshot's
  fallbacks to them are not reached.
- Merging the same segments again changes a list at the cap when the first merge has dropped one of
  them (`CapBreaksIdempotence`, `MergeIdempotentIff`).
- The documentation of `split_into_voiced_segments` ends a segment when the silence exceeds the
  limit; the code ends it when the silence reaches the limit, and the model follows the code. One
  silent frame between two active ones is cut at a limit of one (`OneSilentFrame`). The two limits are
  equal if and only if the allowed gap is shorter than a frame (`GapsAgreeIff`); otherwise they give the
  same segments if and only if no documented segment holds a gap of exactly the coded length
  (`DocumentedSegmentsIff`, `DocumentedRuleIff`).

## Model

| member | source | states |
|---|---|---|
| `RotationSafety.NeverStranded` | desktop/src/session.ts:1124-1407 | Over every run of sessions, reconnects, rotations and lost marks, with any request or reply lost and any request arriving late, the vault holds the server's active credential (as current or pending secret) at every point if and only if the contract is honoured at every point |
| `RotationSafety.StepKeepsCredential` | desktop/src/session.ts:256-268 | One step keeps the active credential in the vault exactly when it is neither a definitive rejection of a pair that an earlier request already applied, nor the late arrival of an acceptable request whose new secret the vault no longer has |
| `RotationSafety.AlwaysRecoverable` | desktop/src/session.ts:1271-1294 | From every enrolled state that a run can reach, marked lost or not, one loss-free reconnect leaves no pending rotation, no lost mark and the same credential on both sides |
| `RotationSafety.ReconnectConverges` | desktop/src/session.ts:1124-1176 | A loss-free reconnect from any state with a held credential settles it, succeeds, leaves the server untouched and keeps the enrollment id |
| `RotationSafety.SessionConverges` | desktop/src/session.ts:1178-1205 | Without the lost mark an ordinary loss-free session settles the vault as well, and enrolls nobody |
| `RotationSafety.SettlesOnAgreement` | desktop/src/identityCredentialStore.ts:446-534 | When a pending rotation disappears from the vault, by commit or abort, what remains is the credential the server holds |
| `RotationSafety.EnrollmentIsPermanent` | desktop/src/session.ts:1178-1205 | No run ever replaces the enrollment id in the vault or at the server |
| `RotationSafety.LostIdentityNeverEnrolls` | desktop/src/session.ts:1296-1304 | A vault marked lost is refused by the session path without any change, and the reconnect path never changes the server |
| `RotationSafety.RetriedRotationLooksLost` | desktop/src/session.ts:1353-1406 | Finding: repeating a rotation whose reply was lost marks a live identity as lost, and a clean reconnect then completes the rotation |
| `RotationSafety.DeliveredRotationLostIff` | desktop/src/session.ts:256-268 | A delivered rotation reports a lost identity if and only if the offered current secret is not active or equals the new one |
| `RotationSafety.DefinitiveAnswerToRetryStrands` | desktop/src/session.ts:1353-1391 | Finding: a 400, 413, 415 or 422 answer to a retry of an applied pair leaves the vault without the active credential |
| `RotationSafety.DelayedRotationStrands` | desktop/src/session.ts:1150-1169 | Finding: a rotation that the server processes after the client has aborted it leaves the vault without the active credential |
| `RotationSafety.LateRotationHarmlessIff` | desktop/src/session.ts:1353-1391 | A rotation arriving late keeps the active credential in the vault if and only if its pair is no longer acceptable or its new secret is the vault's current or pending one |
| `RotationSafety.LateEnrollmentIsHarmless` | desktop/src/session.ts:1183-1195 | An enrollment that the client sent does no harm however late it arrives, after whatever run |
| `RotationSafety.EnrollsOwnId` | desktop/src/session.ts:1183-1195 | To an enrolled server the client never sends another enrollment id than the enrolled one |
| `RotationSafety.ServerChangesByRequests` | desktop/src/session.ts:1178-1407 | The server changes only by the request an action sends and gets through, or by one arriving late |
| `RotationSafety.RotationByStatus` | desktop/src/session.ts:1353-1406 | A rotation by the status of its answer: committed on success, marked lost on 401 and 409, given up on 400, 413, 415 and 422, still pending after anything else; with the outcome, the vault and the server of each case |
| `RotationSafety.RotatedMeansAgreed` | desktop/src/session.ts:1397-1405 | A rotation answers Ok only when no rotation is pending afterwards and vault and server agree on the secret offered as new |
| `RotationSafety.DeliveredRotationSucceeds` | desktop/src/session.ts:1353-1405 | A delivered rotation of a settled vault to another secret succeeds and installs it on both sides |
| `RotationSafety.SessionByStatus` | desktop/src/session.ts:1178-1205 | A session by the statuses of its requests: which outcome, which marks of the vault (lost, confirmed) and which server each leaves, enrollment and recovery included |
| `RotationSafety.ReconnectByStatus` | desktop/src/session.ts:1271-1294 | A reconnect by the statuses of its renewals, with the outcome and the vault of each case |
| `RotationSafety.Play` | desktop/src/session.ts:1207-1407 | Played in place under the identity lock, any list of operations brings the vault and the server to the end of the corresponding run |
| `CredentialRotation.RendererSession.RecoverPendingRotation` | desktop/src/session.ts:1124-1176 | The new secret is tried first and committed on success; only a 401 lets the old one be tried and the rotation aborted; 409, or a second rejection, marks the identity lost; all else keeps the pending rotation; other origins are untouched |
| `CredentialRotation.RendererSession.RendererDeviceSession` | desktop/src/session.ts:1178-1209 | Recovers a pending rotation, else enrolls once or renews, holding the identity lock that must be free on entry |
| `CredentialRotation.RendererSession.RendererReconnectSession` | desktop/src/session.ts:1271-1294 | Retries exactly the stored credentials, restoring a lost mark before finalizing, holding the identity lock that must be free on entry |
| `CredentialRotation.RendererSession.RotateServerCredential` | desktop/src/session.ts:1330-1407 | Begins or repeats the pending rotation and commits, aborts, marks lost or keeps it by the status class of the reply, holding the identity lock that must be free on entry |
| `CredentialRotation.Server.Rotate` | backend/app/security/sessions.py:984-1063 | A processed rotation replaces the secret exactly when the offered current one is active and the new one differs; the enrollment stays |
| `CredentialRotation.Server.Enroll` | backend/app/security/sessions.py:534-680 | The first processed enrollment is recorded; a repetition with the same secret is acknowledged and one with another secret rejected, both without a change |
| `IdentityCredentialStore.CredentialStore.LoadOrCreate` | desktop/src/identityCredentialStore.ts:350-392 | Creates a record only for an origin without one, refuses a lost one, and leaves every other origin as it was |
| `IdentityCredentialStore.CredentialStore.LoadForReconnect` | desktop/src/identityCredentialStore.ts:394-426 | Returns the record even when it is marked lost and never creates one |
| `IdentityCredentialStore.CredentialStore.BeginRotation` | desktop/src/identityCredentialStore.ts:446-480 | An unfinished rotation is offered again and never replaced by a second one |
| `IdentityCredentialStore.CredentialStore.CommitRotation` | desktop/src/identityCredentialStore.ts:482-509 | Only the pending rotation with the given id becomes current; on any mismatch nothing changes |
| `IdentityCredentialStore.CredentialStore.AbortRotation` | desktop/src/identityCredentialStore.ts:511-534 | Only the pending rotation with the given id is dropped; on any mismatch nothing changes |
| `IdentityCredentialStore.CredentialStore.MarkIdentityLost` | desktop/src/identityCredentialStore.ts:536-553 | Sets the lost mark of an existing record and keeps its secrets |
| `IdentityCredentialStore.CredentialStore.RestoreIdentity` | desktop/src/identityCredentialStore.ts:555-572 | Clears the lost mark of an existing record and keeps its secrets |
| `SessionState.AlwaysConsistent` | desktop/src/session.ts:452-492 | Under every interleaving of origin switches and completions, the session and the upgrade latch belong to the active origin, exclude each other, and the latch is set exactly when compatibility is upgrade-required |
| `SessionState.UpgradeIsLatched` | desktop/src/session.ts:478-492 | Once an upgrade is required nothing changes the state until another origin is selected, whatever completes late |
| `SessionState.StaleCompletionsAreInert` | desktop/src/session.ts:917-978 | Completions that carry the origin left behind change nothing, however many arrive |
| `SessionState.SessionsAreIssued` | desktop/src/session.ts:917-978 | A session present after a run was there before or was issued during it for its own origin |
| `SessionState.IssuedTokenIsStored` | desktop/src/session.ts:917-978 | A token issued for the active origin, with no upgrade pending, is stored for it |
| `SessionState.SessionIsKept` | desktop/src/session.ts:988-998 | A stored session is kept until a step that may end it: another selection or reply for its origin, an upgrade, a loss, an expiry or a forced renewal |
| `SessionState.AcceptRefusesIff` | desktop/src/session.ts:917-945 | A reply is refused if and only if an upgrade is required of its origin or its token was issued elsewhere, and then nothing changes |
| `SessionState.SelectionStartsOver` | desktop/src/session.ts:1016-1027 | A selection ends on the selected origin, starting over unless it was selected already |
| `SessionState.UpgradeLatches` | desktop/src/session.ts:478-492 | An upgrade demanded of the active origin is latched and ends its session |
| `SessionState.ReportIsKept` | desktop/src/session.ts:452-464 | A reported compatibility of the active origin is taken over while no upgrade is latched |
| `SessionState.CompatibilityIsKept` | desktop/src/session.ts:452-464 | And kept until another report, selection or upgrade |
| `SessionState.MissingTokenEndsSession` | desktop/src/session.ts:921-926 | A reply without a token ends the session of the active origin |
| `SessionState.ExpiredSessionIsForgotten` | desktop/src/session.ts:988-998 | A reading that finds the session expired forgets it and nothing else; any other reading changes nothing |
| `SessionState.LossEndsSession` | desktop/src/session.ts:1000-1014 | Losing the identity of the active origin ends its session, as a forced renewal does, and changes nothing else |
| `SessionState.SessionModule.SelectBackendOrigin` | desktop/src/session.ts:1016-1027 | Selecting another origin drops the session, the latch and the compatibility; selecting the same one changes nothing |
| `SessionState.SessionModule.AcceptSession` | desktop/src/session.ts:917-978 | A token is stored only for the active origin, refused while an upgrade is required or when another origin issued it |
| `SessionState.SessionModule.ReadMemoryToken` | desktop/src/session.ts:988-998 | Returns the token only while it is unexpired and belongs to the asked origin, and forgets an expired one |
| `IdentityLock.OneAtATime` | desktop/src/session.ts:1089-1103 | On every schedule the identity operations run one at a time, in call order |
| `IdentityLock.NeverBlocked` | desktop/src/session.ts:1089-1103 | While a call is unfinished the first unfinished one can move, even after operations that threw, and every move brings the chain closer to done |
| `IdentityLock.NestedCallCannotStart` | desktop/src/session.ts:1207-1209 | A call made while another operation runs cannot start before that one finishes, so taking the lock twice on one path would hang |
| `EventStream.AppliedInSequence` | desktop/src/ws.ts:310-361 | Whatever frames are dropped, repeated, reordered or reconnected, the sequenced events applied since the cursor last moved are numbered base + 1 to lastSeq, each once and in order |
| `EventStream.AppliedSliceOfLog` | desktop/src/ws.ts:157-201 | With frames that carry log entries of their own or else the stream's epoch, those events are exactly that slice of the server's log of the client's epoch |
| `EventStream.ReplayCatchesUp` | desktop/src/ws.ts:310-361 | A replay from any number up to the next expected one applies exactly the missing events and ends at its last number |
| `EventStream.ReconnectContinues` | desktop/src/ws.ts:264-276 | Reconnecting under the same cursor, with a hello at or past it and such a replay, continues the slice without gap or repetition |
| `EventStream.HelloAtOrPastCursor` | desktop/src/ws.ts:184-199 | A hello of the same epoch at or past the cursor moves nothing |
| `EventStream.ResetRehydratesUnlessFenceRepeats` | desktop/src/ws.ts:120-125 | A frame that clears the store asks for its contents again if and only if its fence is not the last one requested |
| `EventStream.RepeatedResyncLeavesStoreEmpty` | desktop/src/ws.ts:157-183 | Finding: the same epoch-change resync twice clears the store the second time and asks for nothing |
| `EventStream.ReloadResumesCursor` | desktop/src/ws.ts:63-118 | A page reload resumes at the same cursor if and only if the last frame is no resync that moves it, no unsequenced event that brings an epoch, and no hello with a negative maximum |
| `EventStream.SyncMovesToFence` | desktop/src/ws.ts:176-183 | After a sync the cursor is at its fence, stored under the key, and the contents are asked for there unless they were asked for last |
| `EventStream.SyncThenReplay` | desktop/src/ws.ts:176-183 | After a sync at n the events n + 1, n + 2 and so on are all applied, as sent |
| `EventStream.ResyncForgetsCursor` | desktop/src/ws.ts:157-175 | After a resync nothing counts as seen; the store is cleared exactly when the epoch changed, and the contents asked for at its fence |
| `EventStream.HelloOfAnotherEpoch` | desktop/src/ws.ts:184-199 | After a hello of another epoch nothing above zero counts as seen and its maximum bounds the cursor; the store is cleared and asked for at that maximum |
| `EventStream.HelloOfSameEpoch` | desktop/src/ws.ts:184-199 | Any other hello only lowers the cursor to its maximum and asks for nothing |
| `EventStream.NewEpochFromTheStart` | desktop/src/ws.ts:157-199 | After a resync or a hello of another epoch the events of the new one are all applied from the first on |
| `EventStream.EventOutcome` | desktop/src/ws.ts:338-361 | An event of another epoch closes with 4002, a gap with 4003, one already seen does nothing, the next one is applied, moves the cursor and stores it |
| `EventStream.ConnectResumes` | desktop/src/ws.ts:264-276 | Another key resumes at the cursor stored for it, or at nothing |
| `EventStream.OriginStartsOver` | desktop/src/ws.ts:453-472 | A change of origin clears the store and forgets all but the stored cursors |
| `EventStream.FramesWithoutMeaning` | desktop/src/ws.ts:318-334 | An unreadable frame closes with 4008; pings and untyped frames do nothing |
| `EventStream.EchoWs.HandleProtocol` | desktop/src/ws.ts:157-201 | Hello, sync and resync move the cursor, persist it and request rehydration as the specification of one step says |
| `EventStream.EchoWs.OnMessage` | desktop/src/ws.ts:310-361 | A frame is applied, ignored, or answered by closing with 4002, 4003 or 4008, as the specification of one step says |
| `EventStream.EchoWs.Connect` | desktop/src/ws.ts:264-276 | A new cursor key loads the stored cursor and forgets the last fence; the same key keeps the live cursor |
| `EventStream.EchoWs.HandleBackendOriginChange` | desktop/src/ws.ts:453-472 | A change of backend origin clears the store and forgets cursor, epoch, key and fence, but nothing that is stored |
| `SseStream.Ask` | desktop/src/api.ts:957-1062 | For every cutting of a reply into chunks, the memory frames and the answer or error are those of the uncut text |
| `SseStream.ConsumeBlocks` | desktop/src/api.ts:973-1040 | The inner loop folds exactly the complete blocks of the buffer, stops at the first rejected one, and leaves the unfinished rest |
| `SseStream.BlocksAreTheCut` | desktop/src/api.ts:973-976 | The block splitter computes the one way to cut a text at its leftmost blank lines |
| `SseStream.BlocksAppend` | desktop/src/api.ts:970-976 | Splitting a text up to any point and going on from the rest gives the same blocks as splitting it at once |
| `SseStream.SuccessNeedsTerminalFrame` | desktop/src/api.ts:1041-1062 | A reply succeeds if and only if no block is rejected, some block is terminal, only white space is left over and the answer is not blank |
| `SseStream.FoldDiscipline` | desktop/src/api.ts:957-1040 | The readers go on exactly while no block is rejected, and count as completed exactly after a terminal block |
| `SseStream.DeliveredMemory` | desktop/src/api.ts:1002-1008 | Whether a reply ends well or not, the memory frames handed on are the payloads of its memory blocks before the first rejected block, in order and once each |
| `SseStream.ErrorOfReply` | desktop/src/api.ts:957-1062 | The error of a reply is that of its first rejected block; without one, left-over text, then the missing terminal block, then the blank answer |
| `SseStream.DataOfBlock` | desktop/src/api.ts:977-984 | The data of a block is what follows the marker on its first such line |
| `SseStream.EventOfBlock` | desktop/src/api.ts:977-983 | The event name of a block is what follows the marker on its first such line, trimmed |
| `SseStream.RagAnswer` | desktop/src/api.ts:957-1040 | The answer of an accepted rag reply is that of the last done frame with one, or nothing, followed by the deltas after it |
| `SseStream.RagCitations` | desktop/src/api.ts:957-1040 | Its citations are those of the last frame that fixes any: a done frame by sources before metadata, others by metadata alone |
| `SseStream.RagSource` | desktop/src/api.ts:957-1040 | Its source is the one named last: by a done frame's trace before metadata, by others' metadata alone, else rag |
| `SseStream.ChatAnswerIsDeltas` | desktop/src/api.ts:1119-1175 | An accepted chat answer is the concatenation of the deltas in order, none lost or repeated |
| `EditDistance.Distance` | desktop/src/store.ts:268-283 | The two-row in-place loop computes the recursive Levenshtein distance |
| `EditDistance.DistanceIsShortestScript` | desktop/src/store.ts:268-283 | The distance is at most n if and only if some script of at most n single-character edits turns one string into the other |
| `EditDistance.ZeroIffEqual` | desktop/src/store.ts:268-283 | The distance is zero exactly for equal strings |
| `EditDistance.Symmetric` | desktop/src/store.ts:268-283 | The distance is symmetric |
| `EditDistance.Triangle` | desktop/src/store.ts:268-283 | The distance satisfies the triangle inequality |
| `EditDistance.Bounds` | desktop/src/store.ts:268-283 | The distance lies between the difference of the lengths and the longer length |
| `EditDistance.LikelySameTranscript` | desktop/src/store.ts:285-295 | Two transcripts are alike when non-empty and equal, or one of at least 8 characters is contained in the other, or at most 80 characters long and 0.82 similar |
| `EditDistance.SimilarityInUnitInterval` | desktop/src/store.ts:285-295 | The similarity is in [0, 1] and equals 1 only for equal strings |
| `EditDistance.SimilarIffFewEdits` | desktop/src/store.ts:285-295 | The threshold means at most 18 edits per 100 characters of the longer string |
| `EditDistance.LikelySameIff` | desktop/src/store.ts:285-295 | Likely the same means equal, or one of at least 8 characters occurs in the other, or neither is longer than 80 and at most 18 edits per 100 characters are needed |
| `EditDistance.LikelySameIsSymmetric` | desktop/src/store.ts:285-295 | Being likely the same transcript does not depend on the order |
| `TranscriptMerge.MergeSegments` | desktop/src/store.ts:314-329 | The loop over the growing list with its key set computes the merge, capped to the newest 800 |
| `TranscriptMerge.IsNearDuplicateSegment` | desktop/src/store.ts:297-312 | Near duplicates have like texts, starts or ends within 6 seconds, and equal texts or speakers |
| `TranscriptMerge.NearDuplicateIff` | desktop/src/store.ts:297-312 | Near duplicates are likely the same once normalized, start or end at most 6 seconds apart, and have the same normalized text or the same speaker |
| `TranscriptMerge.KeepExtends` | desktop/src/store.ts:314-329 | Merging keeps the existing list as a prefix and adds only incoming segments |
| `TranscriptMerge.AddedSegmentsAreNew` | desktop/src/store.ts:314-329 | Nothing added is key-equal to or nearly duplicates anything kept before it |
| `TranscriptMerge.NothingIsDroppedForNothing` | desktop/src/store.ts:314-329 | Every incoming segment is kept or repeats one that is kept |
| `TranscriptMerge.MergeKeepsDistinct` | desktop/src/store.ts:314-329 | A list without mutual repetitions stays one |
| `TranscriptMerge.MergeIdempotentIff` | desktop/src/store.ts:314-329 | Merging the same list again changes nothing if and only if each of its segments still repeats one that survived the cap |
| `TranscriptMerge.MergeIdempotentUnderCap` | desktop/src/store.ts:314-329 | While the total stays within 800 a second merge changes nothing |
| `TranscriptMerge.CapBreaksIdempotence` | desktop/src/store.ts:314-329 | Finding: with 800 segments kept, merging the list of the oldest and a new one twice differs from merging it once |
| `TranscriptMerge.NearDuplicateIsSymmetric` | desktop/src/store.ts:297-312 | Being near duplicates does not depend on the order |
| `VersionOrder.CompareVersionsIsPrecedence` | desktop/src/runtime.ts:509-519 | On versions valid under SemVer 2.0.0, with or without a leading v, the comparison is the precedence of its section 11 |
| `VersionOrder.NumericOrder` | desktop/src/runtime.ts:485-491 | The string comparison orders all digit strings, of any length and with any leading zeros, as the numbers they denote |
| `Strings.TrimMeans` | desktop/src/api.ts:977-980 | Trimming takes white space off both ends, all of it and nothing else |
| `VersionOrder.ParseRender` | desktop/src/runtime.ts:472-483 | Parsing a rendered version recovers core and prerelease and drops build metadata, surrounding a leading v or not |
| `VersionOrder.PrereleaseAgreesIff` | desktop/src/runtime.ts:493-507 | For all identifier lists, the code follows section 11 if and only if the first differing pair is not two spellings of one number before a decisive rest |
| `VersionOrder.LeadingZeroHidesTheRest` | desktop/src/runtime.ts:493-507 | Finding: after 01 against 1 nothing further is compared |
| `VersionOrder.LeadingZeroBreaksTransitivity` | desktop/src/runtime.ts:493-507 | Finding: a list beginning with 01 equals every list beginning with 1, while those are ordered among themselves |
| `VersionOrder.PrecedenceReverses` | desktop/src/runtime.ts:509-519 | Precedence changes sign under swap and is zero exactly when the versions differ at most in build metadata |
| `VersionOrder.PrecedenceTransitive` | desktop/src/runtime.ts:509-519 | Precedence is transitive |
| `IncludeGraph.LockCheck.RootPins` | scripts/check-python-locks.py:35-56 | From the root, cycles included, the walk ends; it succeeds if and only if every reachable file is readable and exactly pinned, and returns the union of the pins of exactly the reachable files |
| `IncludeGraph.LockCheck.DirectPins` | scripts/check-python-locks.py:35-56 | Each recursive call adds only good files reachable from its own, closes them under includes, and returns exactly their pins, or names a bad reachable file |
| `IncludeGraph.ClosedHoldsReachable` | scripts/check-python-locks.py:35-56 | A set of files closed under includes holds everything reachable from it |
| `IncludeGraph.PinsAreUnique` | scripts/check-python-locks.py:35-56 | The pins of a set of files are determined by the files, whatever the order of the walk |
| `PathPolicy.PosixTwice` | backend/app/agent_capabilities/policy.py:189-218 | Normalizing a normalized POSIX root gives it back |
| `PathPolicy.WindowsTwice` | backend/app/agent_capabilities/policy.py:189-218 | Normalizing a normalized Windows root gives it back, except that a device path first written with slashes is refused the second time |
| `PathPolicy.SlashedDevicePath` | backend/app/agent_capabilities/policy.py:189-218 | Finding: every device path //./x/y with harmless x and y is let through and its normalized form refused |
| `PathPolicy.AnchorsAreComparable` | backend/app/agent_capabilities/policy.py:257-274 | Of two roots that both contain a path, one contains the other |
| `PathPolicy.ParentRemovesComponent` | backend/app/agent_capabilities/policy.py:189-218 | A component followed by two dots cancels out, wherever it stands |
| `PathPolicy.IdleComponentsDropped` | backend/app/agent_capabilities/policy.py:189-218 | Empty components and single dots are dropped, wherever they stand |
| `PathPolicy.NothingAboveAnchor` | backend/app/agent_capabilities/policy.py:189-218 | A leading parent component is dropped |
| `PathPolicy.PosixAcceptedIff` | backend/app/agent_capabilities/policy.py:189-205 | A POSIX root is accepted if and only if it starts with exactly one slash and holds no backslash, break, expansion or glob character |
| `PathPolicy.DrivePathAccepted` | backend/app/agent_capabilities/policy.py:206-218 | A path on a drive letter with a separator after the colon is accepted |
| `PathPolicy.UncLacksShare` | backend/app/agent_capabilities/policy.py:214-217 | A UNC path without a share is refused |
| `PathPolicy.CaseMatters` | backend/app/agent_capabilities/policy.py:257-274 | On Windows containment sees only the case-folded texts |
| `PathPolicy.BelowWindowsRoot` | backend/app/agent_capabilities/policy.py:257-274 | Whatever is written below a Windows root, in any case, is within it |
| `PathPolicy.PosixContainment` | backend/app/agent_capabilities/policy.py:257-274 | A POSIX path is within a root if and only if the root's components begin the path's components |
| `PathPolicy.NormalChars` | backend/app/agent_capabilities/policy.py:189-218 | Normalization brings in no character but the separator and leaves exactly one after the anchor |
| `PathPolicy.WindowsRootIsNoPosixPath` | backend/app/agent_capabilities/policy.py:189-218 | A normalized Windows root is always refused as a POSIX path |
| `PathPolicy.PosixRootAsWindowsPath` | backend/app/agent_capabilities/policy.py:189-218 | A normalized POSIX root is accepted as a Windows path if and only if its first component is a colon |
| `Grants.GrantIsUnambiguous` | backend/app/agent_capabilities/compiler.py:379-415 | In a grant without conflicts no path, network or skill request matches both an allow and a deny rule |
| `Grants.AllowedIffGranted` | backend/app/agent_capabilities/compiler.py:208-250 | In such a grant a request is allowed if and only if some allow rule matches it |
| `Grants.CompileGrant` | backend/app/agent_capabilities/compiler.py:80-156 | A grant compiles if and only if all wanted facts do and no opposed rules overlap; its rules are those of the facts, sorted by capability, effect and canonical scope, normalized and free of conflicts |
| `Grants.AllowedIffFactAllows` | backend/app/agent_capabilities/compiler.py:80-250 | From facts to decisions: against the rules of a grant, a request that is no command is allowed if and only if some wanted allow fact of its capability covers it by its own scope |
| `Grants.DenyFactDenies` | backend/app/agent_capabilities/compiler.py:208-250 | A wanted deny fact that covers a request denies it, commands included |
| `Grants.CommandAllowedIff` | backend/app/agent_capabilities/compiler.py:208-250 | A command is allowed if and only if some wanted allow fact covers it and no wanted deny fact does |
| `Grants.CompiledGrant` | backend/app/agent_capabilities/compiler.py:115-138 | Every rule of a grant comes from a wanted fact of the same capability, effect and scope, and every wanted fact has one |
| `Grants.FactCompilesIff` | backend/app/agent_capabilities/compiler.py:115-138 | A fact has a rule if and only if its effect is allow or deny and its scope is of the right kind, normalizable and verified |
| `Grants.RootAtMostIsLexicographic` | backend/app/agent_capabilities/policy.py:246-249 | The roots of a scope are sorted by platform name, then by text |
| `Grants.KeyIsLexicographic` | backend/app/agent_capabilities/compiler.py:139-147 | Rules are sorted by the names of their capabilities, then of their effects, then by their scopes |
| `Grants.GrantIgnoresFactOrder` | backend/app/agent_capabilities/compiler.py:80-156 | The facts of a grant may come in any order: it compiles all the same and to the same list of rules, hence to the same decisions, reason included |
| `Grants.ScopeIgnoresRootOrder` | backend/app/agent_capabilities/policy.py:221-249 | Within one fact the roots may come in any order and any number of times |
| `Grants.ReorderedGrant` | backend/app/agent_capabilities/compiler.py:379-386 | Rules without conflict are without conflict in every order, although the test visits the pairs in one order |
| `Sorting.SortForgetsOrder` | backend/app/agent_capabilities/compiler.py:139-147 | The sorted list depends only on how often each element occurs, when the key tells different elements apart |
| `Sorting.SortedSet` | backend/app/agent_capabilities/policy.py:246-249 | A sorted set depends only on which elements there are |
| `Grants.FindConflict` | backend/app/agent_capabilities/compiler.py:379-386 | The nested loops find no conflict if and only if every opposed pair passes the overlap test without raising |
| `Grants.GrantCompilesIff` | backend/app/agent_capabilities/compiler.py:80-156 | A grant compiles if and only if every wanted fact has a rule, and every two wanted facts of one capability with different effects have separate scopes |
| `Grants.NoConflictIff` | backend/app/agent_capabilities/compiler.py:379-415 | Rules are free of conflicts if and only if every two opposed ones are separate: roots on one platform without a common path and none refused when normalized again, network scopes without a common request, skills that differ in more than provenance, commands without a common request or with disjoint non-empty variables |
| `Grants.RootsPassIff` | backend/app/agent_capabilities/compiler.py:389-397 | Two roots pass the test if and only if they are on one platform, share no path and neither is refused when normalized again |
| `Grants.SeparateRoots` | backend/app/agent_capabilities/compiler.py:389-415 | Roots that pass the overlap test have no path in common |
| `Grants.PlatformsAlwaysConflict` | backend/app/agent_capabilities/compiler.py:389-415 | An allow and a deny root on different platforms never pass the test: one direction raises |
| `Grants.CommandsMeet` | backend/app/agent_capabilities/policy.py:309-315 | Two command scopes have a request in common if and only if platform, arguments and directory agree |
| `Grants.CommandOverlapMissesIff` | backend/app/agent_capabilities/compiler.py:389-415 | Finding: the overlap test misses a common command request if and only if both scopes name variables and none in common |
| `Grants.StatusIgnoresOrder` | backend/app/agent_capabilities/compiler.py:208-250 | The status of a decision is the same for any order and multiplicity of the rules |
| `Grants.FirstGrantStatus` | backend/app/agent_capabilities/compiler.py:208-250 | The allow pass grants if some rule grants, else asks for verification if some rule does, else denies |
| `Grants.ReasonFollowsOrder` | backend/app/agent_capabilities/compiler.py:208-250 | Finding: for a list of rules as such, the reason of a denial does depend on their order |
| `Grants.LastRuleNamesReason` | backend/app/agent_capabilities/compiler.py:208-250 | Without a grant the reason of the denial is that of the last allow rule of the capability |
| `Grants.DecisionIgnoresOrderIff` | backend/app/agent_capabilities/compiler.py:208-250 | Status and reason of a decision are the same for every order of the rules if and only if a deny rule matches, or some allow rule does not deny, or all allow rules of the capability deny with one reason |
| `Grants.OnlyNetworkReasonsVary` | backend/app/agent_capabilities/compiler.py:208-250 | For all capabilities but network.connect status and reason are the same in every order |
| `Grants.DecideWithRules` | backend/app/agent_capabilities/compiler.py:208-250 | A matching deny rule wins; else the first allow rule that does not deny; else the last denial |
| `Grants.CompileFacts` | backend/app/agent_capabilities/compiler.py:80-156 | The loop yields the rules of the wanted facts in order, or the failure of the first that has none |
| `VoicedSegments.Split` | backend/app/adapters/audio_gate.py:210-296 | The segments are the cuts of exactly the maximal clusters of active frames that are long enough, in order, and empty for unusable parameters |
| `VoicedSegments.Scan` | backend/app/adapters/audio_gate.py:236-296 | The one-pass scan finds every such cluster and nothing else |
| `VoicedSegments.ClustersAreDetermined` | backend/app/adapters/audio_gate.py:210-296 | The specification leaves no choice: one list of clusters satisfies it |
| `VoicedSegments.SegmentsAreDetermined` | backend/app/adapters/audio_gate.py:210-296 | Any two lists of segments that meet the specification are equal, byte for byte |
| `VoicedSegments.ClustersAreDisjoint` | backend/app/adapters/audio_gate.py:210-296 | Clusters that overlap are the same cluster |
| `VoicedSegments.CloseStretch` | backend/app/adapters/audio_gate.py:280-296 | The stretch closed by silence or the end of the audio is the only cluster that ends after its start |
| `VoicedSegments.DocumentedSegmentsIff` | backend/app/adapters/audio_gate.py:225-226 | With one more silent frame allowed, as documented, the segments are the same if and only if none of the documented ones holds exactly as many silent frames as the coded limit between two active ones |
| `VoicedSegments.DocumentedRuleIff` | backend/app/adapters/audio_gate.py:225-226 | When no segment is too short to count: if and only if nowhere in the audio exactly that many silent frames lie between two active ones |
| `VoicedSegments.OneSilentFrame` | backend/app/adapters/audio_gate.py:287-292 | Finding: one silent frame between two active ones at a limit of one, which the code cuts and the documentation does not |
| `VoicedSegments.GapsAgreeIff` | backend/app/adapters/audio_gate.py:254-255 | The coded limit in frames is the documented one if and only if the allowed gap is shorter than a frame, and one less otherwise |
| `VoicedSegments.DocumentedGapMeans` | backend/app/adapters/audio_gate.py:225-226 | A run of silent frames reaches the documented limit exactly when its duration exceeds the allowed gap |
| `VoicedSegments.SegmentsAreAudio` | backend/app/adapters/audio_gate.py:263-278 | Every segment is the audio between its times at 32 bytes a millisecond, and begins and ends with an active frame of it |
| `VoicedSegments.RatioCountsActive` | backend/app/adapters/audio_gate.py:263-278 | Its ratio times its frames is the number of active frames in it |
| `VoicedSegments.CutSize` | backend/app/adapters/audio_gate.py:263-278 | A segment holds 32 bytes per millisecond and an activity ratio above 0 and at most 1 |
| `SyncOutbox.OutboxIsConserved` | desktop/src/syncState.ts:230-364 | After any operations, crashes and reloads, the outbox holds every enqueued and uncompleted operation once, unchanged and in order; SyncRuns.CompletedIffAccepted says when one is completed |
| `SyncOutbox.WaitsUntilCompleted` | desktop/src/syncState.ts:323-337 | Only its own completion removes an operation |
| `SyncRuns.MissingWasAccepted` | desktop/src/syncWorkerCore.ts:95-134 | Over every run with any number of overlapping batches, an operation in the outbox is still there at the end, unchanged, unless a push of it in the run was answered with applied, duplicate, or a conflict whose current value was applied |
| `SyncRuns.EnqueuedIsHeldOrAccepted` | desktop/src/syncState.ts:272-296 | An operation enqueued during a run is held at its end or had an accepted push after it was enqueued |
| `SyncRuns.CompletedIffAccepted` | desktop/src/syncWorkerCore.ts:106-131 | Operations are completed exactly by the accepted answers to their own pushes |
| `SyncRuns.BatchIsARun` | desktop/src/syncWorkerCore.ts:95-134 | What a batch performs against a script is what it performs in a run in which other batches push and get their own replies meanwhile |
| `SyncOutbox.NothingStuckAfterReload` | desktop/src/syncState.ts:120-152 | After a reload nothing is in flight, and exactly the operations not given up are offered again |
| `SyncOutbox.SendingIsOfferedAgain` | desktop/src/syncState.ts:298-321 | Finding: marking an operation as sending reserves nothing; the next load offers it again |
| `SyncRuns.AnswerDecides` | desktop/src/syncWorkerCore.ts:106-131 | After an answer the operation is gone if and only if the answer settles it, given up if and only if it is a conflict without a current value, and offered after every other one; without an answer nothing changes |
| `SyncRuns.OnlyConflictsGiveUp` | desktop/src/syncWorkerCore.ts:106-131 | Over whole runs only a conflict without a current value ever gives an operation up |
| `SyncRuns.RetriesCountFailures` | desktop/src/syncState.ts:339-364 | While an operation waits, its retries count its failures and its error is the last one recorded |
| `SyncRuns.ChosenFirst` | desktop/src/syncState.ts:298-305 | A batch begins with the first offered operations, at most as many as the limit |
| `SyncRuns.SelectionInOrder` | desktop/src/syncState.ts:298-305 | The selection keeps the order of the outbox |
| `SyncRuns.GivenUpStaysIff` | desktop/src/syncState.ts:307-364 | A given-up operation is offered at no point of a run before it is completed if and only if no marking and no retryable failure of it occurs before that |
| `SyncRuns.GivenUpForGoodIff` | desktop/src/syncWorkerCore.ts:95-134 | Whatever follows, a given-up operation is never offered or pushed again, if and only if no batch in progress still holds it at that moment |
| `SyncRuns.GivenUpIsNeverPushed` | desktop/src/syncWorkerCore.ts:95-134 | Without overlapping batches up to that point, an operation given up as non-retryable is never offered or pushed again, whatever batches follow |
| `SyncRuns.OverlapPushesGivenUpAgain` | desktop/src/syncWorkerCore.ts:95-134 | Finding: with two batches begun on the same operation, the one gives it up, the other pushes it again, and it is offered once more |
| `SyncRuns.SelectedIffOffered` | desktop/src/syncState.ts:298-305 | The selection offers exactly the operations in the outbox that are not given up |
| `SyncRuns.ChosenOnce` | desktop/src/syncState.ts:298-305 | A batch never names an operation twice |
| `SyncOutbox.RevisionIsGreatestRemembered` | desktop/src/syncState.ts:379-398 | While the device stays the same, the known revision of an entity is the greatest ever remembered |
| `SyncOutbox.TokenOfRun` | desktop/src/syncState.ts:230-270 | The token after a run is that of its last pairing, none after its last unpairing |
| `SyncOutbox.CursorOfRun` | desktop/src/syncWorkerCore.ts:57-78 | The cursor after a run is that of the last pairing, unpairing or batch of changes that brought one |
| `SyncOutbox.PairingTakesItemsAlong` | desktop/src/syncState.ts:230-263 | Pairing as another device takes its operations along, no others, and forgets the known revisions |
| `SyncOutbox.ShownStatus` | desktop/src/syncState.ts:307-364 | The status and error shown after each operation; received changes leave a failure standing while an operation has failed |
| `SyncOutbox.EnqueuedItem` | desktop/src/syncState.ts:272-296 | A new operation waits at the end, pending, without retries or error |
| `SyncOutbox.SyncWorkerCore.PushBatch` | desktop/src/syncWorkerCore.ts:95-134 | The stored state is the outcome of exactly the operations of the items handled; attempted is completed plus failed, and the counters count the replies of each kind |
| `SyncOutbox.SyncWorkerCore.PushOne` | desktop/src/syncWorkerCore.ts:106-131 | One push marks, then completes or fails by its reply, or leaves the mark when the process dies |
| `SyncOutbox.SyncStore.EnqueueSyncOperation` | desktop/src/syncState.ts:272-296 | A known operation id is returned as stored and not added twice; capture ids are refused |
| `DurableEvents.AdmissionOutcome` | backend/app/agents/durable_state.py:91-127 | On any list of events, the sequence number counts the distinct new ones, numbers are gap-free and injective, and the first terminal one decides the state |
| `DurableEvents.ReplaysChangeNothing` | backend/app/agents/durable_state.py:91-127 | Admitting a list with replays and rejects anywhere equals admitting its first occurrences |
| `DurableEvents.ReplayGetsOriginalNumber` | backend/app/agents/durable_state.py:91-127 | However much later, a replay returns its original number and changes nothing |
| `DurableEvents.NumbersAreGapFree` | backend/app/agents/durable_state.py:91-127 | The k-th new event gets the k-th next number |
| `DurableEvents.StateIsFirstTerminal` | backend/app/agents/durable_state.py:91-127 | The final state is the first terminal one reported, else the last one |
| `DurableEvents.FirstTerminalDecides` | backend/app/agents/durable_state.py:91-127 | When the first k new events are not terminal and the next one is, that one decides the state, whatever is replayed or reported later; without a terminal one the last new event does |
| `DurableEvents.TerminalStateIsFinal` | backend/app/agents/durable_state.py:91-127 | A terminal state never changes |
| `DurableEvents.SameDigestIffSameFields` | backend/app/agents/durable_state.py:31-44 | Two envelopes count as one event if and only if they agree on the stable fields |
| `DurableEvents.FirstOccurrencesAreNew` | backend/app/agents/durable_state.py:91-127 | The first occurrences are admissible, new and distinct, and represent every admissible event of the list |
| `DurableEvents.AdmissionSays` | backend/app/agents/durable_state.py:91-127 | What one admission reports: duplicate with its number, or the next number, for audit only once the state is terminal |
| `DurableEvents.DurableEventStateMachine.AdmitEvent` | backend/app/agents/durable_state.py:91-127 | Number, state and known events after one admission, with both rejections leaving all of them alone |
| `Framing.Transfer` | backend/app/agents/embedded_runtime.py:63-141 | For every list of non-empty frames within the limit and every pattern of partial writes and short reads, the payloads received are the payloads sent |
| `Framing.StreamRoundTrip` | backend/app/agents/embedded_runtime.py:124-141 | Decoding the concatenation of frames gives the payloads in order, then the end of the data |
| `Framing.FrameRoundTrip` | backend/app/agents/embedded_runtime.py:124-141 | A frame decodes to its payload and leaves the rest, except that the receiver refuses the empty one |
| `Framing.SizeLimit` | backend/app/agents/embedded_runtime.py:134-140 | A length prefix is refused if and only if it is zero or above 16 MiB |
| `Framing.LengthRoundTrip` | backend/app/agents/embedded_runtime.py:124-141 | Every 32-bit length survives the four big-endian bytes |
| `Framing.BytesRoundTrip` | backend/app/agents/embedded_runtime.py:134-141 | Every four bytes are the prefix of the length they denote |
| `Framing.Pipe.WriteAll` | backend/app/agents/embedded_runtime.py:77-85 | All bytes are written in order, or a failed write leaves a proper prefix; it succeeds whenever every write makes progress |
| `Framing.Pipe.ReadExact` | backend/app/agents/embedded_runtime.py:63-74 | Exactly the asked bytes are taken off the pipe, or the end of the data is reported |
| `Framing.Pipe.Send` | backend/app/agents/embedded_runtime.py:124-132 | An oversized frame writes nothing; any other is appended whole |
| `Framing.Pipe.Receive` | backend/app/agents/embedded_runtime.py:134-141 | The first frame of the data, or the error, with what is left, independent of the sizes read |
| `AgentBridge.EmbeddedTaskStreamBridge.Run` | backend/app/agents/stream_bridge.py:62-75 | It reports success if and only if a frame ends the turn, and records at most one terminal event, as its last |
| `AgentBridge.TerminalIffTurnEnd` | backend/app/agents/embedded_runtime.py:548-563 | A frame ends the event stream if and only if it yields a terminal event if and only if it is a completed, failed, cancelled or timeout turn |
| `AgentBridge.TextOfRun` | backend/app/agents/events.py:114-158 | Folding what a run records, the text buffer grows by exactly the text streamed up to the end of the turn |
| `AgentBridge.StatusOfRun` | backend/app/agents/events.py:96-158 | And the status ends as the state of the frame that ends the turn |
| `AgentBridge.StepsFollowEvents` | backend/app/agents/events.py:72-93 | The snapshot has one step per id: what the last event about that id reported, else the step it had before, else none |
| `AgentBridge.StepsOfRun` | backend/app/agents/claude_code_adapter.py:172-212 | From frames to snapshot: the step of an id is the one reported by the last tool frame of the turn about it, with the labels announced before; without such a frame it is as before |
| `AgentBridge.CompletedStepLabel` | backend/app/agents/claude_code_adapter.py:172-212 | A completed tool carries the label of the last tool use announced under its id, or the default label without one |
| `AgentBridge.TextsOfRun` | backend/app/agents/events.py:96-158 | The final text of a completed run is that of the completing frame, or the default; of another run the last message; an error and its progress text are left only by a turn that ends otherwise |
| `AgentBridge.FrameEndsTurn` | backend/app/agents/events.py:96-111 | The whole snapshot after the frame that ends the turn |
| `AgentBridge.FrameWithinTurn` | backend/app/agents/events.py:114-158 | What any other frame leaves of the texts, and that it changes nothing else beside steps, buffer and status |
| `AgentBridge.TitleOfRun` | backend/app/agents/events.py:119-122 | After any events the title is the last one given, or the one before them |
| `AgentBridge.DurationOfRun` | backend/app/agents/events.py:154-157 | After any events the duration is the last one reported, or the one before them |
| `AgentBridge.OtherEvents` | backend/app/agents/events.py:127-149 | Queued, permission and artifact events change actions, permission and artifacts as they say |
| `AgentBridge.FinishStep` | backend/app/agents/events.py:79-93 | The loop replaces every step with the id, or appends the step when there is none |
| `AgentBridge.ReduceEffect` | backend/app/agents/events.py:114-158 | An event changes the text buffer only as a delta, and sets the status to its own state, or to succeeded on completion |
| `AgentBridge.FirstFrame` | backend/app/agents/claude_code_adapter.py:91-280 | One frame's effect on the snapshot and on the rest of the run, through adapter, translator and fold |
| `AgentBridge.ClaudeCodeRunnerAdapter.TranslateRaw` | backend/app/agents/claude_code_adapter.py:91-280 | The handlers of the translator: the event of each raw event, and the tool label remembered under its id |

## Left out

- Electron and Android credential branches, capability publication and `clear` of the credential store: calls into native code.
- `ensureServerSession` with its bearer token and shared promise, and the check of the token before a rotation: the model starts at the identity operations.
- `acceptSession` failing after a commit, a restore or an enrollment has been recorded: it changes no credential, so the modelled state is the same.
- CredentialRotation.Server.Rotate: the scope of the bearer's session, expiry and revocation of credentials and the minimum length of a secret are not modelled; a request refused for one of them is one with a failure status.
- CredentialRotation.Server.Enroll: an enrollment under an unknown id creates a further identity in the source; only the record of this vault's identity is modelled.
- Loss of the in-memory vault on a page reload: nothing of it survives, and the native vaults are not part of this model.
- The server's SQL, rate limits and expiry of credentials: they enter only through the contract above.
- Readiness, identity-status events and diagnostics of the session module: they only report.
- Watchdog, backoff, close codes 4401 and 4426, frame size limits and frames without a payload object in the WebSocket client: timers and transport outcomes.
- EventStream.AppliedSliceOfLog: a sequenced event without an epoch belongs to the stream's; one that arrives before any epoch is known belongs to no log and is not considered. Numbers are integers, not floating point.
- HTTP status and content-type handling of `ragAsk` and `chatAsk`, and UTF-8 and JSON decoding (a parameter): only decoded text reaches the model.
- SseStream.ConsumeBlocks: the reader loop is shared by both functions, which differ only in how they take a frame; a memory handler that throws is not modelled.
- EditDistance.SimilarIffFewEdits: the similarity is a real number; floating point agrees with it for the at most 80 characters for which it is computed.
- TranscriptMerge.MergeSegments: times are whole numbers, and the text normalizer is a parameter.
- `isCompatibleAppUpgrade`, `selectCompatibleAppUpdate` and asset choice: filters and a sort on top of the modelled order.
- `validate_lock` and the lock files of check-python-locks.py: comparisons of maps; reading, resolving and matching lines are the parsed `Line` here.
- Grants.CompileGrant: scopes of commands, networks and skills come normalized (guard chains), and revision, expiry, unknown capabilities and the projection to a public snapshot are not modelled. The canonical JSON text of a scope is a parameter, taken to tell verified scopes apart.
- Grants.DecideWithRules: the request comes normalized, freshness checks of `decide` are single guards, and the free text beside the reason of a decision is left out.
- PathPolicy.WindowsTwice: drives are split as `ntpath` of Python 3.11 does; case folding is a function on characters.
- `evaluate_capability` of the capability catalog, its containment of the root "/", and `_public_grant`: a wider projection than the rules.
- VoicedSegments.Split: the root mean square of a frame is the parameter `isActive`; `speech_frame_ratio`, the speech gate and the hallucination filters are counting and pattern checks.
- Storage writes of two tabs are atomic one by one in `SyncRuns`, as they are within one page.
- SyncOutbox.OutboxIsConserved: storage writes succeed and stored items are well formed; `removeSyncOperation` has no caller and is left out.
- SyncOutbox.SyncWorkerCore.PushBatch: the script of replies is at least as long as the outbox, a device of the model and no demand on callers; times, device names and the limit on error texts are left out.
- `receiveChanges`: only its effect on the stored state is an operation here (`Received`, `ReceiveFailed`), not the choice between changes and snapshot.
- DurableEvents.SameDigestIffSameFields: SHA-256 over the canonical JSON text is taken as injective.
- Framing.Transfer: a frame is the JSON text of an object and never empty, so that payloads of at least one byte are all there are.
- Framing.Pipe.Receive: JSON, protocol version and field checks of a received frame, and the write lock, are left out.
- AgentBridge.EmbeddedTaskStreamBridge.Run: the frames queued before the end of the stream are a list; artifact events, durations, an empty state and the nesting of an event in a payload are left out, and the recognition of timeout texts is a parameter.
- The SQLite command outbox, process, DNS and skill hosts, redaction, FastAPI assembly and all user interface: they rest on behaviour of libraries and the operating system.
