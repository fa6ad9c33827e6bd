# Verified models of the LocalSend core

This project models five parts of the repository in Dafny and proves what they promise. `dafny
verify dfyconfig.toml` checks all of it.

**The v2 upload session** (`UploadSession`, `UploadServer`, `UploadInvariants`, `UploadHistory`,
`UploadEvents`, `UploadQueue`, `UploadTheorems`, `UploadCauses`, `UploadEndings`, `UploadAdmission`,
`UploadOutcomes`, `UploadHandlers`). One slot is free, pending or active. Prepare-upload, upload and
cancel handlers, the two drop guards and the cleanup tasks they spawn all write it. A step is what
one task does between two points where it can be suspended: one region under the slot lock, one
queued event, or a dropped future. Steps of all tasks interleave freely, so a run is any sequence of
steps, and every theorem is about every run. `UploadHandlers` has the handlers and guards as classes
with their `armed` flags; each method is proved to be the step of the same name.

**The event bridge** (`EventBridge`, `BridgeAnswers`). It takes the queued events one by one and
stores the reply channels of requests that wait. It is composed with the upload server through the
event queue.

**The WebRTC data channel** (`Chunking`, `WebRtcMessages`, `PinChallenge`, `Handshake`,
`HandshakeInvariant`, `HandshakeTroubles`, `HandshakeTheorems`, `HandshakeProgress`,
`HandshakeTrust`, `FileTransfer`, `FileDelivery`, `SessionDelivery`). Sender and receiver are two
processes with a FIFO channel each way. The re-chunker, the framing, the PIN loops and the two file
loops are methods with loops; the handshake is a joint step system. `HandshakeTrust` puts each side
alone against a peer that sends whatever it likes.

**The signalling rooms** (`Signaling`, `SignalingInvariants`, `SignalingTheorems`,
`SignalingRelays`, `RoomIsolation`). Every lock region is a step, every message sent after the lock
is released is another, and the receive loop and the farewells of one connection are separate
senders, because aborting the loop does not wait for it.

**Text** (`Text`, `IpText`, `ScopedHost`, `InterfaceFilter`, `UniquePath`). Address text follows
section 4 of RFC 5952 (writing) and section 2.2 of RFC 4291 (reading).

## What turned out false, and exactly when

- *A dropped request never leaks the slot.* `clear` disarms the guard before it waits for the lock.
  A request dropped in that wait leaves the slot pending for good, and a pending slot can be freed
  if and only if this did not happen (`PendingSlotFreedIffNotLeaked`, `SlotCanLeak`).
  `docs/TRANSFER-FLOW.md:73-75` says that the guards keep a cancelled request from blocking the
  server; the model follows the code.
- *An active session can always finish.* It can if and only if no upload was dropped in the same
  window of `finish` (`SessionCanFinishIffNoLostUpload`, `SessionCanGetStuck`).
- *A request whose cancel was acknowledged never becomes active.* A request that holds the slot can
  still do so if and only if its handler has not given up, cancelled or not: the decision can win
  against the cancel, and one already taken is installed (`CanBeServedIffNotOver`,
  `CancelledCanBecomeActive`).
- *No event follows the end of a session.* A `FileUpload` can, if and only if an upload of the
  session has not announced itself by then (`PostsAfterTheEndIff`, `SessionEndIsLastIff`,
  `FileUploadCanFollowTheCancel`).
- *The application is told when a session ends.* It is, or still can be, if and only if it did not
  end the session itself and the future that reports the end was not dropped in its send, which
  comes after the slot was freed (`EndIsReportedIffNotDropped`, `EndCanGoUnreported`).
- *`SessionEnd` means that the requests of the session already ended*
  (`packages/doorstep_isolates/rust/src/api/server.rs:296`). Not after a cancel by the sender: the
  channel of an upload that still waits is dropped then, and only then
  (`LiveTargetSurvivesIffNotCancelled`, `CancelDropsALiveChannel`).
- *A decision reaches the request it was taken for.* It carries no session id. It reaches another
  request if and only if the event of a newer one was handled in between (`DecisionGoesAstrayIff`,
  `DecisionCanGoAstray`).
- *Both WebRTC sides always read the kind of message they expect.* A run in which one does not
  exists if and only if both accept the other's token and either the receiver's PIN is empty, or the
  sender's PIN is not empty but allows no tries and the receiver's challenge can be passed
  (`Troubled`, `ProtocolErrorIffTroubled`).
- *Both WebRTC sides reach the file phase or stop for the same reason.* When nothing is left to do
  they have, if and only if the sender accepts the receiver's token or never gets to see it, no user
  who was asked walked away, and the two did not lose step (`RunsEndAlikeIff`). A sender that
  rejects the token stops without a word and leaves the receiver waiting (`RejectionIsSilent`,
  `IdleForGood`).
- *Each answer reports on its own file.* Verdicts are consumed in the order of the files received in
  full, so an answer is sure to carry its own if and only if no file opened before exceeded its
  declared size (`AnswersTheirOwnIff`, `AnswerCanMislead`).
- *The sender stays until every file is answered.* It reads one message after the stream and closes
  the channel (`packages/core/src/webrtc/webrtc.rs:559`), so it has read every answer if and only if
  at most one file was received in full (`SenderHearsAllIff`, `AnswerCanGoUnheard`).
- *The receiver stops cleanly at the delimiter.* It does if and only if the last selected file was
  received in full (`StreamOutcome`); with an empty selection it fails (`EmptySelectionFails`).
- *A device list kept from the signalling messages equals the room.* The sets announced and
  withdrawn do (`DiscoveryIsExact`), but a list kept message by message also shows every client
  whose farewell was overtaken by the receiver's own `Hello` or by an update
  (`ViewIsTheRoomAndGhosts`, `HelloCanOvertake`, `UpdateCanOvertake`).
- *The signalling server keeps no empty rooms.* It keeps an entry without clients if and only if a
  connect to it was refused while nobody was there and nobody has got in since
  (`EmptyRoomIffRefused`, `EmptyRoomCanStay`).
- *IPv4 hosts share a room exactly if they have the same address.* They do so if and only if both
  are seen in IPv4-mapped form, as over an IPv6 listener, whoever they are, or both with their own
  address and it is the same (`HostsShareGroupIff`, `MappedHostsAreMixed`).
- *`decode` accepts only what `encode` produced* (`scoped_host.rs:40-41`). It accepts other
  spellings as well (`WhichNamesAreEncoded`, `DecodeAcceptsMore`).

## Model

| member | source | states |
|---|---|---|
| UploadHandlers.V2State.Claim | packages/core/src/http/server/v2.rs:237-250 | a prepare-upload gets the slot exactly if it was free, and otherwise leaves it alone |
| UploadHandlers.V2State.Install | packages/core/src/http/server/v2.rs:322-329 | the slot becomes the active session, whatever it held |
| UploadHandlers.V2State.ClearPendingSession | packages/core/src/http/server/v2.rs:561-566 | a pending slot is freed whoever owns it, an active one is kept |
| UploadHandlers.V2State.MarkInProgress | packages/core/src/http/server/v2.rs:364-381 | an upload is admitted exactly if session, sender, file, token and pending status agree; then only that file changes, to in progress with one more attempt |
| UploadHandlers.V2State.FinalizeFile | packages/core/src/http/server/v2.rs:619-646 | settles a file in progress: finished if saved, pending again after a mismatch with fewer than three attempts, else failed; frees the slot exactly if all files of the named session are then final |
| UploadHandlers.V2State.CancelSession | packages/core/src/http/server/v2.rs:457-469 | frees the slot exactly for the active session's own id and sender |
| UploadHandlers.V2State.CancelV2Session | packages/core/src/http/server/mod.rs:146-158 | frees the slot exactly for the active session's id |
| UploadHandlers.V2State.ReportEnd | packages/core/src/http/server/v2.rs:648-657 | sending the end of a session that freed the slot is the report step |
| UploadHandlers.PrepareUploadRequest.constructor | packages/core/src/http/server/v2.rs:245-253 | after the claim the request is in step with the whole server, its guard armed |
| UploadHandlers.PrepareUploadRequest.Announce | packages/core/src/http/server/v2.rs:255-266 | queues the event and waits for the decision |
| UploadHandlers.PrepareUploadRequest.Decide | packages/core/src/http/server/v2.rs:283-315 | accepting some of the offered files leaves exactly these, pending and with their tokens, to be installed; declining or accepting none enters `clear` with the guard disarmed |
| UploadHandlers.PrepareUploadRequest.ReceiveCancel | packages/core/src/http/server/v2.rs:433-451 | a cancel reaches the pending request exactly if it comes from its sender and names it or no session; the slot is left to the request |
| UploadHandlers.PrepareUploadRequest.SeeCancel | packages/core/src/http/server/v2.rs:268-281 | a cancelled request ends with its guard armed, which spawns the cleanup |
| UploadHandlers.PrepareUploadRequest.LoseDecision | packages/core/src/http/server/v2.rs:271-274 | so does one whose reply channel was dropped |
| UploadHandlers.PrepareUploadRequest.Clear | packages/core/src/http/server/v2.rs:536-539 | the cleanup of the disarmed guard, once it has the lock |
| UploadHandlers.PrepareUploadRequest.InstallSession | packages/core/src/http/server/v2.rs:322-330 | installs the session and disarms the guard in one step |
| UploadHandlers.PrepareUploadRequest.Drop | packages/core/src/http/server/v2.rs:542-549 | dropping the future spawns a cleanup exactly if the guard is armed; inside `clear` nothing is left to clean up |
| UploadHandlers.PrepareUploadRequest.Reclaim | packages/core/src/http/server/v2.rs:549-550 | the spawned cleanup frees the slot before it reports |
| UploadHandlers.PrepareUploadRequest.ReportAborted | packages/core/src/http/server/v2.rs:551-557 | the abort is queued after the slot was freed |
| UploadHandlers.UploadRequest.constructor | packages/core/src/http/server/v2.rs:378-384 | an admitted upload is in step with the whole server, its guard armed |
| UploadHandlers.UploadRequest.Post | packages/core/src/http/server/v2.rs:390-396 | queues the event and waits for a target |
| UploadHandlers.UploadRequest.ReceiveTarget | packages/core/src/http/server/v2.rs:401-407 | a provided target starts the save |
| UploadHandlers.UploadRequest.BeginFinish | packages/core/src/http/server/v2.rs:396-409 | entering `finish` disarms the guard; without a target the result is a failure |
| UploadHandlers.UploadRequest.Drop | packages/core/src/http/server/v2.rs:595-606 | dropping the future spawns a settlement exactly if the guard is armed |
| UploadHandlers.UploadRequest.Settle | packages/core/src/http/server/v2.rs:619-658 | settles the file, and is to report the end of the session exactly when it freed the slot |
| UploadHandlers.RequestStaysInStep | packages/core/src/http/server/v2.rs:236-342 | while any other task takes a step on the shared state, a prepare-upload request stays in step with the whole server |
| UploadHandlers.UploadStaysInStep | packages/core/src/http/server/v2.rs:364-419 | so does an upload request |
| UploadInvariants.StepKeepsCore | packages/core/src/http/server/v2.rs:208-658 | every step keeps slot ownership, file soundness and upload ownership |
| UploadHistory.StepKeepsInProgress | packages/core/src/http/server/v2.rs:364-384 | every step keeps that a file in progress has an outstanding upload, or one lost inside `finish` |
| UploadHistory.StepKeepsStarts | packages/core/src/http/server/v2.rs:378-379 | every step keeps that the uploads started for a session number the attempts of its files |
| UploadHistory.StepKeepsSuccesses | packages/core/src/http/server/v2.rs:628-637 | every step keeps that no file was saved by two uploads |
| UploadEvents.StepTells | packages/core/src/http/server/v2.rs:255-658 | every step keeps the queued events of every session within the grammar and in line with its phase |
| UploadEvents.StoryMeaning | packages/core/src/http/server/v2.rs:255-658 | what the grammar says about positions in the queue: which events exclude or precede which |
| UploadQueue.StepKeepsQueue | packages/core/src/http/server/v2.rs:255-399 | every step keeps the queue order facts: uploads are posted once and in order, a waiting request has the latest announcement |
| UploadQueue.Reachable | packages/core/src/http/server/v2.rs:208-658 | all of the above in every reachable state |
| UploadTheorems.PendingSlotHasOneOwner | packages/core/src/http/server/v2.rs:236-253 | a request whose guard is armed, whose cleanup is queued or that is about to clear owns the slot under its own id, and every pending slot has such an owner |
| UploadTheorems.SlotIsTakenByItsOwnerOnly | packages/core/src/http/server/v2.rs:322-330 | no step of another request takes a pending slot; an active one is only ended by its sender, the application or its own last upload |
| UploadTheorems.PendingSlotFreedIffNotLeaked | packages/core/src/http/server/v2.rs:535-566 | a pending slot can become free again if and only if its request was not dropped inside `clear` |
| UploadTheorems.SlotCanLeak | packages/core/src/http/server/v2.rs:536-539 | a concrete run after which the slot can never be freed |
| UploadTheorems.UploadOwnsItsFile | packages/core/src/http/server/v2.rs:572-607 | no two outstanding uploads share a file; a file of the active session is in progress exactly while an upload of it is outstanding or lost |
| UploadTheorems.FinalizeSettlesItsOwnAttempt | packages/core/src/http/server/v2.rs:619-630 | a settlement meets its own running, latest attempt, or its session is over and it changes nothing |
| UploadTheorems.ActiveSessionIsNeverComplete | packages/core/src/http/server/v2.rs:639-645 | every reachable active session has a file that is not final |
| UploadTheorems.FinishedMeansComplete | packages/core/src/http/server/v2.rs:648-657 | a session that left the slot finished exactly if all its files are final, a queued `SessionEnd` says how it left, and none of the uploads of a finished one can still announce itself |
| UploadTheorems.EventsAreOrdered | packages/core/src/http/server/v2.rs:542-559 | per session and run: `PrepareUpload` comes first and once, terminal events exclude each other, and only a `FileUpload` can follow one, namely a cancel |
| UploadTheorems.FileUploadCanFollowTheCancel | packages/core/src/http/server/v2.rs:457-479 | a concrete run in which a `FileUpload` follows the cancel |
| UploadEndings.PostsAfterTheEndIff | packages/core/src/http/server/v2.rs:390-399 | after a session has left the slot, a further `FileUpload` of it can be queued if and only if one of its uploads has not announced itself yet |
| UploadEndings.SessionEndIsLastIff | packages/core/src/http/server/v2.rs:457-479 | a queued `SessionEnd` can be followed by a `FileUpload` exactly in that case, which never holds after `Finished` |
| UploadEndings.UnreportedIffDropped | packages/core/src/http/server/v2.rs:648-657 | an end is unreported exactly if the run dropped its report while the session was ending |
| UploadEndings.EndIsReportedIffNotDropped | packages/core/src/http/server/v2.rs:648-657 | the end of a session is queued or can still be queued if and only if the application did not end it and the report was not dropped in its send |
| UploadEndings.EndCanGoUnreported | packages/core/src/http/server/v2.rs:589-592 | a concrete run in which all files are final and the application can never be told |
| UploadEndings.SessionCanGetStuck | packages/core/src/http/server/v2.rs:589-592 | a concrete run to an active session that can never finish |
| UploadCauses.FatesHaveCauses | packages/core/src/http/server/v2.rs:268-658 | in every run a request was cancelled, gave up or leaked the slot, and a session was cancelled, withdrawn, ran to its end or ended unreported, if and only if the run holds the step that leads there |
| UploadCauses.EntersIffFree | packages/core/src/http/server/v2.rs:229-250 | a new request enters if and only if it offers files and the slot is free; any other changes nothing |
| UploadCauses.CancelIsSeenIffSent | packages/core/src/http/server/v2.rs:433-451 | a waiting request sees a cancel if and only if its own sender sent one, for it or for any session, while it held the slot |
| UploadCauses.CanBeServedIffNotOver | packages/core/src/http/server/v2.rs:271-330 | a request that holds the slot can still become active if and only if its handler has not given up, whether cancelled or not |
| UploadCauses.CancelledCanBecomeActive | packages/core/src/http/server/v2.rs:271-330 | a concrete run in which a cancelled request becomes active |
| UploadAdmission.FilesAreAsDecided | packages/core/src/http/server/v2.rs:283-329 | in every run a session has exactly the offered files that the user accepted, each with the token issued for it, for good; a request for which none was accepted has no session |
| UploadAdmission.DecidedOnce | packages/core/src/http/server/v2.rs:268-315 | a request is decided at most once |
| UploadAdmission.AdmittedIffInvited | packages/core/src/http/server/v2.rs:364-381 | in every run an upload is admitted if and only if it comes from the sender of the active session with the token that the decision issued for its file, and the file is pending; then its file alone is in progress, with one more attempt; any other changes nothing |
| UploadAdmission.OnlyBeginningAdds | packages/core/src/http/server/v2.rs:378-384 | no other step adds an upload |
| UploadOutcomes.StatusIsTheLatestUpload | packages/core/src/http/server/v2.rs:619-637 | in every run a file is finished iff an upload of it was saved, failed iff the latest was not saved or was the third mismatch, pending again iff it was a first or second mismatch, in progress iff it is not settled; its attempts number its uploads |
| UploadOutcomes.SettlesAsItEnded | packages/core/src/http/server/v2.rs:396-419 | in every run an upload settles with the result its handler ended with: that of the save, or failure without a target or when dropped |
| UploadTheorems.FileUploadsAreServed | packages/core/src/http/server/v2.rs:390-399 | `FileUpload` is only queued for a session that became active and a file it accepted |
| UploadTheorems.RetriesAreBounded | packages/core/src/http/server/v2.rs:609-637 | a session of n files starts at most 3n uploads, attempts stay within bounds, each file succeeds at most once |
| UploadTheorems.RankDecreases | packages/core/src/http/server/v2.rs:375-379 | a sum over the files, at most 6n, strictly drops with every upload start and settlement |
| UploadTheorems.SessionCanFinishIffNoLostUpload | packages/core/src/http/server/v2.rs:589-592 | an active session can still finish if and only if no upload of it was dropped inside `finish` |
| EventBridge.ReachableSystem | packages/doorstep_isolates/rust/src/api/server.rs:254-322 | in every joint run each waiting request has its reply sent, its channel stored or its event queued |
| EventBridge.EventsAreFair | packages/doorstep_isolates/rust/src/api/server.rs:262-313 | the request behind any decision channel the next event discards is already over |
| EventBridge.WaitingRequestCanBeAnswered | packages/doorstep_isolates/rust/src/api/server.rs:262-270 | a request that waits for its decision never finds its channel dropped |
| EventBridge.LiveDecisionSurvivesEvents | packages/doorstep_isolates/rust/src/api/server.rs:303-314 | no event, a late abort of an older request included, removes the channel of a waiting request |
| EventBridge.LiveTargetSurvivesIffNotCancelled | packages/doorstep_isolates/rust/src/api/server.rs:279-302 | the channel of a waiting upload survives the next event exactly if that is not the cancel of its session |
| EventBridge.WaitingUploadLosesChannelOnlyByCancel | packages/doorstep_isolates/rust/src/api/server.rs:295-301 | a waiting upload lost its channel only to a cancel by the sender or to the application |
| EventBridge.CancelDropsALiveChannel | packages/doorstep_isolates/rust/src/api/server.rs:295-300 | a concrete run in which the end of a session drops the channel of an upload that still waits |
| EventBridge.DecisionGoesAstrayIff | packages/doorstep_isolates/rust/src/api/server.rs:365-383 | a decision answered later reaches another request than the one it was taken for if and only if a newer prepare-upload was handled in between |
| EventBridge.DecisionCanGoAstray | packages/doorstep_isolates/rust/src/api/server.rs:369-371 | a concrete run in which the decision on a dropped request is applied to the next one |
| BridgeAnswers.SessionsAreAsAnswered | packages/doorstep_isolates/rust/src/api/server.rs:365-383 | in every run of server and bridge a request that was served was answered with an `Accept`, and its session has exactly the accepted ones among the offered files; one answered with `Decline`, or with none of its files, is never served |
| BridgeAnswers.DecisionRepliesAre | packages/doorstep_isolates/rust/src/api/server.rs:262-314 | a prepare-upload got a reply if and only if its own channel was stored when the answer, a newer event or its abort came |
| BridgeAnswers.TargetRepliesAre | packages/doorstep_isolates/rust/src/api/server.rs:279-302 | an upload got a reply if and only if its own channel was stored, under its own file, when the action came that means this reply |
| BridgeAnswers.TargetIsGivenIffResolved | packages/doorstep_isolates/rust/src/api/server.rs:391-438 | an upload is given a target if and only if one was resolved while its channel was stored, and is given up by the application if and only if none was, it was failed or its session was cancelled |
| BridgeAnswers.SavedOnlyWhereTold | packages/doorstep_isolates/rust/src/api/server.rs:432-437 | an upload is only ever saved where the application resolved a target for this very upload |
| BridgeAnswers.AnswerMovesTheUpload | packages/core/src/http/server/v2.rs:401-409 | a waiting upload goes on exactly as it is answered: with a target it saves, without one it is settled as failed, and before the answer it does neither |
| EventBridge.RsHttpServer.HandleServerEvent | packages/doorstep_isolates/rust/src/api/server.rs:254-322 | which channel each event stores, replaces or drops |
| EventBridge.RsHttpServer.RetainOthers | packages/doorstep_isolates/rust/src/api/server.rs:297-300 | exactly the channels of the session are dropped |
| EventBridge.RsHttpServer.RemoveUpload | packages/doorstep_isolates/rust/src/api/server.rs:451-457 | failing an upload drops its channel and no other |
| EventBridge.RsHttpServer.RespondPrepareUpload | packages/doorstep_isolates/rust/src/api/server.rs:365-383 | the stored request is answered and forgotten, or there is none and nothing changes |
| EventBridge.RsHttpServer.RespondFileUpload | packages/doorstep_isolates/rust/src/api/server.rs:391-438 | the stored upload is given its target, or dropped if no single one was resolved; it is no longer stored, and no other is touched |
| Chunking.ProcessInChunks | packages/core/src/webrtc/webrtc.rs:1293-1321 | whatever the split of the input, the chunks hold its bytes, all but the last are full, none is empty |
| Chunking.ReceiveStringFromChunks | packages/core/src/webrtc/webrtc.rs:1343-1354 | the bytes up to the next text message, and what is left in the queue |
| Chunking.FrameRoundTrip | packages/core/src/webrtc/webrtc.rs:1272-1354 | a string sent in chunks and delimited is read back, and exactly the messages behind it remain |
| PinChallenge.VerifyPin | packages/core/src/webrtc/webrtc.rs:1196-1248 | passes exactly if the PIN is empty or among the first allowed entries; every PIN read gets one reply; the counter stays within its byte |
| PinChallenge.ProvePin | packages/core/src/webrtc/webrtc.rs:1132-1188 | ends as the last reply says, and sends a PIN only after the previous one was refused |
| HandshakeInvariant.JointStepKeepsShape | packages/core/src/webrtc/webrtc.rs:234-409 | every joint step keeps which states, outboxes and channels go together |
| HandshakeInvariant.ReachableShape | packages/core/src/webrtc/webrtc.rs:678-881 | the same in every joint run of an untroubled configuration |
| HandshakeTroubles.ReachableTroubled | packages/core/src/webrtc/webrtc.rs:1210-1234 | the same for the configurations on which the two sides can lose step: where they do, and that they never reach the file phase then |
| HandshakeTheorems.SenderNoncesAgree | packages/core/src/webrtc/webrtc.rs:246-248 | in every joint run of every configuration both sides sign the sender's nonce followed by the receiver's |
| HandshakeTheorems.RunsEndAlikeIff | packages/core/src/webrtc/webrtc.rs:678-881 | with nothing left to do, both sides are in the file phase with equal terms or stopped for the same reason if and only if the tokens suit, no user walked away and the two did not lose step; then all messages are read but for a PIN sent to a receiver that allows no tries |
| HandshakeTheorems.IdleForGood | packages/core/src/webrtc/webrtc.rs:1343-1354 | once nothing is left to do nothing happens any more: a side that still waits does so for good |
| HandshakeTheorems.AbandonedIffWalkedAway | packages/core/src/webrtc/webrtc.rs:1148-1150 | a side stops as abandoned exactly if its user walked away when asked |
| HandshakeTheorems.RejectionIsSilent | packages/core/src/webrtc/webrtc.rs:276-288 | whatever the receiver's PIN, a sender that rejects its token can leave it as it was after sending it, and nothing is left to do |
| HandshakeTheorems.PinVerdicts | packages/core/src/webrtc/webrtc.rs:1210-1229 | in every configuration, a session that gets to the file phase passed each challenge within its tries; one that stops over a PIN has not |
| HandshakeTheorems.ReceiverFollowsLoop | packages/core/src/webrtc/webrtc.rs:736-771 | the receiver process, fed with any PINs, ends as the verification loop does and replies once to each PIN it reads |
| HandshakeTheorems.SenderFollowsLoop | packages/core/src/webrtc/webrtc.rs:328-363 | the same for the sender's challenge, with one delimited string as the reply to each PIN it reads |
| HandshakeTheorems.ProtocolErrorIffTroubled | packages/core/src/webrtc/webrtc.rs:1210-1234 | a joint run with a message of the wrong kind exists if and only if the configuration is one of two troubled ones |
| HandshakeTheorems.EmptyPinLosesStep | packages/core/src/webrtc/webrtc.rs:1210-1216 | with an empty receiver PIN a run ends in a protocol error |
| HandshakeTheorems.NoTriesLosesStep | packages/core/src/webrtc/webrtc.rs:819-826 | with a sender PIN that allows no tries a run ends in a protocol error |
| HandshakeProgress.StepsLower | packages/core/src/webrtc/webrtc.rs:234-409 | in every state and configuration each step that changes anything strictly lowers a lexicographic measure, so no joint run goes on for ever |
| HandshakeProgress.IdleIffStuck | packages/core/src/webrtc/webrtc.rs:1343-1354 | a state is idle exactly if no step changes it |
| HandshakeProgress.RunsComeToRest | packages/core/src/webrtc/webrtc.rs:678-881 | from every state a run leads to an idle one |
| HandshakeProgress.FilePhaseIsReached | packages/core/src/webrtc/webrtc.rs:859-881 | for every selection a run gets both sides to the file phase with it, all messages read |
| HandshakeProgress.FilePhaseReachableIff | packages/core/src/webrtc/webrtc.rs:234-409 | the file phase is reachable if and only if both tokens are accepted, the sides cannot lose step, and the receiver allows a try if it asks |
| HandshakeTrust.ReceiverLetsInOnlyProven | packages/core/src/webrtc/webrtc.rs:678-771 | whatever a peer sends: the receiver lets it in only after a nonce of an allowed length, a token of the expected key over both nonces, and the right PIN after fewer wrong ones than tries; the files shown are those offered then |
| HandshakeTrust.SenderOffersOnlyToProven | packages/core/src/webrtc/webrtc.rs:246-363 | the same for a sender before it offers its files; it sends only what the peer then selected |
| FileTransfer.SendFiles | packages/core/src/webrtc/webrtc.rs:501-557 | the stream is a header and the chunks for each selected file in order, then the delimiter; an unselected file adds nothing but an error; one incoming message is read at the end |
| FileTransfer.ReceiveFiles | packages/core/src/webrtc/webrtc.rs:883-1015 | the loop computes the message-by-message outcome that the theorems are about |
| FileTransfer.FindSize | packages/core/src/webrtc/webrtc.rs:950-953 | the size the first entry with the id declares |
| FileTransfer.FirstEntryCounts | packages/core/src/webrtc/webrtc.rs:950-953 | of several entries with the id the first one counts |
| FileTransfer.UnselectedAreReported | packages/core/src/webrtc/webrtc.rs:501-515 | each file that was not selected is reported once, no other is |
| FileDelivery.OneFile | packages/core/src/webrtc/webrtc.rs:924-1003 | from any state, one file of the stream answers the previous one and delivers the chunks that fit its declared size |
| FileDelivery.StreamOutcome | packages/core/src/webrtc/webrtc.rs:883-1015 | for every list of files, every split of their bytes and all verdicts: what is delivered, answered and reported, and that the loop completes exactly if the last selected file was received in full |
| FileDelivery.FilesAreDelivered | packages/core/src/webrtc/webrtc.rs:885-922 | if contents fit their sizes, every selected file is delivered in order, byte for byte, and answered once, nothing is reported; the loop completes exactly if one was selected |
| FileDelivery.AnswersTheirOwnIff | packages/core/src/webrtc/webrtc.rs:891-909 | an answer carries the verdict on its own file, whatever the verdicts, if and only if no file opened before it exceeded its declared size |
| FileDelivery.AnswerCanMislead | packages/core/src/webrtc/webrtc.rs:984-1000 | a concrete stream whose only answer names the second file and carries the verdict on the first |
| FileDelivery.EmptySelectionFails | packages/core/src/webrtc/webrtc.rs:911-924 | with nothing selected the receiver fails on the delimiter |
| FileDelivery.SenderHearsAllIff | packages/core/src/webrtc/webrtc.rs:557-561 | the sender has read every answer when it closes if and only if at most one file was received in full |
| FileDelivery.AnswerCanGoUnheard | packages/core/src/webrtc/webrtc.rs:557-561 | a concrete stream of two files whose second answer is left unread |
| FileDelivery.ReceiverIsSafe | packages/core/src/webrtc/webrtc.rs:924-1003 | against any messages: data only after a header with the issued token, never more than declared, the counter exact, at most one answer per opened file |
| FileDelivery.NothingIsRefusedInSilence | packages/core/src/webrtc/webrtc.rs:924-1003 | against any messages: every header opens a delivery or is reported, every chunk is forwarded or reported |
| FileDelivery.ReportsAreTrue | packages/core/src/webrtc/webrtc.rs:924-992 | against any messages: a report is about a header or chunk that did arrive and says what is wrong with it |
| FileDelivery.LoopEndsIff | packages/core/src/webrtc/webrtc.rs:891-924 | against any messages: the loop goes on exactly for as long as headers and chunks arrive |
| FileDelivery.LoopEndsAs | packages/core/src/webrtc/webrtc.rs:911-924 | the first other message ends it, well exactly if it is the delimiter and a file is open |
| SessionDelivery.SessionDelivers | packages/core/src/webrtc/webrtc.rs:859-922 | whenever a joint handshake gets the sender to its file phase, the receiver gets the files its user selected, byte for byte, in whatever order they are sent and also when they are shorter than declared |
| Signaling.AppState.ProtectRequestCount | server/src/controller/ws_controller.rs:358-369 | a request is accepted and counted exactly below the limit |
| Signaling.AppState.Connect | server/src/controller/ws_controller.rs:108-143 | the connect region is the connect step: admission, the room found, both maps |
| Signaling.AppState.Accept | server/src/controller/ws_controller.rs:185-195 | a client message is counted or refused as in the step |
| Signaling.AppState.UpdateClient | server/src/controller/ws_controller.rs:284-297 | the update region stores the information and picks exactly the others in the room |
| Signaling.AppState.FindTarget | server/src/controller/ws_controller.rs:324-332 | a relay finds its target exactly in the room of its sender, and then sends it an offer for an offer, an answer for an answer |
| Signaling.AppState.Disconnect | server/src/controller/ws_controller.rs:249-268 | the disconnect region removes the client, drops an emptied room and picks exactly those who remain |
| SignalingInvariants.StepKeepsInv | server/src/controller/ws_controller.rs:88-356 | every step keeps rooms, pending sends, received messages and pairwise discovery consistent |
| SignalingInvariants.Reachable | server/src/controller/ws_controller.rs:88-356 | the same in every run |
| SignalingTheorems.NobodyIsAnnouncedTwice | server/src/controller/ws_controller.rs:152-163 | at any moment a client has at most one `Hello`, one announcement and one farewell of each other client, the farewell after the `Join` |
| SignalingTheorems.DiscoveryIsExact | server/src/controller/ws_controller.rs:108-164 | once greetings and farewells are sent, the ids told of less those told to have left are the others in the room |
| SignalingTheorems.ViewIsTheRoomAndGhosts | app/lib/provider/network/webrtc/signaling_provider.dart:115-140 | the device list shows the room and besides it exactly the clients whose farewell was overtaken |
| SignalingTheorems.WhatOvertakes | server/src/controller/ws_controller.rs:152-163 | only the receiver's own `Hello` or an update can overtake a farewell |
| SignalingTheorems.HelloCanOvertake | server/src/controller/ws_controller.rs:158-163 | a concrete run in which a `Hello` lists a client whose farewell came first |
| SignalingTheorems.UpdateCanOvertake | server/src/controller/ws_controller.rs:232-247 | a concrete run in which an update of a stopped receive loop follows the farewell |
| SignalingTheorems.LimitsHold | server/src/controller/ws_controller.rs:111-123 | no room exceeds its limit, and between two clears no group has more requests accepted than allowed |
| SignalingTheorems.ClearLetsIn | server/src/config/scheduler.rs:8-18 | after the hourly clear a connect gets in exactly if the room has a place and any request is allowed at all |
| SignalingTheorems.EmptyRoomIffRefused | server/src/controller/ws_controller.rs:108-123 | an entry without clients exists if and only if a connect to it was refused while nobody was there and nobody has got in since |
| SignalingTheorems.EmptyRoomCanStay | server/src/controller/ws_controller.rs:108-123 | a concrete run that leaves one |
| SignalingRelays.RequestsAreTakenOnce | server/src/controller/ws_controller.rs:182-247 | in every run each accepted request waits or has been taken, once |
| SignalingRelays.TalkIsOwed | server/src/controller/ws_controller.rs:284-355 | in every run the updates and relayed messages that a client got or is about to get from another number the taken requests that owe them: an offer is an offer, an answer an answer, each with the information its sender connected with and only to a target in the room; an update goes to everybody else there |
| SignalingRelays.RelayArrives | server/src/controller/ws_controller.rs:324-355 | a relay whose target is in the room reaches it alone with the connection's next message; for any other target nothing is sent |
| SignalingRelays.StaysAsAdmitted | server/src/controller/ws_controller.rs:108-143 | a connection keeps the group and the information it was admitted with |
| SignalingRelays.RoomsAreCurrent | server/src/controller/ws_controller.rs:284-297 | the rooms show each client with its latest information |
| SignalingRelays.NothingIsMadeUp | server/src/controller/ws_controller.rs:125-164 | whatever rooms, greetings and messages say about a client it has said about itself, when admitted or in an accepted update |
| SignalingRelays.RefusedForGood | server/src/controller/ws_controller.rs:182-195 | a client refused once gets no further request accepted, not even after the counters are cleared |
| SignalingRelays.RefusalIsTold | server/src/controller/ws_controller.rs:185-195 | a request is refused exactly beyond the limit, and its client alone is told so by the connection's next message |
| RoomIsolation.GroupsAreNetworks | server/src/util/ip.rs:3-18 | two addresses have the same group exactly if they are the same IPv4 address or share an IPv6 /64 |
| RoomIsolation.HostsShareGroupIff | server/src/util/ip.rs:5-16 | two IPv4 hosts get the same group if and only if both are seen in mapped form, or both with their own, equal address |
| RoomIsolation.MappedHostsAreMixed | server/src/util/ip.rs:9-16 | two unrelated hosts in one group, and one host in two |
| RoomIsolation.RoomsAreIsolated | server/src/controller/ws_controller.rs:319-355 | whatever a client receives in any run is about a client of its own network |
| InterfaceFilter.MatchesIffFilled | packages/core/src/multicast/interface.rs:49-66 | a pattern matches exactly if replacing every star by some non-empty dot-free text gives the address |
| InterfaceFilter.MatchesPartByPart | packages/core/src/multicast/interface.rs:57-63 | equivalently, both have the same number of dotted parts and each part matches its partner |
| InterfaceFilter.MatchesOctets | packages/core/src/multicast/interface.rs:39-46 | an IPv4 address is matched octet by octet |
| InterfaceFilter.IgnoredExactly | packages/core/src/multicast/interface.rs:21-35 | an interface is used exactly if an address fills a whitelisted pattern and none a blacklisted one |
| IpText.V6ReadsBack | packages/core/src/http/client/scoped_host.rs:26-37 | every IPv6 address is read back from its text |
| IpText.OnlyMappedHasDots | packages/core/src/http/client/scoped_host.rs:29-32 | the text has a dot exactly for an IPv4-mapped address |
| IpText.LongestComesFirst | packages/core/src/http/client/scoped_host.rs:34-37 | the text compresses the first of the longest runs of zeros, as section 4.2 of RFC 5952 demands |
| IpText.WhatIsCompressed | packages/core/src/http/client/scoped_host.rs:34-37 | zeros are compressed exactly where two or more stand in a row, and then the whole first longest run, as section 4.2 of RFC 5952 demands |
| ScopedHost.PeerRoundTrip | packages/core/src/http/server/peer_ip.rs:19-38 | printing, encoding and decoding a remote address gives it back exactly if it is IPv6, scoped and not IPv4-mapped; any other is not encoded |
| ScopedHost.WhatPeersPrint | packages/core/src/http/server/peer_ip.rs:19-46 | a peer prints its address, and a scope exactly if it is IPv6 with a scope other than zero |
| ScopedHost.PeersPrintApart | packages/core/src/http/server/peer_ip.rs:19-46 | peers print alike exactly if they have the same address and scope |
| ScopedHost.WhichPeersAreEncoded | packages/core/src/http/client/scoped_host.rs:23-32 | a printed peer is encoded exactly if it is IPv6, scoped and not IPv4-mapped |
| ScopedHost.DecodeReversesEncode | packages/core/src/http/client/scoped_host.rs:23-51 | whatever host is encoded, decoding gives the address and scope it was read as |
| ScopedHost.EncodeIsInjective | packages/core/src/http/client/scoped_host.rs:23-38 | two hosts share a name exactly if they are read as the same address and scope |
| ScopedHost.WhichNamesAreEncoded | packages/core/src/http/client/scoped_host.rs:40-51 | a decodable name was encoded exactly if it is the canonical spelling of an address that is not IPv4-mapped |
| ScopedHost.DecodeAcceptsMore | packages/core/src/http/client/scoped_host.rs:44-47 | for every address and scope a name that decodes to them and was never encoded |
| UniquePath.FreeName | cli/src/util.rs:53-72 | the result is not in the directory; it is the wanted name if free, else the one with the smallest free number, found within as many numbers as there are names |
| UniquePath.TakenNumbersAreFew | cli/src/util.rs:68-71 | fewer numbers in a row are taken than there are names |
| UniquePath.NumberedDiffer | cli/src/util.rs:69-69 | different numbers give different names |
| UniquePath.NumberStandsBeforeTheExtension | cli/src/util.rs:64-69 | the numbered name is the stem, the number in parentheses and the extension; the number reads back in base 10, without leading zeros |
| UniquePath.WhatIsTheExtension | cli/src/util.rs:64-67 | the extension starts at the last dot; a dot that leads the name starts none |
| UniquePath.ExtensionIsKept | cli/src/util.rs:64-67 | numbering keeps the extension |

## Left out

- UploadTheorems.UploadOwnsItsFile: counts an upload lost inside `finish` as outstanding, because its file does stay in progress.
- SignalingTheorems.DiscoveryIsExact: about the sets of ids announced and withdrawn; the list kept message by message is `ViewIsTheRoomAndGhosts`.
- ScopedHost.PeerRoundTrip: gives back address and scope; port and flow are placeholders in the original as well.
- UniquePath.FreeName: directories are finite sets of names, the counter is unbounded where the original's is 32 bits wide, and `Path::file_name` and races with other writers are not modelled.
- FileTransfer.SendFiles: every send succeeds; an error on the data channel ends a session and is not modelled.
- FileTransfer.ReceiveFiles: byte counts are unbounded where the original's are 64 bits wide; an application that drops the stream of an open file ends the loop with an error there, and is not modelled.
- HandshakeTheorems.RunsEndAlikeIff: about runs whose channels stay open; a lost connection and the pairing answer, which a receiving peer never sends, are not modelled.
- Signaling.Run: the bounded channels of the original can make a send wait; only the order of sends is modelled, not that they happen.
- EventBridge.RunAll: the event queue stays open for as long as the bridge exists, and the fields that the web feature uses are left out.
- TLS, certificates, signatures, base64, compression and JSON: tokens are opaque values, JSON messages are datatypes, and the chunked JSON messages go through a codec whose parser undoes its writer.
- PIN checks of the HTTP server, saving to disk and checksums: the save result is any of success, failure and mismatch.
- The choice of the client address from a forwarded-for header: the address is a parameter.
- Non-ASCII addresses in the filter: addresses are printed by the standard library and are ASCII.
- Web downloads, the command line's counters and rendering, discovery loops, the device registry and configuration: they would add only easy members or weak guarantees.
