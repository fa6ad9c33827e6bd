/**
 The v2 upload server as a step system.

 A step is what one task does between two points where it may be suspended:
 a critical section on the session slot, queueing an event, or a request future
 being dropped. Steps of different requests interleave freely. `Apply` ignores a
 step that its task cannot take in the current state, so a run is any sequence
 of steps.
 */
module UploadServer {
  import opened UploadSession

  datatype EndReason = SessionFinished | SessionCancelled

  datatype Event =
    | Register
    | PrepareUpload(id: SessionId)
    | FileUpload(id: SessionId, file: FileId, upload: nat)
    | SessionEnd(id: SessionId, reason: EndReason)
    | PrepareUploadAborted(id: SessionId)
    | CancelReceived(id: SessionId)

  datatype Decision = Accept(ids: set<FileId>) | Decline

  /** How far a prepare-upload request, and later the session it created, has come. */
  datatype Phase =
    // the request handler; its `PendingSessionGuard` is armed in these three
    | Announcing                                  // sending `PrepareUpload`
    | Deciding                                    // waiting for the decision or a cancel
    | Installing(files: Files)                    // accepted, waiting for the slot lock
    | Clearing                                    // in `clear`: disarmed, waiting for the slot lock
    // the cleanup task spawned by dropping an armed guard
    | Reclaiming                                  // waiting for the slot lock
    | Aborting                                    // slot freed, sending `PrepareUploadAborted`
    | Aborted(reported: bool)
    | Dismissed                                   // declined, or nothing to transfer
    | Leaked                                      // dropped inside `clear`: no cleanup is left
    // the session
    | Serving                                     // installed as the active session
    | Ending(reason: EndReason, files: Files)     // left the slot, sending `SessionEnd`
    | Ended(reason: EndReason, files: Files, reported: bool)
    | Withdrawn(files: Files)                     // ended by the application: no event

  datatype Request = Request(sender: PeerIp, offered: set<FileId>, cancelled: bool, phase: Phase)

  /** How far one upload request has come since it marked its file as in progress. */
  datatype UploadPhase =
    // the request handler; its `UploadGuard` is armed in these three
    | Posting                                     // sending `FileUpload`
    | AwaitingTarget
    | Saving
    | Finishing(result: SaveResult)               // in `finish`: disarmed, waiting for the slot lock
    | Orphaned                                    // armed guard dropped: its task waits for the slot lock
    | Settled(result: SaveResult)                 // `finalize_file` found its session
    | Stale                                       // `finalize_file` found another session, or none
    | Lost                                        // dropped inside `finish`: no cleanup is left

  datatype Upload = Upload(id: SessionId, file: FileId, phase: UploadPhase)

  datatype State = State(
    slot: Slot,
    requests: map<SessionId, Request>,
    uploads: seq<Upload>,
    log: seq<Event>                               // every event ever queued, in order
  )

  const INIT: State := State(NoSession, map[], [], [])

  datatype Step =
    | ClaimSlot(id: SessionId, sender: PeerIp, offered: set<FileId>)
    | AnnouncePrepare(id: SessionId)
    | DropPrepare(id: SessionId)                  // the handler ends with its guard armed
    | LoseDecision(id: SessionId)                 // the application dropped its reply channel
    | SeeCancel(id: SessionId)
    | Decide(id: SessionId, decision: Decision, tokens: FileId -> Token)
    | ClearPending(id: SessionId)
    | DropClear(id: SessionId)
    | Reclaim(id: SessionId)
    | ReportAborted(id: SessionId, delivered: bool)
    | Install(id: SessionId)
    | CancelPending(sender: PeerIp, wanted: set<SessionId>)
    | CancelActive(sender: PeerIp, id: SessionId)
    | Withdraw(id: SessionId)
    | ReportEnd(id: SessionId, delivered: bool)
    | BeginUpload(id: SessionId, sender: PeerIp, file: FileId, token: Token)
    | PostUpload(upload: nat)
    | FailUpload(upload: nat)                     // event not queued, or no target provided
    | ReceiveTarget(upload: nat)
    | FinishSave(upload: nat, result: SaveResult)
    | DropUpload(upload: nat)
    | DropFinish(upload: nat)
    | Settle(upload: nat)
    | Notify(event: Event)                        // `Register` and `CancelReceived`

  // ---------------------------------------------------------------------------
  // State updates
  // ---------------------------------------------------------------------------

  predicate InPhase(s: State, id: SessionId, phase: Phase) {
    id in s.requests && s.requests[id].phase == phase
  }

  predicate UploadIn(s: State, u: nat, phase: UploadPhase) {
    u < |s.uploads| && s.uploads[u].phase == phase
  }

  function WithPhase(s: State, id: SessionId, phase: Phase): State {
    if id in s.requests then s.(requests := s.requests[id := s.requests[id].(phase := phase)]) else s
  }

  function WithUpload(s: State, u: nat, phase: UploadPhase): State
    requires u < |s.uploads|
  {
    s.(uploads := s.uploads[u := s.uploads[u].(phase := phase)])
  }

  function WithEvent(s: State, e: Event): State {
    s.(log := s.log + [e])
  }

  /** The `PendingSessionGuard` of the request is armed. */
  predicate GuardArmed(phase: Phase) {
    phase.Announcing? || phase.Deciding? || phase.Installing?
  }

  /** The `UploadGuard` of the request is armed. */
  predicate UploadGuardArmed(phase: UploadPhase) {
    phase.Posting? || phase.AwaitingTarget? || phase.Saving?
  }

  // ---------------------------------------------------------------------------
  // The steps
  // ---------------------------------------------------------------------------

  function DoClaimSlot(s: State, id: SessionId, sender: PeerIp, offered: set<FileId>): State {
    if id in s.requests || offered == {} || !s.slot.NoSession? then s
    else s.(slot := ClaimedSlot(s.slot, id, sender),
            requests := s.requests[id := Request(sender, offered, false, Announcing)])
  }

  function DoAnnouncePrepare(s: State, id: SessionId): State {
    if InPhase(s, id, Announcing) then WithEvent(WithPhase(s, id, Deciding), PrepareUpload(id)) else s
  }

  function DoDropPrepare(s: State, id: SessionId): State {
    if id in s.requests && GuardArmed(s.requests[id].phase) then WithPhase(s, id, Reclaiming) else s
  }

  function DoLoseDecision(s: State, id: SessionId): State {
    if InPhase(s, id, Deciding) then WithPhase(s, id, Reclaiming) else s
  }

  function DoSeeCancel(s: State, id: SessionId): State {
    if InPhase(s, id, Deciding) && s.requests[id].cancelled then WithPhase(s, id, Reclaiming) else s
  }

  function DoDecide(s: State, id: SessionId, decision: Decision, tokens: FileId -> Token): State {
    if !InPhase(s, id, Deciding) then s
    else match decision
      case Decline => WithPhase(s, id, Clearing)
      case Accept(ids) =>
        var files := AcceptedFiles(s.requests[id].offered, ids, tokens);
        WithPhase(s, id, if files == map[] then Clearing else Installing(files))
  }

  function DoClearPending(s: State, id: SessionId): State {
    if InPhase(s, id, Clearing) then WithPhase(s, id, Dismissed).(slot := ClearedSlot(s.slot)) else s
  }

  function DoDropClear(s: State, id: SessionId): State {
    if InPhase(s, id, Clearing) then WithPhase(s, id, Leaked) else s
  }

  function DoReclaim(s: State, id: SessionId): State {
    if InPhase(s, id, Reclaiming) then WithPhase(s, id, Aborting).(slot := ClearedSlot(s.slot)) else s
  }

  function DoReportAborted(s: State, id: SessionId, delivered: bool): State {
    if !InPhase(s, id, Aborting) then s
    else
      var t := WithPhase(s, id, Aborted(delivered));
      if delivered then WithEvent(t, PrepareUploadAborted(id)) else t
  }

  function DoInstall(s: State, id: SessionId): State {
    if id in s.requests && s.requests[id].phase.Installing? then
      var r := s.requests[id];
      WithPhase(s, id, Serving).(slot := ActiveSession(id, r.sender, r.phase.files))
    else s
  }

  function DoCancelPending(s: State, sender: PeerIp, wanted: set<SessionId>): State {
    if CancelsPending(s.slot, sender, wanted) && s.slot.id in s.requests
    then s.(requests := s.requests[s.slot.id := s.requests[s.slot.id].(cancelled := true)])
    else s
  }

  function DoCancelActive(s: State, sender: PeerIp, id: SessionId): State {
    if CancelsActive(s.slot, sender, id)
    then WithPhase(s, id, Ending(SessionCancelled, s.slot.files)).(slot := NoSession)
    else s
  }

  function DoWithdraw(s: State, id: SessionId): State {
    if Serves(s.slot, id) then WithPhase(s, id, Withdrawn(s.slot.files)).(slot := NoSession) else s
  }

  function DoReportEnd(s: State, id: SessionId, delivered: bool): State {
    if !(id in s.requests && s.requests[id].phase.Ending?) then s
    else
      var p := s.requests[id].phase;
      var t := WithPhase(s, id, Ended(p.reason, p.files, delivered));
      if delivered then WithEvent(t, SessionEnd(id, p.reason)) else t
  }

  function DoBeginUpload(s: State, id: SessionId, sender: PeerIp, f: FileId, token: Token): State {
    if UploadAllowed(s.slot, id, sender, f, token)
    then s.(slot := s.slot.(files := s.slot.files[f := StartedFile(s.slot.files[f])]),
            uploads := s.uploads + [Upload(id, f, Posting)])
    else s
  }

  function DoPostUpload(s: State, u: nat): State {
    if UploadIn(s, u, Posting)
    then WithEvent(WithUpload(s, u, AwaitingTarget), FileUpload(s.uploads[u].id, s.uploads[u].file, u))
    else s
  }

  function DoFailUpload(s: State, u: nat): State {
    if UploadIn(s, u, Posting) || UploadIn(s, u, AwaitingTarget) then WithUpload(s, u, Finishing(NotSaved)) else s
  }

  function DoReceiveTarget(s: State, u: nat): State {
    if UploadIn(s, u, AwaitingTarget) then WithUpload(s, u, Saving) else s
  }

  function DoFinishSave(s: State, u: nat, result: SaveResult): State {
    if UploadIn(s, u, Saving) then WithUpload(s, u, Finishing(result)) else s
  }

  function DoDropUpload(s: State, u: nat): State {
    if u < |s.uploads| && UploadGuardArmed(s.uploads[u].phase) then WithUpload(s, u, Orphaned) else s
  }

  function DoDropFinish(s: State, u: nat): State {
    if u < |s.uploads| && s.uploads[u].phase.Finishing? then WithUpload(s, u, Lost) else s
  }

  function DoSettle(s: State, u: nat): State {
    if u < |s.uploads| && (s.uploads[u].phase.Finishing? || s.uploads[u].phase.Orphaned?) then
      var up := s.uploads[u];
      var result := if up.phase.Finishing? then up.phase.result else NotSaved;
      if Serves(s.slot, up.id) then
        var slot := FinalizedSlot(s.slot, up.id, up.file, result);
        var t := WithUpload(s, u, Settled(result)).(slot := slot);
        if slot.NoSession?
        then WithPhase(t, up.id, Ending(SessionFinished, SettledFiles(s.slot.files, up.file, result)))
        else t
      else WithUpload(s, u, Stale)
    else s
  }

  function DoNotify(s: State, e: Event): State {
    if e.Register? || e.CancelReceived? then WithEvent(s, e) else s
  }

  function Apply(s: State, step: Step): State {
    match step
    case ClaimSlot(id, sender, offered) => DoClaimSlot(s, id, sender, offered)
    case AnnouncePrepare(id) => DoAnnouncePrepare(s, id)
    case DropPrepare(id) => DoDropPrepare(s, id)
    case LoseDecision(id) => DoLoseDecision(s, id)
    case SeeCancel(id) => DoSeeCancel(s, id)
    case Decide(id, decision, tokens) => DoDecide(s, id, decision, tokens)
    case ClearPending(id) => DoClearPending(s, id)
    case DropClear(id) => DoDropClear(s, id)
    case Reclaim(id) => DoReclaim(s, id)
    case ReportAborted(id, delivered) => DoReportAborted(s, id, delivered)
    case Install(id) => DoInstall(s, id)
    case CancelPending(sender, wanted) => DoCancelPending(s, sender, wanted)
    case CancelActive(sender, id) => DoCancelActive(s, sender, id)
    case Withdraw(id) => DoWithdraw(s, id)
    case ReportEnd(id, delivered) => DoReportEnd(s, id, delivered)
    case BeginUpload(id, sender, f, token) => DoBeginUpload(s, id, sender, f, token)
    case PostUpload(u) => DoPostUpload(s, u)
    case FailUpload(u) => DoFailUpload(s, u)
    case ReceiveTarget(u) => DoReceiveTarget(s, u)
    case FinishSave(u, result) => DoFinishSave(s, u, result)
    case DropUpload(u) => DoDropUpload(s, u)
    case DropFinish(u) => DoDropFinish(s, u)
    case Settle(u) => DoSettle(s, u)
    case Notify(e) => DoNotify(s, e)
  }

  /** The state after `steps`, from `s`. */
  function RunFrom(s: State, steps: seq<Step>): State {
    if steps == [] then s else Apply(RunFrom(s, steps[..|steps| - 1]), steps[|steps| - 1])
  }

  /** The state after `steps`, from an idle server. */
  function Run(steps: seq<Step>): State {
    RunFrom(INIT, steps)
  }

  lemma {:induction false} RunAppend(s: State, first: seq<Step>, more: seq<Step>)
    ensures RunFrom(s, first + more) == RunFrom(RunFrom(s, first), more)
  {
    if more == [] {
      assert first + more == first;
    } else {
      RunAppend(s, first, more[..|more| - 1]);
      assert (first + more)[..|first + more| - 1] == first + more[..|more| - 1];
    }
  }
}
