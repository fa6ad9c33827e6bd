/**
 The handlers of `packages/core/src/http/server/v2.rs` as objects: the shared
 state behind the mutex, a prepare-upload request with its guard, and an upload
 request with its guard. A method is the part of a handler between two points
 where it may be suspended; each one is proved to be the step of the same name.
 */
module UploadHandlers {
  import opened UploadSession
  import opened UploadServer
  import opened UploadInvariants

  /** `V2State`: the session slot and the event queue. */
  class V2State {
    var session: Slot
    var events: seq<Event>

    constructor ()
      ensures session == NoSession && events == []
    {
      session, events := NoSession, [];
    }

    /** The slot and the queue are those of `s`, a state of the whole server. */
    ghost predicate Agrees(s: State)
      reads this
    {
      session == s.slot && events == s.log
    }

    /** First critical section of `prepare_upload`: 409 when the slot is taken. */
    method Claim(id: SessionId, sender: PeerIp) returns (claimed: bool)
      modifies this`session
      ensures claimed <==> old(session).NoSession?
      ensures session == if claimed then PendingSession(id, sender) else old(session)
    {
      if !session.NoSession? {
        return false;
      }
      session := PendingSession(id, sender);
      return true;
    }

    /** Second critical section of `prepare_upload`: overwrites the slot without looking. */
    method Install(id: SessionId, sender: PeerIp, files: Files)
      modifies this`session
      ensures session == ActiveSession(id, sender, files)
    {
      session := ActiveSession(id, sender, files);
    }

    /** `clear_pending_session`. */
    method ClearPendingSession()
      modifies this`session
      ensures session == if old(session).PendingSession? then NoSession else old(session)
    {
      if session.PendingSession? {
        session := NoSession;
      }
    }

    /** Critical section of `upload`: 403 unless every check passes. */
    method MarkInProgress(id: SessionId, sender: PeerIp, f: FileId, token: Token) returns (allowed: bool)
      modifies this`session
      ensures allowed <==>
        && old(session).ActiveSession? && old(session).id == id && old(session).sender == sender
        && f in old(session).files && old(session).files[f].token == token && old(session).files[f].status.Pending?
      ensures if allowed
              then session == ActiveSession(id, sender, old(session).files[f :=
                     SessionFile(token, InProgress, SaturatingIncrement(old(session).files[f].attempts))])
              else session == old(session)
    {
      if !session.ActiveSession? {
        return false;
      }
      if session.id != id || session.sender != sender {
        return false;
      }
      if f !in session.files {
        return false;
      }
      var file := session.files[f];
      if file.token != token || !file.status.Pending? {
        return false;
      }
      file := file.(status := InProgress);
      file := file.(attempts := SaturatingIncrement(file.attempts));
      session := session.(files := session.files[f := file]);
      return true;
    }

    /** Critical section of `finalize_file`; `ended` when it freed the slot. */
    method FinalizeFile(id: SessionId, f: FileId, result: SaveResult) returns (ended: bool)
      modifies this`session
      ensures session == FinalizedSlot(old(session), id, f, result)
      ensures ended <==> Serves(old(session), id) && IsComplete(SettledFiles(old(session).files, f, result))
      ensures ended ==> session == NoSession
      ensures old(Serves(session, id) && f in session.files && session.files[f].status.InProgress?) && !ended ==>
        session == old(session).(files := old(session).files[f := old(session).files[f].(status :=
          if result.Saved? then Finished
          else if result.HashMismatch? && old(session).files[f].attempts < 3 then Pending
          else Failed)])
    {
      if !session.ActiveSession? || session.id != id {
        return false;
      }
      if f in session.files {
        var file := session.files[f];
        if file.status.InProgress? {
          match result {
            case Saved => file := file.(status := Finished);
            case HashMismatch =>
              if file.attempts < MAX_UPLOAD_ATTEMPTS {
                file := file.(status := Pending);
              } else {
                file := file.(status := Failed);
              }
            case NotSaved => file := file.(status := Failed);
          }
          session := session.(files := session.files[f := file]);
        }
      }
      if IsComplete(session.files) {
        session := NoSession;
        return true;
      }
      return false;
    }

    /** Second critical section of `cancel`. */
    method CancelSession(sender: PeerIp, id: SessionId) returns (cancelled: bool)
      modifies this`session
      ensures cancelled <==> old(session).ActiveSession? && old(session).id == id && old(session).sender == sender
      ensures session == if cancelled then NoSession else old(session)
    {
      if session.ActiveSession? && session.id == id && session.sender == sender {
        session := NoSession;
        return true;
      }
      return false;
    }

    /** `ServerHandle::cancel_v2_session`. */
    method CancelV2Session(id: SessionId) returns (cancelled: bool)
      modifies this`session
      ensures cancelled <==> old(session).ActiveSession? && old(session).id == id
      ensures session == if cancelled then NoSession else old(session)
    {
      if session.ActiveSession? && session.id == id {
        session := NoSession;
        return true;
      }
      return false;
    }

    /** What `finalize_file` and `cancel` do after they freed the slot. */
    method ReportEnd(ghost s: State, id: SessionId, reason: EndReason)
      requires Agrees(s) && id in s.requests && s.requests[id].phase.Ending? && s.requests[id].phase.reason == reason
      modifies this`events
      ensures Agrees(DoReportEnd(s, id, true))
    {
      Send(SessionEnd(id, reason));
    }

    method Send(e: Event)
      modifies this`events
      ensures events == old(events) + [e]
    {
      events := events + [e];
    }
  }

  /** A prepare-upload request that has claimed the slot, with its `PendingSessionGuard`. */
  class PrepareUploadRequest {
    const id: SessionId
    const sender: PeerIp
    const offered: set<FileId>
    var armed: bool
    var cancelled: bool
    var phase: Phase

    /** The guard's flag is what the phase says it is. */
    predicate Valid()
      reads this
    {
      armed <==> GuardArmed(phase)
    }

    ghost predicate Mirrors(s: State)
      reads this
    {
      Valid() && id in s.requests && s.requests[id] == Request(sender, offered, cancelled, phase)
    }

    /** `s` is a state of the whole server that agrees with this request and with `v2`. */
    ghost predicate Matches(v2: V2State, s: State)
      reads this, v2
    {
      v2.Agrees(s) && Mirrors(s)
    }

    /** The request exists once `Claim` succeeded; its guard is armed from the start. */
    constructor (v2: V2State, ghost s: State, id: SessionId, sender: PeerIp, offered: set<FileId>)
      requires id !in s.requests && offered != {} && s.slot.NoSession?
      requires v2.session == PendingSession(id, sender) && v2.events == s.log
      ensures Matches(v2, DoClaimSlot(s, id, sender, offered))
    {
      this.id, this.sender, this.offered := id, sender, offered;
      armed, cancelled, phase := true, false, Announcing;
    }

    method Announce(v2: V2State, ghost s: State)
      requires Matches(v2, s) && phase.Announcing?
      modifies this, v2
      ensures Matches(v2, DoAnnouncePrepare(s, id))
    {
      v2.Send(PrepareUpload(id));
      phase := Deciding;
    }

    method Decide(v2: V2State, ghost s: State, decision: Decision, tokens: FileId -> Token)
      requires Matches(v2, s) && phase.Deciding?
      modifies this
      ensures Matches(v2, DoDecide(s, id, decision, tokens))
      ensures if decision.Accept? && offered * decision.ids != {}
              then phase.Installing? && phase.files.Keys == offered * decision.ids
                   && forall f :: f in phase.files ==> phase.files[f] == SessionFile(tokens(f), Pending, 0)
              else phase.Clearing?
    {
      if decision.Decline? {
        armed := false;
        phase := Clearing;
        return;
      }
      var files := map f | f in offered && f in decision.ids :: SessionFile(tokens(f), Pending, 0);
      assert files.Keys == offered * decision.ids;
      if files == map[] {
        armed := false;
        phase := Clearing;
      } else {
        phase := Installing(files);
      }
    }

    /** First region of `cancel`: reaches the request that holds the slot, if it is the sender's own. */
    method ReceiveCancel(v2: V2State, ghost s: State, from: PeerIp, wanted: set<SessionId>) returns (reached: bool)
      requires Matches(v2, s) && (s.slot.PendingSession? ==> s.slot.id == id)
      modifies this`cancelled
      ensures reached <==> s.slot.PendingSession? && s.slot.sender == from && (wanted == {} || s.slot.id in wanted)
      ensures Matches(v2, DoCancelPending(s, from, wanted))
    {
      reached := false;
      if v2.session.PendingSession? && v2.session.sender == from && (wanted == {} || v2.session.id in wanted) {
        cancelled := true;
        reached := true;
      }
    }

    /** The cancel wins against the decision: the handler returns with its guard armed. */
    method SeeCancel(v2: V2State, ghost s: State)
      requires Matches(v2, s) && phase.Deciding? && cancelled
      modifies this
      ensures Matches(v2, DoSeeCancel(s, id))
    {
      armed := false;
      phase := Reclaiming;
    }

    /** The application dropped the reply channel. */
    method LoseDecision(v2: V2State, ghost s: State)
      requires Matches(v2, s) && phase.Deciding?
      modifies this
      ensures Matches(v2, DoLoseDecision(s, id))
    {
      armed := false;
      phase := Reclaiming;
    }

    /** `clear` after it got the lock. */
    method Clear(v2: V2State, ghost s: State)
      requires Matches(v2, s) && phase.Clearing?
      modifies this, v2
      ensures Matches(v2, DoClearPending(s, id))
    {
      v2.ClearPendingSession();
      phase := Dismissed;
    }

    method InstallSession(v2: V2State, ghost s: State)
      requires Matches(v2, s) && phase.Installing?
      modifies this, v2
      ensures Matches(v2, DoInstall(s, id))
    {
      v2.Install(id, sender, phase.files);
      armed := false;
      phase := Serving;
    }

    /** The future ends or is dropped; `cleanup` is whether the guard spawned its task. */
    method Drop(v2: V2State, ghost s: State) returns (cleanup: bool)
      requires Matches(v2, s) && (GuardArmed(phase) || phase.Clearing?)
      modifies this
      ensures cleanup <==> old(armed)
      ensures Matches(v2, if cleanup then DoDropPrepare(s, id) else DoDropClear(s, id))
    {
      cleanup := armed;
      armed := false;
      phase := if cleanup then Reclaiming else Leaked;
    }

    /** The cleanup task: frees the slot, then reports. */
    method Reclaim(v2: V2State, ghost s: State)
      requires Matches(v2, s) && phase.Reclaiming?
      modifies this, v2
      ensures Matches(v2, DoReclaim(s, id))
    {
      v2.ClearPendingSession();
      phase := Aborting;
    }

    method ReportAborted(v2: V2State, ghost s: State)
      requires Matches(v2, s) && phase.Aborting?
      modifies this, v2
      ensures Matches(v2, DoReportAborted(s, id, true))
    {
      v2.Send(PrepareUploadAborted(id));
      phase := Aborted(true);
    }
  }

  /** An upload request that has marked its file as in progress, with its `UploadGuard`. */
  class UploadRequest {
    const id: SessionId
    const file: FileId
    const number: nat
    var armed: bool
    var phase: UploadPhase

    predicate Valid()
      reads this
    {
      armed <==> UploadGuardArmed(phase)
    }

    ghost predicate Mirrors(s: State)
      reads this
    {
      Valid() && number < |s.uploads| && s.uploads[number] == Upload(id, file, phase)
    }

    ghost predicate Matches(v2: V2State, s: State)
      reads this, v2
    {
      v2.Agrees(s) && Mirrors(s)
    }

    constructor (v2: V2State, ghost s: State, id: SessionId, sender: PeerIp, f: FileId, token: Token, number: nat)
      requires UploadAllowed(s.slot, id, sender, f, token) && number == |s.uploads|
      requires v2.session == DoBeginUpload(s, id, sender, f, token).slot && v2.events == s.log
      ensures Matches(v2, DoBeginUpload(s, id, sender, f, token))
    {
      this.id, file, this.number := id, f, number;
      armed, phase := true, Posting;
    }

    method Post(v2: V2State, ghost s: State)
      requires Matches(v2, s) && phase.Posting?
      modifies this, v2
      ensures Matches(v2, DoPostUpload(s, number))
    {
      v2.Send(FileUpload(id, file, number));
      phase := AwaitingTarget;
    }

    /** Enters `finish`: the guard is disarmed before the lock is taken. */
    method BeginFinish(v2: V2State, ghost s: State, result: SaveResult)
      requires Matches(v2, s) && UploadGuardArmed(phase)
      requires !phase.Saving? ==> result == NotSaved
      modifies this
      ensures Matches(v2, if old(phase).Saving? then DoFinishSave(s, number, result) else DoFailUpload(s, number))
    {
      armed := false;
      phase := Finishing(result);
    }

    method ReceiveTarget(v2: V2State, ghost s: State)
      requires Matches(v2, s) && phase.AwaitingTarget?
      modifies this
      ensures Matches(v2, DoReceiveTarget(s, number))
    {
      phase := Saving;
    }

    method Drop(v2: V2State, ghost s: State) returns (cleanup: bool)
      requires Matches(v2, s) && (UploadGuardArmed(phase) || phase.Finishing?)
      modifies this
      ensures cleanup <==> old(armed)
      ensures Matches(v2, if cleanup then DoDropUpload(s, number) else DoDropFinish(s, number))
    {
      cleanup := armed;
      armed := false;
      phase := if cleanup then Orphaned else Lost;
    }

    /** `finalize_file` in the handler or in the cleanup task; `ended` when a `SessionEnd` is to be sent. */
    method Settle(v2: V2State, ghost s: State) returns (ended: bool)
      requires Matches(v2, s) && (phase.Finishing? || phase.Orphaned?)
      modifies this, v2
      ensures Matches(v2, DoSettle(s, number))
      ensures ended <==> !old(v2.session).NoSession? && v2.session.NoSession?
      ensures ended && id in s.requests ==> LeftAs(DoSettle(s, number).requests[id].phase, SessionFinished)
    {
      var result := if phase.Finishing? then phase.result else NotSaved;
      var found := v2.session.ActiveSession? && v2.session.id == id;
      ended := v2.FinalizeFile(id, file, result);
      phase := if found then Settled(result) else Stale;
    }
  }

  // ---------------------------------------------------------------------------
  // Several handlers on one state
  // ---------------------------------------------------------------------------

  /** The steps that a request takes, or that act on the slot it holds. */
  predicate ConcernsRequest(s: State, step: Step, id: SessionId) {
    match step
    case AnnouncePrepare(x) => x == id
    case DropPrepare(x) => x == id
    case LoseDecision(x) => x == id
    case SeeCancel(x) => x == id
    case Decide(x, _, _) => x == id
    case ClearPending(x) => x == id
    case DropClear(x) => x == id
    case Reclaim(x) => x == id
    case ReportAborted(x, _) => x == id
    case Install(x) => x == id
    case CancelPending(_, _) => s.slot.PendingSession? && s.slot.id == id
    case CancelActive(_, x) => x == id
    case Withdraw(x) => x == id
    case ReportEnd(x, _) => x == id
    case Settle(u) => u < |s.uploads| && s.uploads[u].id == id
    case _ => false
  }

  predicate ConcernsUpload(step: Step, u: nat) {
    (IsUploadMove(step) || step.Settle?) && step.upload == u
  }

  lemma OtherRequestsStay(s: State, step: Step, id: SessionId)
    requires id in s.requests && !ConcernsRequest(s, step, id)
    ensures id in Apply(s, step).requests && Apply(s, step).requests[id] == s.requests[id]
  {
    if IsUploadMove(step) || step.BeginUpload? || step.Notify? {
      assert Apply(s, step).requests == s.requests;
    }
  }

  lemma OtherUploadsStay(s: State, step: Step, u: nat)
    requires u < |s.uploads| && !ConcernsUpload(step, u)
    ensures u < |Apply(s, step).uploads| && Apply(s, step).uploads[u] == s.uploads[u]
  {
    if !IsUploadMove(step) && !step.Settle? && !step.BeginUpload? {
      assert Apply(s, step).uploads == s.uploads;
    }
  }

  /** While another task takes a step on the shared state, a request stays in step with the whole server. */
  lemma RequestStaysInStep(v2: V2State, request: PrepareUploadRequest, s: State, step: Step)
    requires request.Mirrors(s) && !ConcernsRequest(s, step, request.id) && v2.Agrees(Apply(s, step))
    ensures request.Matches(v2, Apply(s, step))
  {
    OtherRequestsStay(s, step, request.id);
  }

  lemma UploadStaysInStep(v2: V2State, upload: UploadRequest, s: State, step: Step)
    requires upload.Mirrors(s) && !ConcernsUpload(step, upload.number) && v2.Agrees(Apply(s, step))
    ensures upload.Matches(v2, Apply(s, step))
  {
    OtherUploadsStay(s, step, upload.number);
  }

  /** A cleanup task frees the slot beside another request and an upload: all of them stay in step. */
  method ReclaimBeside(v2: V2State, aborted: PrepareUploadRequest, other: PrepareUploadRequest, upload: UploadRequest,
                       ghost s: State)
    requires aborted.Matches(v2, s) && aborted.phase.Reclaiming? && other.Matches(v2, s) && upload.Matches(v2, s)
    requires aborted.id != other.id
    modifies aborted, v2
    ensures aborted.Matches(v2, DoReclaim(s, aborted.id))
    ensures other.Matches(v2, DoReclaim(s, aborted.id)) && upload.Matches(v2, DoReclaim(s, aborted.id))
  {
    aborted.Reclaim(v2, s);
    RequestStaysInStep(v2, other, s, Reclaim(aborted.id));
    UploadStaysInStep(v2, upload, s, Reclaim(aborted.id));
  }
}
