/** What every step of the upload server keeps. */
module UploadInvariants {
  import opened UploadSession
  import opened UploadServer

  // ---------------------------------------------------------------------------
  // Slot ownership
  // ---------------------------------------------------------------------------

  /**
   The phases in which a request owns the slot as a pending session: its guard is
   armed, its guard's cleanup is waiting for the lock, it is about to clear the
   slot itself, or it was dropped while doing so.
   */
  predicate OwnsPending(phase: Phase) {
    GuardArmed(phase) || phase.Reclaiming? || phase.Clearing? || phase.Leaked?
  }

  /** The slot is pending for exactly the owners, and active for exactly the served session. */
  ghost predicate SlotOwned(s: State) {
    && (forall id :: id in s.requests ==>
          (OwnsPending(s.requests[id].phase) <==> s.slot.PendingSession? && s.slot.id == id))
    && (forall id :: id in s.requests ==> (s.requests[id].phase.Serving? <==> Serves(s.slot, id)))
    && (!s.slot.NoSession? ==> s.slot.id in s.requests && s.slot.sender == s.requests[s.slot.id].sender)
  }

  // ---------------------------------------------------------------------------
  // Files of the active session
  // ---------------------------------------------------------------------------

  /** The files a session had when it left the slot, if it ever held it. */
  predicate HasLeftSlot(phase: Phase) {
    phase.Ending? || phase.Ended? || phase.Withdrawn?
  }

  predicate WasServed(phase: Phase) {
    phase.Serving? || HasLeftSlot(phase)
  }

  predicate LeftAs(phase: Phase, reason: EndReason) {
    (phase.Ending? || phase.Ended?) && phase.reason == reason
  }

  ghost predicate FilesKept(s: State) {
    && (s.slot.ActiveSession? ==> FilesSound(s.slot.files) && !IsComplete(s.slot.files))
    && (forall id :: id in s.requests && s.requests[id].phase.Installing? ==>
          FilesUntouched(s.requests[id].phase.files))
    && (forall id :: id in s.requests && HasLeftSlot(s.requests[id].phase) ==>
          && FilesSound(s.requests[id].phase.files)
          && (IsComplete(s.requests[id].phase.files) <==> LeftAs(s.requests[id].phase, SessionFinished)))
  }

  // ---------------------------------------------------------------------------
  // Upload ownership
  // ---------------------------------------------------------------------------

  /** The upload has not reached `finalize_file`: guard armed, finishing, orphaned or lost. */
  predicate Occupies(phase: UploadPhase) {
    UploadGuardArmed(phase) || phase.Finishing? || phase.Orphaned? || phase.Lost?
  }

  predicate SameFile(a: Upload, b: Upload) {
    a.id == b.id && a.file == b.file
  }

  ghost predicate UploadsOwned(s: State) {
    && (forall u :: 0 <= u < |s.uploads| ==>
          s.uploads[u].id in s.requests && WasServed(s.requests[s.uploads[u].id].phase))
    // an outstanding upload of the active session has its file in progress
    && (forall u :: 0 <= u < |s.uploads| && Occupies(s.uploads[u].phase) && Serves(s.slot, s.uploads[u].id) ==>
          && s.uploads[u].file in s.slot.files
          && s.slot.files[s.uploads[u].file].status.InProgress?)
    // only the latest upload of a file can be outstanding
    && (forall u, v :: 0 <= u < v < |s.uploads| && SameFile(s.uploads[u], s.uploads[v]) ==>
          !Occupies(s.uploads[u].phase))
    // a session that finished has no outstanding upload
    && (forall u :: 0 <= u < |s.uploads| && Occupies(s.uploads[u].phase) ==>
          !LeftAs(s.requests[s.uploads[u].id].phase, SessionFinished))
  }

  /** The converse: a file in progress has an outstanding upload. */
  ghost predicate HasUpload(s: State, id: SessionId, f: FileId) {
    exists u :: 0 <= u < |s.uploads| && Occupies(s.uploads[u].phase) && s.uploads[u].id == id && s.uploads[u].file == f
  }

  ghost predicate InProgressHasUpload(s: State) {
    s.slot.ActiveSession? ==>
      forall f :: f in s.slot.files && s.slot.files[f].status.InProgress? ==> HasUpload(s, s.slot.id, f)
  }

  // ---------------------------------------------------------------------------
  // Preservation
  // ---------------------------------------------------------------------------

  ghost predicate Core(s: State) {
    SlotOwned(s) && FilesKept(s) && UploadsOwned(s)
  }

  /** `after` stands to the slot as `before` does. */
  ghost predicate SameStanding(before: Phase, after: Phase) {
    && (OwnsPending(before) <==> OwnsPending(after))
    && (before.Serving? <==> after.Serving?)
    && (HasLeftSlot(before) <==> HasLeftSlot(after))
    && (HasLeftSlot(after) ==> after.files == before.files)
    && (LeftAs(before, SessionFinished) <==> LeftAs(after, SessionFinished))
    && (after.Installing? ==> FilesUntouched(after.files))
  }

  /** Moving a request between phases that neither gain nor lose the slot. */
  lemma MoveKeepsCore(s: State, id: SessionId, phase: Phase)
    requires Core(s) && id in s.requests
    requires SameStanding(s.requests[id].phase, phase)
    ensures Core(WithPhase(s, id, phase))
  {
  }

  lemma MoveUploadKeepsCore(s: State, u: nat, phase: UploadPhase)
    requires Core(s) && u < |s.uploads|
    requires Occupies(phase) ==> Occupies(s.uploads[u].phase)
    ensures Core(WithUpload(s, u, phase))
  {
  }

  lemma EventKeepsCore(s: State, e: Event)
    requires Core(s)
    ensures Core(WithEvent(s, e))
  {
  }

  lemma ClaimKeepsCore(s: State, id: SessionId, sender: PeerIp, offered: set<FileId>)
    requires Core(s)
    ensures Core(DoClaimSlot(s, id, sender, offered))
  {
  }

  /** `clear_pending_session` does not look at the id: it frees the slot of its own request only. */
  lemma ClearKeepsCore(s: State, id: SessionId, phase: Phase)
    requires Core(s) && id in s.requests
    requires OwnsPending(s.requests[id].phase) && (phase.Dismissed? || phase.Aborting?)
    ensures Core(WithPhase(s, id, phase).(slot := ClearedSlot(s.slot)))
  {
  }

  lemma InstallKeepsCore(s: State, id: SessionId)
    requires Core(s)
    ensures Core(DoInstall(s, id))
  {
  }

  lemma LeaveKeepsCore(s: State, id: SessionId, phase: Phase)
    requires Core(s) && Serves(s.slot, id)
    requires HasLeftSlot(phase) && phase.files == s.slot.files && !LeftAs(phase, SessionFinished)
    ensures Core(WithPhase(s, id, phase).(slot := NoSession))
  {
  }

  lemma BeginKeepsCore(s: State, id: SessionId, sender: PeerIp, f: FileId, token: Token)
    requires Core(s)
    ensures Core(DoBeginUpload(s, id, sender, f, token))
  {
    if UploadAllowed(s.slot, id, sender, f, token) {
      var t := DoBeginUpload(s, id, sender, f, token);
      assert f in t.slot.files && !IsFinal(t.slot.files[f].status);
    }
  }

  lemma SettleKeepsCore(s: State, u: nat)
    requires Core(s)
    ensures Core(DoSettle(s, u))
  {
    var t := DoSettle(s, u);
    if t != s {
      if !Serves(s.slot, s.uploads[u].id) {
        MoveUploadKeepsCore(s, u, Stale);
      } else {
        OthersUnsettled(s, u);
        SettledSlot(s, u);
        SettledFilesKept(s, u);
        SettledUploads(s, u);
      }
    }
  }

  lemma SettledSlot(s: State, u: nat)
    requires SlotOwned(s) && FilesKept(s) && u < |s.uploads| && Serves(s.slot, s.uploads[u].id)
    ensures SlotOwned(DoSettle(s, u))
  {
  }

  lemma SettledFilesKept(s: State, u: nat)
    requires Core(s) && u < |s.uploads| && Occupies(s.uploads[u].phase) && Serves(s.slot, s.uploads[u].id)
    ensures FilesKept(DoSettle(s, u))
  {
  }

  lemma SettledUploads(s: State, u: nat)
    requires Core(s) && u < |s.uploads| && Serves(s.slot, s.uploads[u].id)
    requires s.uploads[u].phase.Finishing? || s.uploads[u].phase.Orphaned?
    requires forall v, result :: 0 <= v < |s.uploads| && v != u && Occupies(s.uploads[v].phase) && Serves(s.slot, s.uploads[v].id) ==>
              && s.uploads[v].file in s.slot.files
              && SettledFiles(s.slot.files, s.uploads[u].file, result)[s.uploads[v].file].status.InProgress?
    ensures UploadsOwned(DoSettle(s, u))
  {
  }

  /** Settling one upload leaves the files of the other outstanding uploads in progress. */
  lemma OthersUnsettled(s: State, u: nat)
    requires UploadsOwned(s) && u < |s.uploads|
    requires Occupies(s.uploads[u].phase) && Serves(s.slot, s.uploads[u].id)
    ensures forall v, result :: 0 <= v < |s.uploads| && v != u && Occupies(s.uploads[v].phase) && Serves(s.slot, s.uploads[v].id) ==>
              && s.uploads[v].file in s.slot.files
              && SettledFiles(s.slot.files, s.uploads[u].file, result)[s.uploads[v].file].status.InProgress?
  {
    forall v | 0 <= v < |s.uploads| && v != u && Occupies(s.uploads[v].phase) && Serves(s.slot, s.uploads[v].id)
      ensures s.uploads[v].file != s.uploads[u].file
    {
      assert !SameFile(s.uploads[if u < v then u else v], s.uploads[if u < v then v else u]);
    }
  }

  /** The steps of a request handler and its cleanup task that leave the slot alone. */
  predicate IsRequestMove(step: Step) {
    step.AnnouncePrepare? || step.DropPrepare? || step.LoseDecision? || step.SeeCancel? || step.Decide?
    || step.DropClear? || step.ReportAborted? || step.CancelPending? || step.ReportEnd?
  }

  /** Such a step changes one phase, within the same standing, and queues at most one event. */
  lemma RequestMoveShape(s: State, step: Step)
    requires IsRequestMove(step) && !step.CancelPending?
    requires Apply(s, step) != s
    ensures step.id in s.requests && step.id in Apply(s, step).requests
    ensures SameStanding(s.requests[step.id].phase, Apply(s, step).requests[step.id].phase)
    ensures Apply(s, step).(log := []) == WithPhase(s, step.id, Apply(s, step).requests[step.id].phase).(log := [])
  {
  }

  /** The log and the cancellation tokens do not matter. */
  lemma LogIrrelevant(s: State, t: State)
    requires Core(s) && s.(log := []) == t.(log := [])
    ensures Core(t)
  {
  }

  lemma CancelKeepsCore(s: State, sender: PeerIp, wanted: set<SessionId>)
    requires Core(s)
    ensures Core(DoCancelPending(s, sender, wanted))
  {
  }

  lemma RequestMoveKeepsCore(s: State, step: Step)
    requires Core(s) && IsRequestMove(step)
    ensures Core(Apply(s, step))
  {
    if step.CancelPending? {
      CancelKeepsCore(s, step.sender, step.wanted);
    } else if Apply(s, step) != s {
      RequestMoveShape(s, step);
      var phase := Apply(s, step).requests[step.id].phase;
      MoveKeepsCore(s, step.id, phase);
      LogIrrelevant(WithPhase(s, step.id, phase), Apply(s, step));
    }
  }

  lemma SlotStepKeepsCore(s: State, step: Step)
    requires Core(s)
    requires step.ClaimSlot? || step.ClearPending? || step.Reclaim? || step.Install? || step.CancelActive? || step.Withdraw?
    ensures Core(Apply(s, step))
  {
    match step
    case ClaimSlot(id, sender, offered) => ClaimKeepsCore(s, id, sender, offered);
    case ClearPending(id) => if InPhase(s, id, Clearing) { ClearKeepsCore(s, id, Dismissed); }
    case Reclaim(id) => if InPhase(s, id, Reclaiming) { ClearKeepsCore(s, id, Aborting); }
    case Install(id) => InstallKeepsCore(s, id);
    case CancelActive(sender, id) => if CancelsActive(s.slot, sender, id) {
      LeaveKeepsCore(s, id, Ending(SessionCancelled, s.slot.files));
    }
    case Withdraw(id) => if Serves(s.slot, id) { LeaveKeepsCore(s, id, Withdrawn(s.slot.files)); }
  }

  predicate IsUploadMove(step: Step) {
    step.PostUpload? || step.FailUpload? || step.ReceiveTarget? || step.FinishSave? || step.DropUpload? || step.DropFinish?
  }

  /** Such a step changes one phase, keeps the upload outstanding, and queues at most one event. */
  lemma UploadMoveShape(s: State, step: Step)
    requires IsUploadMove(step) && Apply(s, step) != s
    ensures step.upload < |s.uploads| && |Apply(s, step).uploads| == |s.uploads|
    ensures var phase := Apply(s, step).uploads[step.upload].phase;
      && Occupies(phase) && Occupies(s.uploads[step.upload].phase)
      && Apply(s, step).(log := []) == WithUpload(s, step.upload, phase).(log := [])
  {
  }

  lemma UploadMoveKeepsCore(s: State, step: Step)
    requires Core(s) && IsUploadMove(step)
    ensures Core(Apply(s, step))
  {
    if Apply(s, step) != s {
      UploadMoveShape(s, step);
      var phase := Apply(s, step).uploads[step.upload].phase;
      MoveUploadKeepsCore(s, step.upload, phase);
      LogIrrelevant(WithUpload(s, step.upload, phase), Apply(s, step));
    }
  }

  // ---------------------------------------------------------------------------
  // Steps that move requests and uploads without touching the slot
  // ---------------------------------------------------------------------------

  predicate IsMove(step: Step) {
    IsRequestMove(step) || IsUploadMove(step) || step.Notify?
  }

  ghost predicate UploadsMoved(before: seq<Upload>, after: seq<Upload>) {
    && |after| == |before|
    && forall u :: 0 <= u < |before| ==>
         && SameFile(after[u], before[u])
         && (Occupies(after[u].phase) <==> Occupies(before[u].phase))
         && (after[u].phase.Settled? || before[u].phase.Settled? ==> after[u].phase == before[u].phase)
  }

  /** Everyone stands to the slot as before. */
  ghost predicate Moves(s: State, t: State) {
    && t.slot == s.slot && t.requests.Keys == s.requests.Keys
    && (forall id :: id in s.requests ==> SameStanding(s.requests[id].phase, t.requests[id].phase) || s.requests[id].phase == t.requests[id].phase)
    && UploadsMoved(s.uploads, t.uploads)
  }

  lemma CancelShape(s: State, sender: PeerIp, wanted: set<SessionId>, id: SessionId)
    requires id in s.requests
    ensures var t := DoCancelPending(s, sender, wanted);
      && t.requests.Keys == s.requests.Keys && t.requests[id].phase == s.requests[id].phase
      && t.slot == s.slot && t.uploads == s.uploads
  {
  }

  lemma MoveStep(s: State, step: Step)
    requires IsMove(step)
    ensures Moves(s, Apply(s, step))
  {
    var t := Apply(s, step);
    if t == s {
    } else if step.Notify? {
      assert t.slot == s.slot && t.requests == s.requests && t.uploads == s.uploads;
    } else if step.CancelPending? {
      CancelShape(s, step.sender, step.wanted, s.slot.id);
      forall id | id in s.requests ensures t.requests[id].phase == s.requests[id].phase {
        CancelShape(s, step.sender, step.wanted, id);
      }
    } else if IsRequestMove(step) {
      RequestMoveShape(s, step);
      RequestMoved(s, t, step.id);
    } else {
      UploadMoveShape(s, step);
      UploadMoved(s, t, step.upload);
    }
  }

  lemma RequestMoved(s: State, t: State, id: SessionId)
    requires id in s.requests && id in t.requests && SameStanding(s.requests[id].phase, t.requests[id].phase)
    requires t.(log := []) == WithPhase(s, id, t.requests[id].phase).(log := [])
    ensures Moves(s, t)
  {
    var moved := WithPhase(s, id, t.requests[id].phase);
    assert t.requests == moved.requests && t.slot == moved.slot && t.uploads == moved.uploads;
  }

  lemma UploadMoved(s: State, t: State, u: nat)
    requires u < |s.uploads| && u < |t.uploads| && Occupies(s.uploads[u].phase) && Occupies(t.uploads[u].phase)
    requires t.(log := []) == WithUpload(s, u, t.uploads[u].phase).(log := [])
    ensures Moves(s, t)
  {
    var moved := WithUpload(s, u, t.uploads[u].phase);
    assert t.requests == moved.requests && t.slot == moved.slot && t.uploads == moved.uploads;
  }

  lemma StepKeepsCore(s: State, step: Step)
    requires Core(s)
    ensures Core(Apply(s, step))
  {
    if IsRequestMove(step) {
      RequestMoveKeepsCore(s, step);
    } else if IsUploadMove(step) {
      UploadMoveKeepsCore(s, step);
    } else if step.BeginUpload? {
      BeginKeepsCore(s, step.id, step.sender, step.file, step.token);
    } else if step.Settle? {
      SettleKeepsCore(s, step.upload);
    } else if step.Notify? {
      EventKeepsCore(s, step.event);
    } else {
      SlotStepKeepsCore(s, step);
    }
  }
}
