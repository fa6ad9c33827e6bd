/** Why requests and sessions come to what they come to: for every fate, the step of the run that led to it. */
module UploadCauses {
  import opened UploadSession
  import opened UploadServer
  import opened UploadInvariants
  import opened UploadQueue
  import opened UploadTheorems

  datatype Fate =
    | AskedToStop          // a cancel reached the pending request
    | GaveUp               // ended without a decision, or before it was installed
    | LeakedSlot           // dropped inside `clear`
    | CancelledBySender
    | EndedByApplication
    | RanToTheEnd          // all files are final
    | EndUnreported        // the send of the `SessionEnd` was dropped

  predicate HasFate(s: State, id: SessionId, fate: Fate) {
    && id in s.requests
    && var request := s.requests[id];
    match fate
    case AskedToStop => request.cancelled
    case GaveUp => request.phase.Reclaiming? || request.phase.Aborting? || request.phase.Aborted?
    case LeakedSlot => request.phase.Leaked?
    case CancelledBySender => LeftAs(request.phase, SessionCancelled)
    case EndedByApplication => request.phase.Withdrawn?
    case RanToTheEnd => LeftAs(request.phase, SessionFinished)
    case EndUnreported => request.phase.Ended? && !request.phase.reported
  }

  /** Settling upload `u` leaves no file of the session unfinished. */
  predicate SettlesTheLast(s: State, u: nat, id: SessionId) {
    && u < |s.uploads| && s.uploads[u].id == id && s.slot.ActiveSession? && s.slot.id == id
    && (forall f :: f in s.slot.files && f != s.uploads[u].file ==> IsFinal(s.slot.files[f].status))
    && s.uploads[u].file in s.slot.files
    && match s.uploads[u].phase
       case Finishing(HashMismatch) => s.slot.files[s.uploads[u].file].attempts == 3
       case Finishing(_) => true
       case Orphaned => true
       case _ => false
  }

  /** The step that leads to the fate, for a request that takes it in state `s`. */
  predicate Causes(s: State, step: Step, id: SessionId, fate: Fate) {
    && id in s.requests
    && var request := s.requests[id];
    match fate
    case AskedToStop =>
      step.CancelPending? && s.slot == PendingSession(id, step.sender) && (step.wanted == {} || id in step.wanted)
    case GaveUp =>
      || (step == DropPrepare(id) && (request.phase.Announcing? || request.phase.Deciding? || request.phase.Installing?))
      || (step == LoseDecision(id) && request.phase.Deciding?)
      || (step == SeeCancel(id) && request.phase.Deciding? && request.cancelled)
    case LeakedSlot => step == DropClear(id) && request.phase.Clearing?
    case CancelledBySender =>
      step == CancelActive(request.sender, id) && s.slot.ActiveSession? && s.slot.id == id
    case EndedByApplication => step == Withdraw(id) && s.slot.ActiveSession? && s.slot.id == id
    case RanToTheEnd => step.Settle? && SettlesTheLast(s, step.upload, id)
    case EndUnreported => step == ReportEnd(id, false) && request.phase.Ending?
  }

  ghost predicate Happened(steps: seq<Step>, id: SessionId, fate: Fate) {
    exists i: nat :: i < |steps| && Causes(Run(steps[..i]), steps[i], id, fate)
  }

  lemma HappenedEarlierOrNow(steps: seq<Step>, last: Step, id: SessionId, fate: Fate)
    ensures Happened(steps + [last], id, fate) <==> Happened(steps, id, fate) || Causes(Run(steps), last, id, fate)
  {
    var all := steps + [last];
    forall i: nat | i < |steps| ensures all[..i] == steps[..i] && all[i] == steps[i] {
    }
    assert all[..|steps|] == steps && all[|steps|] == last;
    if Happened(steps, id, fate) {
      var i: nat :| i < |steps| && Causes(Run(steps[..i]), steps[i], id, fate);
      assert Causes(Run(all[..i]), all[i], id, fate);
    }
    if Causes(Run(steps), last, id, fate) {
      assert Causes(Run(all[..|steps|]), all[|steps|], id, fate);
    }
    if Happened(all, id, fate) {
      var i: nat :| i < |all| && Causes(Run(all[..i]), all[i], id, fate);
      assert i < |steps| ==> Causes(Run(steps[..i]), steps[i], id, fate);
    }
  }

  // ---------------------------------------------------------------------------
  // One step
  // ---------------------------------------------------------------------------

  lemma RequestMoveFate(s: State, step: Step, id: SessionId, fate: Fate)
    requires SlotOwned(s) && IsRequestMove(step)
    ensures HasFate(Apply(s, step), id, fate) <==> HasFate(s, id, fate) || Causes(s, step, id, fate)
  {
    if step.CancelPending? {
      CancelFate(s, step.sender, step.wanted, id, fate);
    } else if step.ReportEnd? {
      ReportFate(s, step.id, step.delivered, id, fate);
    } else if step.Decide? {
      DecideFate(s, step, id, fate);
    } else {
      HandlerFate(s, step, id, fate);
    }
  }

  lemma DecideFate(s: State, step: Step, id: SessionId, fate: Fate)
    requires step.Decide?
    ensures HasFate(Apply(s, step), id, fate) <==> HasFate(s, id, fate)
  {
  }

  lemma HandlerFate(s: State, step: Step, id: SessionId, fate: Fate)
    requires IsRequestMove(step) && !step.CancelPending? && !step.ReportEnd? && !step.Decide?
    ensures HasFate(Apply(s, step), id, fate) <==> HasFate(s, id, fate) || Causes(s, step, id, fate)
  {
  }

  lemma CancelFate(s: State, sender: PeerIp, wanted: set<SessionId>, id: SessionId, fate: Fate)
    ensures HasFate(DoCancelPending(s, sender, wanted), id, fate)
      <==> HasFate(s, id, fate) || Causes(s, CancelPending(sender, wanted), id, fate)
  {
  }

  lemma ReportFate(s: State, x: SessionId, delivered: bool, id: SessionId, fate: Fate)
    ensures HasFate(DoReportEnd(s, x, delivered), id, fate)
      <==> HasFate(s, id, fate) || Causes(s, ReportEnd(x, delivered), id, fate)
  {
  }

  lemma SlotStepFate(s: State, step: Step, id: SessionId, fate: Fate)
    requires SlotOwned(s)
    requires step.ClaimSlot? || step.ClearPending? || step.Reclaim? || step.Install? || step.CancelActive? || step.Withdraw?
    ensures HasFate(Apply(s, step), id, fate) <==> HasFate(s, id, fate) || Causes(s, step, id, fate)
  {
  }

  lemma CompletesIff(files: Files, f: FileId, result: SaveResult)
    requires f in files && files[f].status.InProgress? && FileSound(files[f])
    ensures IsComplete(SettledFiles(files, f, result)) <==>
      && (forall g :: g in files && g != f ==> IsFinal(files[g].status))
      && (result.HashMismatch? ==> files[f].attempts == 3)
  {
    var after := SettledFiles(files, f, result);
    if IsComplete(after) {
      forall g | g in files && g != f ensures IsFinal(files[g].status) {
        assert g in after;
      }
      assert f in after;
    }
  }

  lemma SettleFate(s: State, u: nat, id: SessionId, fate: Fate)
    requires Core(s)
    ensures HasFate(DoSettle(s, u), id, fate) <==> HasFate(s, id, fate) || Causes(s, Settle(u), id, fate)
  {
    if u < |s.uploads| && (s.uploads[u].phase.Finishing? || s.uploads[u].phase.Orphaned?) && Serves(s.slot, s.uploads[u].id) {
      var up := s.uploads[u];
      CompletesIff(s.slot.files, up.file, if up.phase.Finishing? then up.phase.result else NotSaved);
    }
  }

  lemma FateStep(s: State, step: Step, id: SessionId, fate: Fate)
    requires Core(s)
    ensures HasFate(Apply(s, step), id, fate) <==> HasFate(s, id, fate) || Causes(s, step, id, fate)
  {
    if IsRequestMove(step) {
      RequestMoveFate(s, step, id, fate);
    } else if IsUploadMove(step) || step.BeginUpload? || step.Notify? {
      assert Apply(s, step).requests == s.requests;
    } else if step.Settle? {
      SettleFate(s, step.upload, id, fate);
    } else {
      SlotStepFate(s, step, id, fate);
    }
  }

  /** In every run, a request or session has a fate if and only if a step of the run led to it. */
  lemma {:induction false} FatesHaveCauses(steps: seq<Step>, id: SessionId, fate: Fate)
    ensures HasFate(Run(steps), id, fate) <==> Happened(steps, id, fate)
  {
    if steps != [] {
      var front, last := steps[..|steps| - 1], steps[|steps| - 1];
      assert steps == front + [last];
      FatesHaveCauses(front, id, fate);
      Reachable(front);
      FateStep(Run(front), last, id, fate);
      HappenedEarlierOrNow(front, last, id, fate);
    }
  }

  // ---------------------------------------------------------------------------
  // Entering
  // ---------------------------------------------------------------------------

  /** A new request enters if and only if it offers files and the slot is free; then it waits to be announced. */
  lemma EntersIffFree(steps: seq<Step>, id: SessionId, sender: PeerIp, offered: set<FileId>)
    requires id !in Run(steps).requests
    ensures var s, t := Run(steps), Run(steps + [ClaimSlot(id, sender, offered)]);
      if offered != {} && s.slot.NoSession? then
        && t.slot == PendingSession(id, sender)
        && t.requests == s.requests[id := Request(sender, offered, false, Announcing)]
      else t == s
  {
    assert (steps + [ClaimSlot(id, sender, offered)])[..|steps|] == steps;
  }

  ghost predicate CancelSent(steps: seq<Step>, id: SessionId) {
    exists i: nat :: CancelSentAt(steps, i, id)
  }

  /** Step `i` is a cancel by the sender of request `id`, which then holds the slot, for this or any session. */
  ghost predicate CancelSentAt(steps: seq<Step>, i: nat, id: SessionId) {
    && i < |steps| && steps[i].CancelPending? && Run(steps[..i]).slot == PendingSession(id, steps[i].sender)
    && (steps[i].wanted == {} || id in steps[i].wanted) && id in Run(steps[..i]).requests
  }

  /** The cancel of a pending request is seen if and only if it was sent by its own sender while the request held the slot. */
  lemma CancelIsSeenIffSent(steps: seq<Step>, id: SessionId)
    requires InPhase(Run(steps), id, Deciding)
    ensures Run(steps + [SeeCancel(id)]) != Run(steps) <==> CancelSent(steps, id)
  {
    assert (steps + [SeeCancel(id)])[..|steps|] == steps;
    FatesHaveCauses(steps, id, AskedToStop);
    forall i: nat | i < |steps| ensures CancelSentAt(steps, i, id) <==> Causes(Run(steps[..i]), steps[i], id, AskedToStop) {
    }
  }

  // ---------------------------------------------------------------------------
  // Becoming active in spite of a cancel
  // ---------------------------------------------------------------------------

  ghost predicate CanBeServed(s: State, id: SessionId) {
    exists more: seq<Step> :: InPhase(RunFrom(s, more), id, Serving)
  }

  lemma OfferKept(s: State, step: Step, id: SessionId)
    requires id in s.requests ==> s.requests[id].offered != {}
    requires id in Apply(s, step).requests
    ensures Apply(s, step).requests[id].offered != {}
  {
    if IsUploadMove(step) || step.BeginUpload? || step.Notify? {
      assert Apply(s, step).requests == s.requests;
    }
  }

  lemma {:induction false} EveryRequestOffers(steps: seq<Step>, id: SessionId)
    requires id in Run(steps).requests
    ensures Run(steps).requests[id].offered != {}
  {
    var front, last := steps[..|steps| - 1], steps[|steps| - 1];
    if id in Run(front).requests {
      EveryRequestOffers(front, id);
    }
    OfferKept(Run(front), last, id);
  }

  /** A request that is over, or about to give the slot back, does not come to be served. */
  predicate IsOver(phase: Phase) {
    !GuardArmed(phase) && !phase.Serving?
  }

  lemma OverStays(s: State, step: Step, id: SessionId)
    requires SlotOwned(s) && id in s.requests && IsOver(s.requests[id].phase)
    ensures id in Apply(s, step).requests && IsOver(Apply(s, step).requests[id].phase)
  {
    if IsUploadMove(step) || step.BeginUpload? || step.Notify? {
      assert Apply(s, step).requests == s.requests;
    }
  }

  lemma {:induction false} OverForGood(s: State, more: seq<Step>, id: SessionId)
    requires Inv(s) && id in s.requests && IsOver(s.requests[id].phase)
    ensures id in RunFrom(s, more).requests && IsOver(RunFrom(s, more).requests[id].phase)
  {
    if more != [] {
      var front := more[..|more| - 1];
      OverForGood(s, front, id);
      RunKeepsInv(s, front);
      OverStays(RunFrom(s, front), more[|more| - 1], id);
    }
  }

  lemma StepThen(s: State, step: Step, id: SessionId)
    requires CanBeServed(Apply(s, step), id)
    ensures CanBeServed(s, id)
  {
    var more: seq<Step> :| InPhase(RunFrom(Apply(s, step), more), id, Serving);
    OneStep(s, step);
    RunAppend(s, [step], more);
  }

  lemma ServeInstalling(s: State, id: SessionId)
    requires id in s.requests && s.requests[id].phase.Installing?
    ensures CanBeServed(s, id)
  {
    var t := Apply(s, Install(id));
    assert RunFrom(t, []) == t && InPhase(t, id, Serving);
    StepThen(s, Install(id), id);
  }

  lemma ServeDeciding(s: State, id: SessionId)
    requires InPhase(s, id, Deciding) && s.requests[id].offered != {}
    ensures CanBeServed(s, id)
  {
    var offered := s.requests[id].offered;
    var step := Decide(id, Accept(offered), (f: FileId) => 0);
    var f :| f in offered;
    assert f in AcceptedFiles(offered, offered, step.tokens);
    ServeInstalling(Apply(s, step), id);
    StepThen(s, step, id);
  }

  /**
   A request that holds the slot can still become the active session if and only if its
   handler has not given up, whether a cancel has reached it or not: the decision can win
   against the cancel, and one already taken is installed.
   */
  lemma CanBeServedIffNotOver(steps: seq<Step>, id: SessionId)
    requires Run(steps).slot.PendingSession? && Run(steps).slot.id == id
    ensures var s := Run(steps); id in s.requests && (CanBeServed(s, id) <==> GuardArmed(s.requests[id].phase))
  {
    Reachable(steps);
    EveryRequestOffers(steps, id);
    var s := Run(steps);
    var phase := s.requests[id].phase;
    if phase.Installing? {
      ServeInstalling(s, id);
    } else if phase.Deciding? {
      ServeDeciding(s, id);
    } else if phase.Announcing? {
      ServeDeciding(Apply(s, AnnouncePrepare(id)), id);
      StepThen(s, AnnouncePrepare(id), id);
    } else {
      forall more: seq<Step> ensures !InPhase(RunFrom(s, more), id, Serving) {
        OverForGood(s, more, id);
      }
    }
  }

  /** The sender's cancel reaches the request, and it becomes active all the same. */
  lemma CancelledCanBecomeActive(tokens: FileId -> Token)
    ensures exists steps: seq<Step> :: InPhase(Run(steps), 0, Serving) && Run(steps).requests[0].cancelled
  {
    var waiting := RequestWaits();
    var asked := Extend(waiting, CancelPending(7, {}));
    CancelReaches(Run(waiting));
    var decided := Extend(asked, Decide(0, Accept({1}), tokens));
    var steps := Extend(decided, Install(0));
    CancelledInstalls(Run(asked), tokens);
  }

  lemma CancelReaches(s: State)
    requires s.slot == PendingSession(0, 7) && s.requests == map[0 := Request(7, {1}, false, Deciding)]
    ensures DoCancelPending(s, 7, {}).requests == map[0 := Request(7, {1}, true, Deciding)]
  {
  }

  lemma CancelledInstalls(s: State, tokens: FileId -> Token)
    requires s.requests == map[0 := Request(7, {1}, true, Deciding)]
    ensures var t := DoInstall(DoDecide(s, 0, Accept({1}), tokens), 0);
      InPhase(t, 0, Serving) && t.requests[0].cancelled
  {
    assert 1 in AcceptedFiles({1}, {1}, tokens);
  }
}
