/** What a decision lets in: the files of a session, and the uploads of a file. */
module UploadAdmission {
  import opened UploadSession
  import opened UploadServer
  import opened UploadInvariants
  import opened UploadHistory
  import opened UploadQueue

  // ---------------------------------------------------------------------------
  // The decision behind a session
  // ---------------------------------------------------------------------------

  /** The decision took effect: the request accepted files, or ended without any. */
  predicate HasDecided(phase: Phase) {
    phase.Installing? || WasServed(phase) || phase.Clearing? || phase.Dismissed? || phase.Leaked?
  }

  /** The files that the user accepted among the offered ones. */
  function Chosen(offered: set<FileId>, decision: Decision): set<FileId> {
    match decision
    case Accept(ids) => offered * ids
    case Decline => {}
  }

  /** The files a request has accepted: about to be installed, or those of its session. */
  function Accepted(s: State, id: SessionId): Files
    requires id in s.requests
  {
    if s.requests[id].phase.Installing? then s.requests[id].phase.files
    else if WasServed(s.requests[id].phase) then FilesOf(s, id)
    else map[]
  }

  /** Request `id` holds exactly the files chosen by `decision`; it ended without any if none was. */
  ghost predicate Obeys(s: State, id: SessionId, decision: Decision)
    requires id in s.requests
  {
    && Accepted(s, id).Keys == Chosen(s.requests[id].offered, decision)
    && (s.requests[id].phase.Installing? || WasServed(s.requests[id].phase) <==> Chosen(s.requests[id].offered, decision) != {})
  }

  ghost predicate Carries(files: Files, tokens: FileId -> Token) {
    forall f :: f in files ==> files[f].token == tokens(f)
  }

  /** Step `i` of the run is the decision on request `id`. */
  ghost predicate DecidedAt(steps: seq<Step>, i: nat, id: SessionId) {
    i < |steps| && steps[i].Decide? && steps[i].id == id && InPhase(Run(steps[..i]), id, Deciding)
  }

  lemma OfferedKept(s: State, step: Step, id: SessionId)
    requires id in s.requests
    ensures id in Apply(s, step).requests && Apply(s, step).requests[id].offered == s.requests[id].offered
  {
    if IsUploadMove(step) || step.BeginUpload? || step.Notify? {
      assert Apply(s, step).requests == s.requests;
    }
  }

  /** The files stay, with their tokens. */
  ghost predicate SameFiles(before: Files, after: Files) {
    && after.Keys == before.Keys
    && forall f :: f in before && f in after ==> after[f].token == before[f].token
  }

  lemma ServedFilesKept(s: State, step: Step, id: SessionId)
    requires Core(s) && id in s.requests && WasServed(s.requests[id].phase)
    ensures var t := Apply(s, step);
      id in t.requests && WasServed(t.requests[id].phase) && SameFiles(FilesOf(s, id), FilesOf(t, id))
  {
    if step.BeginUpload? {
      BegunFilesKept(s, step, id);
    } else if step.Settle? {
      SettledSessionKept(s, step.upload, id);
    } else {
      FilesOfKept(s, step, id);
    }
  }

  lemma BegunFilesKept(s: State, step: Step, id: SessionId)
    requires Core(s) && id in s.requests && WasServed(s.requests[id].phase) && step.BeginUpload?
    ensures var t := Apply(s, step);
      id in t.requests && WasServed(t.requests[id].phase) && SameFiles(FilesOf(s, id), FilesOf(t, id))
  {
  }

  lemma SettledSessionKept(s: State, u: nat, id: SessionId)
    requires Core(s) && id in s.requests && WasServed(s.requests[id].phase)
    ensures var t := DoSettle(s, u);
      id in t.requests && WasServed(t.requests[id].phase) && SameFiles(FilesOf(s, id), FilesOf(t, id))
  {
  }

  /** How a request that waits to be installed, or ended without files, can go on. */
  predicate GoesOn(before: Phase, after: Phase) {
    || after == before
    || (before.Installing? && (after.Serving? || after.Reclaiming?))
    || (before.Clearing? && (after.Dismissed? || after.Leaked?))
  }

  lemma UnservedMove(s: State, step: Step, id: SessionId)
    requires IsRequestMove(step) && id in s.requests
    requires HasDecided(s.requests[id].phase) && !WasServed(s.requests[id].phase)
    ensures id in Apply(s, step).requests
    ensures GoesOn(s.requests[id].phase, Apply(s, step).requests[id].phase) && !Apply(s, step).requests[id].phase.Serving?
  {
  }

  lemma UnservedKept(s: State, step: Step, id: SessionId)
    requires SlotOwned(s) && id in s.requests && HasDecided(s.requests[id].phase) && !WasServed(s.requests[id].phase)
    ensures id in Apply(s, step).requests && GoesOn(s.requests[id].phase, Apply(s, step).requests[id].phase)
    ensures Apply(s, step).requests[id].phase.Serving? ==>
      Apply(s, step).slot == ActiveSession(id, s.requests[id].sender, s.requests[id].phase.files)
  {
    if IsRequestMove(step) {
      UnservedMove(s, step, id);
    } else if IsUploadMove(step) || step.BeginUpload? || step.Notify? {
      assert Apply(s, step).requests == s.requests;
    }
  }

  /** The files a decided request holds, and whether it holds any, stay as they are. */
  ghost predicate SameChoice(s: State, t: State, id: SessionId)
    requires id in s.requests && id in t.requests
  {
    && SameFiles(Accepted(s, id), Accepted(t, id))
    && (t.requests[id].phase.Installing? || WasServed(t.requests[id].phase)
        <==> s.requests[id].phase.Installing? || WasServed(s.requests[id].phase))
  }

  lemma ChoiceKept(s: State, step: Step, id: SessionId)
    requires Core(s) && id in s.requests && HasDecided(s.requests[id].phase)
    ensures var t := Apply(s, step);
      && id in t.requests && t.requests[id].offered == s.requests[id].offered
      && !t.requests[id].phase.Announcing? && !t.requests[id].phase.Deciding?
      && (HasDecided(t.requests[id].phase) ==> SameChoice(s, t, id))
  {
    OfferedKept(s, step, id);
    if WasServed(s.requests[id].phase) {
      ServedFilesKept(s, step, id);
    } else {
      UnservedKept(s, step, id);
    }
  }

  /** A request gets to hold files, or to end without any, by its own decision alone. */
  lemma OnlyByDecision(s: State, step: Step, id: SessionId)
    requires SlotOwned(s) && (id in s.requests ==> !HasDecided(s.requests[id].phase))
    requires id in Apply(s, step).requests && HasDecided(Apply(s, step).requests[id].phase)
    ensures step.Decide? && step.id == id && InPhase(s, id, Deciding)
  {
  }

  lemma DecisionObeyed(s: State, id: SessionId, decision: Decision, tokens: FileId -> Token)
    requires InPhase(s, id, Deciding)
    ensures var t := DoDecide(s, id, decision, tokens);
      && id in t.requests && HasDecided(t.requests[id].phase)
      && Obeys(t, id, decision) && Carries(Accepted(t, id), tokens)
  {
    if decision.Accept? {
      var files := AcceptedFiles(s.requests[id].offered, decision.ids, tokens);
      assert files.Keys == s.requests[id].offered * decision.ids;
      assert files == map[] <==> files.Keys == {};
    }
  }

  ghost predicate DecidedBy(s: State, id: SessionId, decide: Step)
    requires id in s.requests && decide.Decide?
  {
    Obeys(s, id, decide.decision) && Carries(Accepted(s, id), decide.tokens)
  }

  /** Some step of the run is the decision that `id` still obeys. */
  ghost predicate WasDecided(steps: seq<Step>, s: State, id: SessionId)
    requires id in s.requests
  {
    exists i: nat :: DecidedAt(steps, i, id) && DecidedBy(s, id, steps[i])
  }

  lemma DecidedEarlier(steps: seq<Step>, last: Step, id: SessionId)
    requires Core(Run(steps)) && id in Run(steps).requests && HasDecided(Run(steps).requests[id].phase)
    requires id in Apply(Run(steps), last).requests && HasDecided(Apply(Run(steps), last).requests[id].phase)
    requires WasDecided(steps, Run(steps), id)
    ensures WasDecided(steps + [last], Apply(Run(steps), last), id)
  {
    var s := Run(steps);
    var i: nat :| DecidedAt(steps, i, id) && DecidedBy(s, id, steps[i]);
    ChoiceKept(s, last, id);
    assert (steps + [last])[..i] == steps[..i];
    assert DecidedAt(steps + [last], i, id);
    ObeysStill(s, Apply(s, last), id, steps[i]);
  }

  lemma ObeysStill(s: State, t: State, id: SessionId, decide: Step)
    requires id in s.requests && id in t.requests && t.requests[id].offered == s.requests[id].offered
    requires SameChoice(s, t, id) && decide.Decide? && DecidedBy(s, id, decide)
    ensures DecidedBy(t, id, decide)
  {
  }

  lemma DecidedNow(steps: seq<Step>, last: Step, id: SessionId)
    requires last.Decide? && last.id == id && InPhase(Run(steps), id, Deciding)
    ensures id in Apply(Run(steps), last).requests && WasDecided(steps + [last], Apply(Run(steps), last), id)
  {
    DecisionObeyed(Run(steps), id, last.decision, last.tokens);
    assert (steps + [last])[..|steps|] == steps;
    assert DecidedAt(steps + [last], |steps|, id);
  }

  /**
   Whatever a request holds, it was decided: the session has exactly the offered files the
   user chose, each with the token issued for it, for as long as it lasts and after it has
   ended; and there is a session only if some file was chosen.
   */
  lemma {:induction false} FilesAreAsDecided(steps: seq<Step>, id: SessionId)
    requires id in Run(steps).requests && HasDecided(Run(steps).requests[id].phase)
    ensures exists i: nat :: DecidedAt(steps, i, id) && DecidedBy(Run(steps), id, steps[i])
  {
    var front, last := steps[..|steps| - 1], steps[|steps| - 1];
    assert steps == front + [last];
    Reachable(front);
    if id in Run(front).requests && HasDecided(Run(front).requests[id].phase) {
      FilesAreAsDecided(front, id);
      DecidedEarlier(front, last, id);
    } else {
      OnlyByDecision(Run(front), last, id);
      DecidedNow(front, last, id);
    }
  }

  lemma {:induction false} PastDeciding(steps: seq<Step>, i: nat, id: SessionId)
    requires DecidedAt(steps, i, id)
    ensures id in Run(steps).requests && !Run(steps).requests[id].phase.Announcing? && !Run(steps).requests[id].phase.Deciding?
  {
    var front, last := steps[..|steps| - 1], steps[|steps| - 1];
    if i == |steps| - 1 {
      DecisionObeyed(Run(front), id, last.decision, last.tokens);
    } else {
      assert front[..i] == steps[..i];
      PastDeciding(front, i, id);
      NeverDecidesAgain(Run(front), last, id);
    }
  }

  lemma NeverDecidesAgain(s: State, step: Step, id: SessionId)
    requires id in s.requests && !s.requests[id].phase.Announcing? && !s.requests[id].phase.Deciding?
    ensures var t := Apply(s, step);
      id in t.requests && !t.requests[id].phase.Announcing? && !t.requests[id].phase.Deciding?
  {
    if IsUploadMove(step) || step.BeginUpload? || step.Notify? {
      assert Apply(s, step).requests == s.requests;
    }
  }

  /** A request is decided at most once. */
  lemma DecidedOnce(steps: seq<Step>, i: nat, j: nat, id: SessionId)
    requires DecidedAt(steps, i, id) && DecidedAt(steps, j, id)
    ensures i == j
  {
    if i != j {
      var a, b := if i < j then i else j, if i < j then j else i;
      assert steps[..b][..a] == steps[..a];
      PastDeciding(steps[..b], a, id);
    }
  }

  // ---------------------------------------------------------------------------
  // Which uploads are admitted
  // ---------------------------------------------------------------------------

  /** The upload comes from the sender of the active session, with the token that the decision issued for its file. */
  ghost predicate IsInvited(steps: seq<Step>, id: SessionId, sender: PeerIp, f: FileId, token: Token) {
    && InPhase(Run(steps), id, Serving) && sender == Run(steps).requests[id].sender
    && exists i: nat :: DecidedAt(steps, i, id) && f in Chosen(Run(steps).requests[id].offered, steps[i].decision)
                        && token == steps[i].tokens(f)
  }

  /** What the decision issued is what the slot lists. */
  lemma InvitedIffListed(steps: seq<Step>, id: SessionId, sender: PeerIp, f: FileId, token: Token)
    requires InPhase(Run(steps), id, Serving) && Run(steps).slot.ActiveSession? && Run(steps).slot.id == id
    ensures var s := Run(steps);
      IsInvited(steps, id, sender, f, token)
      <==> sender == s.requests[id].sender && f in s.slot.files && token == s.slot.files[f].token
  {
    var s := Run(steps);
    FilesAreAsDecided(steps, id);
    var i: nat :| DecidedAt(steps, i, id) && DecidedBy(s, id, steps[i]);
    forall j: nat | DecidedAt(steps, j, id) ensures j == i {
      DecidedOnce(steps, i, j, id);
    }
    assert Accepted(s, id) == s.slot.files;
  }

  predicate IsPending(s: State, f: FileId) {
    s.slot.ActiveSession? && f in s.slot.files && s.slot.files[f].status.Pending?
  }

  /** The upload is the next one, and its file is in progress with one more attempt. */
  ghost predicate IsAdmitted(s: State, t: State, id: SessionId, sender: PeerIp, f: FileId, token: Token)
    requires IsPending(s, f)
  {
    && t.uploads == s.uploads + [Upload(id, f, Posting)]
    && t.slot == ActiveSession(id, sender, s.slot.files[f := SessionFile(token, InProgress, s.slot.files[f].attempts + 1)])
  }

  /** What the checks of `upload` come to in a state with an owned slot. */
  lemma AdmittedIffListed(s: State, id: SessionId, sender: PeerIp, f: FileId, token: Token)
    requires SlotOwned(s) && FilesKept(s)
    ensures var t := DoBeginUpload(s, id, sender, f, token);
      if InPhase(s, id, Serving) && sender == s.requests[id].sender && IsPending(s, f) && token == s.slot.files[f].token
      then IsAdmitted(s, t, id, sender, f, token)
      else t == s
  {
  }

  /** In every run an upload is admitted if and only if it is invited and its file is pending; any other changes nothing. */
  lemma AdmittedIffInvited(steps: seq<Step>, id: SessionId, sender: PeerIp, f: FileId, token: Token)
    ensures var s, t := Run(steps), Run(steps + [BeginUpload(id, sender, f, token)]);
      if IsInvited(steps, id, sender, f, token) && IsPending(s, f) then IsAdmitted(s, t, id, sender, f, token) else t == s
  {
    Reachable(steps);
    assert (steps + [BeginUpload(id, sender, f, token)])[..|steps|] == steps;
    AdmittedIffListed(Run(steps), id, sender, f, token);
    if InPhase(Run(steps), id, Serving) {
      ServingIsActive(Run(steps), id);
      InvitedIffListed(steps, id, sender, f, token);
    }
  }

  lemma ServingIsActive(s: State, id: SessionId)
    requires SlotOwned(s) && InPhase(s, id, Serving)
    ensures s.slot.ActiveSession? && s.slot.id == id
  {
  }

  /** No other step adds an upload. */
  lemma OnlyBeginningAdds(s: State, step: Step)
    requires !step.BeginUpload?
    ensures |Apply(s, step).uploads| == |s.uploads|
  {
    StepFramesUploads(s, step);
  }
}
