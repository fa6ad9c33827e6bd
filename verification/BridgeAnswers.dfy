/** Which answer of the application each request and each upload acts on. */
module BridgeAnswers {
  import opened Wrappers
  import opened UploadSession
  import opened UploadServer
  import opened UploadInvariants
  import opened UploadHistory
  import opened UploadAdmission
  import opened EventBridge

  // ---------------------------------------------------------------------------
  // What becomes of a stored channel
  // ---------------------------------------------------------------------------

  /** The next event, if the bridge takes it now. */
  function NextEvent(y: System, action: Action): Option<Event> {
    if action.HandleEvent? && y.handled < |y.server.log| then Some(y.server.log[y.handled]) else None
  }

  /** What `action` does with the channel stored for file `key`. */
  function TargetFate(y: System, action: Action, key: FileKey): Option<Reply<()>> {
    match action
    case RespondFileUpload(k, resolved) => if k != key then None else if resolved then Some(Sent(())) else Some(Discarded(ByApplication))
    case FailFileUpload(k) => if k == key then Some(Discarded(ByApplication)) else None
    case DropResponders(id) => if id == key.0 then Some(Discarded(ByApplication)) else None
    case _ =>
      match NextEvent(y, action)
      case Some(FileUpload(id, f, _)) => if (id, f) == key then Some(Discarded(Replaced)) else None
      case Some(SessionEnd(id, reason)) => if id == key.0 then Some(Discarded(SessionOver(reason))) else None
      case _ => None
  }

  /** What `action` does with the channel stored for the decision on request `id`. */
  function DecisionFate(y: System, action: Action, id: SessionId): Option<Reply<Decision>> {
    match action
    case RespondPrepareUpload(decision) => Some(Sent(decision))
    case _ =>
      match NextEvent(y, action)
      case Some(PrepareUpload(_)) => Some(Discarded(Replaced))
      case Some(PrepareUploadAborted(x)) => if x == id then Some(Discarded(RequestAborted)) else None
      case _ => None
  }

  /** The channel of upload `u` is stored, under its file. */
  predicate IsStored(y: System, u: nat) {
    u < |y.server.uploads| && KeyOf(y.server.uploads[u]) in y.targets && y.targets[KeyOf(y.server.uploads[u])] == u
  }

  /** Step `i` of the run took the channel of upload `u` out of the bridge, with this outcome. */
  ghost predicate TargetTaken(actions: seq<Action>, i: nat, u: nat, reply: Reply<()>) {
    && i < |actions|
    && var y := RunAll(actions[..i]);
       IsStored(y, u) && TargetFate(y, actions[i], KeyOf(y.server.uploads[u])) == Some(reply)
  }

  ghost predicate DecisionTaken(actions: seq<Action>, i: nat, id: SessionId, reply: Reply<Decision>) {
    && i < |actions|
    && var y := RunAll(actions[..i]);
       y.decision == Some(id) && DecisionFate(y, actions[i], id) == Some(reply)
  }

  // ---------------------------------------------------------------------------
  // One step
  // ---------------------------------------------------------------------------

  lemma SessionReplies(y: System, id: SessionId, cause: Cause, u: nat, r: Reply<()>)
    requires StoredSound(y)
    ensures var z := DiscardSession(y, id, cause);
      u in z.targetReplies && z.targetReplies[u] == r
      <==> (u in y.targetReplies && y.targetReplies[u] == r)
           || (IsStored(y, u) && y.server.uploads[u].id == id && r == Discarded(cause))
  {
    if IsStored(y, u) && y.server.uploads[u].id == id {
      assert KeyOf(y.server.uploads[u]) in y.targets && KeyOf(y.server.uploads[u]).0 == id;
      assert u in StoredUploads(y, id);
    }
  }

  lemma TargetReplyStep(y: System, action: Action, u: nat, r: Reply<()>)
    requires StoredSound(y)
    ensures var z := Act(y, action);
      u in z.targetReplies && z.targetReplies[u] == r
      <==> (u in y.targetReplies && y.targetReplies[u] == r)
           || (IsStored(y, u) && TargetFate(y, action, KeyOf(y.server.uploads[u])) == Some(r))
  {
    match action
    case DropResponders(id) => SessionReplies(y, id, ByApplication, u, r);
    case HandleEvent =>
      if y.handled < |y.server.log| {
        var e := y.server.log[y.handled];
        if e.SessionEnd? {
          SessionReplies(y, e.id, SessionOver(e.reason), u, r);
        }
      }
    case _ =>
  }

  lemma DecisionReplyStep(y: System, action: Action, id: SessionId, r: Reply<Decision>)
    requires DecisionsKept(y)
    ensures var z := Act(y, action);
      id in z.replies && z.replies[id] == r
      <==> (id in y.replies && y.replies[id] == r) || (y.decision == Some(id) && DecisionFate(y, action, id) == Some(r))
  {
  }

  // ---------------------------------------------------------------------------
  // Every run
  // ---------------------------------------------------------------------------

  lemma TakenEarlierOrNow(actions: seq<Action>, last: Action, u: nat, r: Reply<()>)
    ensures (exists i: nat :: TargetTaken(actions + [last], i, u, r))
      <==> (exists i: nat :: TargetTaken(actions, i, u, r))
           || (IsStored(RunAll(actions), u)
               && TargetFate(RunAll(actions), last, KeyOf(RunAll(actions).server.uploads[u])) == Some(r))
  {
    var all := actions + [last];
    forall i: nat | i < |actions| ensures all[..i] == actions[..i] && all[i] == actions[i] {
    }
    assert all[..|actions|] == actions;
    if i: nat :| TargetTaken(actions, i, u, r) {
      assert TargetTaken(all, i, u, r);
    }
    if IsStored(RunAll(actions), u) && TargetFate(RunAll(actions), last, KeyOf(RunAll(actions).server.uploads[u])) == Some(r) {
      assert TargetTaken(all, |actions|, u, r);
    }
    if i: nat :| TargetTaken(all, i, u, r) {
      assert i < |actions| ==> TargetTaken(actions, i, u, r);
    }
  }

  /**
   In every run of server and bridge, an upload has got a reply if and only if its own
   channel was stored, under its own file, when the action came that means this reply.
   */
  lemma {:induction false} TargetRepliesAre(actions: seq<Action>, u: nat, r: Reply<()>)
    ensures var y := RunAll(actions);
      u in y.targetReplies && y.targetReplies[u] == r <==> exists i: nat :: TargetTaken(actions, i, u, r)
  {
    if actions != [] {
      var front, last := actions[..|actions| - 1], actions[|actions| - 1];
      assert actions == front + [last];
      TargetRepliesAre(front, u, r);
      ReachableSystem(front);
      TargetReplyStep(RunAll(front), last, u, r);
      TakenEarlierOrNow(front, last, u, r);
    }
  }

  lemma DecisionEarlierOrNow(actions: seq<Action>, last: Action, id: SessionId, r: Reply<Decision>)
    ensures (exists i: nat :: DecisionTaken(actions + [last], i, id, r))
      <==> (exists i: nat :: DecisionTaken(actions, i, id, r))
           || (RunAll(actions).decision == Some(id) && DecisionFate(RunAll(actions), last, id) == Some(r))
  {
    var all := actions + [last];
    forall i: nat | i < |actions| ensures all[..i] == actions[..i] && all[i] == actions[i] {
    }
    assert all[..|actions|] == actions;
    if i: nat :| DecisionTaken(actions, i, id, r) {
      assert DecisionTaken(all, i, id, r);
    }
    if RunAll(actions).decision == Some(id) && DecisionFate(RunAll(actions), last, id) == Some(r) {
      assert DecisionTaken(all, |actions|, id, r);
    }
    if i: nat :| DecisionTaken(all, i, id, r) {
      assert i < |actions| ==> DecisionTaken(actions, i, id, r);
    }
  }

  /** The same for the decisions on prepare-upload requests. */
  lemma {:induction false} DecisionRepliesAre(actions: seq<Action>, id: SessionId, r: Reply<Decision>)
    ensures var y := RunAll(actions);
      id in y.replies && y.replies[id] == r <==> exists i: nat :: DecisionTaken(actions, i, id, r)
  {
    if actions != [] {
      var front, last := actions[..|actions| - 1], actions[|actions| - 1];
      assert actions == front + [last];
      DecisionRepliesAre(front, id, r);
      ReachableSystem(front);
      DecisionReplyStep(RunAll(front), last, id, r);
      DecisionEarlierOrNow(front, last, id, r);
    }
  }

  /** Step `i` of the run resolves a target for upload `u`, whose channel is stored. */
  ghost predicate ResolvedAt(actions: seq<Action>, i: nat, u: nat) {
    && i < |actions| && IsStored(RunAll(actions[..i]), u)
    && actions[i] == RespondFileUpload(KeyOf(RunAll(actions[..i]).server.uploads[u]), true)
  }

  /** Step `i` of the run gives upload `u` up: no single target, a failed upload, or a cancelled session. */
  ghost predicate GivenUpAt(actions: seq<Action>, i: nat, u: nat) {
    && i < |actions| && IsStored(RunAll(actions[..i]), u)
    && var key := KeyOf(RunAll(actions[..i]).server.uploads[u]);
       actions[i] in {RespondFileUpload(key, false), FailFileUpload(key), DropResponders(key.0)}
  }

  lemma FateOfAnswers(y: System, action: Action, key: FileKey)
    ensures TargetFate(y, action, key) == Some(Sent(())) <==> action == RespondFileUpload(key, true)
    ensures TargetFate(y, action, key) == Some(Discarded(ByApplication))
      <==> action in {RespondFileUpload(key, false), FailFileUpload(key), DropResponders(key.0)}
  {
  }

  lemma AnswersAreTaken(actions: seq<Action>, i: nat, u: nat)
    ensures TargetTaken(actions, i, u, Sent(())) <==> ResolvedAt(actions, i, u)
    ensures TargetTaken(actions, i, u, Discarded(ByApplication)) <==> GivenUpAt(actions, i, u)
  {
    if i < |actions| && IsStored(RunAll(actions[..i]), u) {
      FateOfAnswers(RunAll(actions[..i]), actions[i], KeyOf(RunAll(actions[..i]).server.uploads[u]));
    }
  }

  /**
   In every run an upload is given a target if and only if the application resolved one for
   it while its channel was stored, and is given up by the application if and only if it
   resolved none, failed the upload or cancelled its session while the channel was stored.
   */
  lemma TargetIsGivenIffResolved(actions: seq<Action>, u: nat)
    ensures var y := RunAll(actions);
      && (u in y.targetReplies && y.targetReplies[u] == Sent(()) <==> exists i: nat :: ResolvedAt(actions, i, u))
      && (u in y.targetReplies && y.targetReplies[u] == Discarded(ByApplication) <==> exists i: nat :: GivenUpAt(actions, i, u))
  {
    TargetRepliesAre(actions, u, Sent(()));
    TargetRepliesAre(actions, u, Discarded(ByApplication));
    forall i: nat
      ensures TargetTaken(actions, i, u, Sent(())) <==> ResolvedAt(actions, i, u)
      ensures TargetTaken(actions, i, u, Discarded(ByApplication)) <==> GivenUpAt(actions, i, u)
    {
      AnswersAreTaken(actions, i, u);
    }
  }

  // ---------------------------------------------------------------------------
  // What the answers lead to
  // ---------------------------------------------------------------------------

  /** The upload got as far as saving the body. */
  predicate HasSaved(phase: UploadPhase) {
    match phase
    case Saving => true
    case Finishing(result) => !result.NotSaved?
    case Settled(result) => !result.NotSaved?
    case _ => false
  }

  ghost predicate SavesAnswered(y: System) {
    forall u :: 0 <= u < |y.server.uploads| && HasSaved(y.server.uploads[u].phase) ==>
      u in y.targetReplies && y.targetReplies[u] == Sent(())
  }

  lemma StartsSaving(s: State, step: Step, u: nat)
    requires u < |Apply(s, step).uploads| && HasSaved(Apply(s, step).uploads[u].phase)
    ensures u < |s.uploads| && (HasSaved(s.uploads[u].phase) || (step == ReceiveTarget(u) && s.uploads[u].phase.AwaitingTarget?))
  {
    if !IsUploadMove(step) && !step.Settle? && !step.BeginUpload? {
      assert Apply(s, step).uploads == s.uploads;
    }
  }

  lemma RepliesStay(y: System, action: Action, u: nat)
    requires StoredSound(y) && u in y.targetReplies
    ensures u in Act(y, action).targetReplies && Act(y, action).targetReplies[u] == y.targetReplies[u]
  {
    TargetReplyStep(y, action, u, y.targetReplies[u]);
  }

  lemma ActKeepsSaves(y: System, action: Action)
    requires BridgeInv(y) && SavesAnswered(y)
    ensures SavesAnswered(Act(y, action))
  {
    var z := Act(y, action);
    forall u | 0 <= u < |z.server.uploads| && HasSaved(z.server.uploads[u].phase)
      ensures u in z.targetReplies && z.targetReplies[u] == Sent(())
    {
      if action.Serve? {
        if Allowed(y, action.step) {
          StartsSaving(y.server, action.step, u);
          assert u in y.targetReplies && y.targetReplies[u].value == ();
        }
      } else {
        ServerUntouched(y, action);
        RepliesStay(y, action, u);
      }
    }
  }

  lemma {:induction false} SavesAreAnswered(actions: seq<Action>)
    ensures SavesAnswered(RunAll(actions))
  {
    if actions != [] {
      SavesAreAnswered(actions[..|actions| - 1]);
      ReachableSystem(actions[..|actions| - 1]);
      ActKeepsSaves(RunAll(actions[..|actions| - 1]), actions[|actions| - 1]);
    }
  }

  /** In every run, an upload is only ever saved where the application said so: it resolved a target for this very upload. */
  lemma SavedOnlyWhereTold(actions: seq<Action>, u: nat)
    requires u < |RunAll(actions).server.uploads| && HasSaved(RunAll(actions).server.uploads[u].phase)
    ensures exists i: nat :: ResolvedAt(actions, i, u)
  {
    SavesAreAnswered(actions);
    TargetIsGivenIffResolved(actions, u);
  }

  /**
   An upload that waits with its channel stored goes on exactly as it is answered: with a
   target it saves, without one it is about to be settled as failed. Before the answer it can
   do neither.
   */
  lemma AnswerMovesTheUpload(actions: seq<Action>, u: nat, resolved: bool)
    requires u < |RunAll(actions).server.uploads| && UploadIn(RunAll(actions).server, u, AwaitingTarget)
    requires IsStored(RunAll(actions), u)
    ensures var y := RunAll(actions); var z := Act(y, RespondFileUpload(KeyOf(y.server.uploads[u]), resolved));
      && Act(y, Serve(ReceiveTarget(u))) == y && Act(y, Serve(FailUpload(u))) == y
      && Act(z, Serve(if resolved then ReceiveTarget(u) else FailUpload(u))).server
         == WithUpload(y.server, u, if resolved then Saving else Finishing(NotSaved))
      && Act(z, Serve(if resolved then FailUpload(u) else ReceiveTarget(u))) == z
  {
    ReachableSystem(actions);
    AnswerMoves(RunAll(actions), u, resolved);
  }

  lemma AnswerMoves(y: System, u: nat, resolved: bool)
    requires StoredSound(y) && UploadIn(y.server, u, AwaitingTarget) && IsStored(y, u)
    ensures var z := Act(y, RespondFileUpload(KeyOf(y.server.uploads[u]), resolved));
      && Act(y, Serve(ReceiveTarget(u))) == y && Act(y, Serve(FailUpload(u))) == y
      && Act(z, Serve(if resolved then ReceiveTarget(u) else FailUpload(u))).server
         == WithUpload(y.server, u, if resolved then Saving else Finishing(NotSaved))
      && Act(z, Serve(if resolved then FailUpload(u) else ReceiveTarget(u))) == z
  {
  }

  // ---------------------------------------------------------------------------
  // Sessions are as the application decided
  // ---------------------------------------------------------------------------

  /** A decided request was answered, and obeys the answer. */
  ghost predicate AnsweredSo(y: System, id: SessionId)
    requires id in y.server.requests
  {
    id in y.replies && y.replies[id].Sent? && Obeys(y.server, id, y.replies[id].value)
  }

  ghost predicate AllAnswered(y: System) {
    forall id :: id in y.server.requests && HasDecided(y.server.requests[id].phase) ==> AnsweredSo(y, id)
  }

  lemma ServeKeepsAnswered(y: System, step: Step, id: SessionId)
    requires BridgeInv(y) && AllAnswered(y) && Allowed(y, step)
    requires id in Apply(y.server, step).requests && HasDecided(Apply(y.server, step).requests[id].phase)
    ensures AnsweredSo(y.(server := Apply(y.server, step)), id)
  {
    var s, t := y.server, Apply(y.server, step);
    if id in s.requests && HasDecided(s.requests[id].phase) {
      assert AnsweredSo(y, id);
      ChoiceKept(s, step, id);
      StillObeys(s, t, id, y.replies[id].value);
    } else {
      OnlyByDecision(s, step, id);
      DecisionObeyed(s, id, step.decision, step.tokens);
    }
  }

  lemma StillObeys(s: State, t: State, id: SessionId, decision: Decision)
    requires id in s.requests && id in t.requests && t.requests[id].offered == s.requests[id].offered
    requires SameChoice(s, t, id) && Obeys(s, id, decision)
    ensures Obeys(t, id, decision)
  {
  }

  lemma DecisionsStay(y: System, action: Action, id: SessionId)
    requires DecisionsKept(y) && id in y.replies
    ensures id in Act(y, action).replies && Act(y, action).replies[id] == y.replies[id]
  {
    DecisionReplyStep(y, action, id, y.replies[id]);
  }

  lemma ActKeepsAnswered(y: System, action: Action)
    requires BridgeInv(y) && AllAnswered(y)
    ensures AllAnswered(Act(y, action))
  {
    var z := Act(y, action);
    forall id | id in z.server.requests && HasDecided(z.server.requests[id].phase) ensures AnsweredSo(z, id) {
      if action.Serve? {
        if Allowed(y, action.step) {
          ServeKeepsAnswered(y, action.step, id);
        }
      } else {
        ServerUntouched(y, action);
        assert AnsweredSo(y, id);
        DecisionsStay(y, action, id);
      }
    }
  }

  lemma {:induction false} AnsweredInEveryRun(actions: seq<Action>)
    ensures AllAnswered(RunAll(actions))
  {
    if actions != [] {
      AnsweredInEveryRun(actions[..|actions| - 1]);
      ReachableSystem(actions[..|actions| - 1]);
      ActKeepsAnswered(RunAll(actions[..|actions| - 1]), actions[|actions| - 1]);
    }
  }

  /**
   In every run of server and bridge: a request that was ever served was answered with an
   `Accept`, and its session has exactly the accepted ones among the offered files, at least
   one; a request answered with `Decline`, or with none of its files, is never served.
   */
  lemma SessionsAreAsAnswered(actions: seq<Action>, id: SessionId)
    requires id in RunAll(actions).server.requests
    ensures var y := RunAll(actions); var request := y.server.requests[id];
      && (WasServed(request.phase) ==>
            && id in y.replies && y.replies[id].Sent? && y.replies[id].value.Accept?
            && FilesOf(y.server, id).Keys == request.offered * y.replies[id].value.ids != {})
      && (id in y.replies && y.replies[id].Sent? && (y.replies[id].value.Decline? || request.offered !! y.replies[id].value.ids) ==>
            !request.phase.Installing? && !WasServed(request.phase))
  {
    AnsweredInEveryRun(actions);
    if HasDecided(RunAll(actions).server.requests[id].phase) {
      assert AnsweredSo(RunAll(actions), id);
    }
  }
}
