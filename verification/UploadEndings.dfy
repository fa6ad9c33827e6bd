/** What the application hears of the end of a session, and what it may never hear. */
module UploadEndings {
  import opened UploadSession
  import opened UploadServer
  import opened UploadInvariants
  import opened UploadEvents
  import opened UploadQueue
  import opened UploadTheorems
  import opened UploadCauses

  lemma LogGrows(s: State, step: Step)
    ensures |s.log| <= |Apply(s, step).log| && Apply(s, step).log[..|s.log|] == s.log
  {
  }

  /** A session that left the slot does not come back. */
  lemma LeftForGood(s: State, step: Step, id: SessionId)
    requires SlotOwned(s) && id in s.requests && HasLeftSlot(s.requests[id].phase)
    ensures id in Apply(s, step).requests && HasLeftSlot(Apply(s, step).requests[id].phase)
  {
    if IsMove(step) {
      MoveStep(s, step);
    }
  }

  // ---------------------------------------------------------------------------
  // Uploads that announce themselves after the end
  // ---------------------------------------------------------------------------

  /** An upload of session `id` has not announced itself yet. */
  ghost predicate HasPosting(s: State, id: SessionId) {
    exists u :: 0 <= u < |s.uploads| && s.uploads[u].id == id && s.uploads[u].phase.Posting?
  }

  predicate IsUploadOf(e: Event, id: SessionId) {
    e.FileUpload? && e.id == id
  }

  /** Some continuation queues a further `FileUpload` of session `id`. */
  ghost predicate CanStillPost(s: State, id: SessionId) {
    exists more: seq<Step>, i: nat ::
      |s.log| <= i < |RunFrom(s, more).log| && IsUploadOf(RunFrom(s, more).log[i], id)
  }

  /** A session that left the slot gains no upload. */
  lemma NoNewPosting(s: State, step: Step, id: SessionId)
    requires SlotOwned(s) && id in s.requests && HasLeftSlot(s.requests[id].phase) && !HasPosting(s, id)
    ensures !HasPosting(Apply(s, step), id)
  {
    var t := Apply(s, step);
    if step.BeginUpload? {
      assert forall u :: 0 <= u < |s.uploads| ==> t.uploads[u] == s.uploads[u];
      assert |t.uploads| > |s.uploads| ==> t.uploads[|s.uploads|].id != id;
    } else {
      NobodyStartsPosting(s, step);
    }
  }

  lemma NobodyStartsPosting(s: State, step: Step)
    requires !step.BeginUpload?
    ensures |Apply(s, step).uploads| == |s.uploads|
    ensures forall u :: 0 <= u < |s.uploads| && Apply(s, step).uploads[u].phase.Posting? ==> Apply(s, step).uploads[u] == s.uploads[u]
  {
    if !IsUploadMove(step) && !step.Settle? {
      assert Apply(s, step).uploads == s.uploads;
    }
  }

  /** Only an upload that has not announced itself queues a `FileUpload`. */
  lemma OnlyPostingPosts(s: State, step: Step, id: SessionId)
    requires !HasPosting(s, id)
    ensures forall i :: |s.log| <= i < |Apply(s, step).log| ==> !IsUploadOf(Apply(s, step).log[i], id)
  {
    if !step.PostUpload? {
      LogsAreCalm(s, step);
    }
  }

  lemma LogsAreCalm(s: State, step: Step)
    requires !step.PostUpload?
    ensures forall i :: |s.log| <= i < |Apply(s, step).log| ==> !Apply(s, step).log[i].FileUpload?
  {
  }

  lemma {:induction false} SilentForever(s: State, more: seq<Step>, id: SessionId)
    requires Inv(s) && id in s.requests && HasLeftSlot(s.requests[id].phase) && !HasPosting(s, id)
    ensures var t := RunFrom(s, more);
      && id in t.requests && HasLeftSlot(t.requests[id].phase) && !HasPosting(t, id)
      && |s.log| <= |t.log| && forall i :: |s.log| <= i < |t.log| ==> !IsUploadOf(t.log[i], id)
  {
    if more != [] {
      var front, step := more[..|more| - 1], more[|more| - 1];
      var m := RunFrom(s, front);
      SilentForever(s, front, id);
      RunKeepsInv(s, front);
      LeftForGood(m, step, id);
      NoNewPosting(m, step, id);
      OnlyPostingPosts(m, step, id);
      LogGrows(m, step);
      var t := Apply(m, step);
      assert forall i :: 0 <= i < |m.log| ==> t.log[i] == t.log[..|m.log|][i] == m.log[i];
    }
  }

  /**
   After a session has left the slot, a further `FileUpload` of it can be queued if and
   only if one of its uploads has not announced itself yet.
   */
  lemma PostsAfterTheEndIff(steps: seq<Step>, id: SessionId)
    requires id in Run(steps).requests && HasLeftSlot(Run(steps).requests[id].phase)
    ensures CanStillPost(Run(steps), id) <==> HasPosting(Run(steps), id)
  {
    Reachable(steps);
    var s := Run(steps);
    if HasPosting(s, id) {
      var u :| 0 <= u < |s.uploads| && s.uploads[u].id == id && s.uploads[u].phase.Posting?;
      OneStep(s, PostUpload(u));
      assert IsUploadOf(RunFrom(s, [PostUpload(u)]).log[|s.log|], id);
    } else {
      forall more: seq<Step>, i: nat | |s.log| <= i < |RunFrom(s, more).log|
        ensures !IsUploadOf(RunFrom(s, more).log[i], id)
      {
        SilentForever(s, more, id);
      }
    }
  }

  /** So a queued `SessionEnd` is the last word exactly if every upload had announced itself. */
  lemma SessionEndIsLastIff(steps: seq<Step>, id: SessionId, reason: EndReason)
    requires SessionEnd(id, reason) in Run(steps).log
    ensures id in Run(steps).requests
    ensures CanStillPost(Run(steps), id) <==> HasPosting(Run(steps), id)
    ensures reason.SessionFinished? ==> !HasPosting(Run(steps), id)
  {
    Reachable(steps);
    var s := Run(steps);
    assert Told(s, id);
    StoryMeaning(s.log, id);
    var i :| 0 <= i < |s.log| && s.log[i] == SessionEnd(id, reason);
    assert Concerns(s.log[i], id);
    assert IsTerminal(s.log[i]);
    PostsAfterTheEndIff(steps, id);
    FinishedMeansComplete(steps, id);
  }

  // ---------------------------------------------------------------------------
  // Ends that are never reported
  // ---------------------------------------------------------------------------

  /** The future that was to send the `SessionEnd` of `id` was dropped in its send. */
  ghost predicate EndWasDropped(steps: seq<Step>, id: SessionId) {
    Happened(steps, id, EndUnreported)
  }

  predicate IsUnreported(s: State, id: SessionId) {
    id in s.requests && s.requests[id].phase.Ended? && !s.requests[id].phase.reported
  }

  lemma UnreportedIffDropped(steps: seq<Step>, id: SessionId)
    ensures IsUnreported(Run(steps), id) <==> EndWasDropped(steps, id)
  {
    FatesHaveCauses(steps, id, EndUnreported);
  }

  ghost predicate IsReported(s: State, id: SessionId) {
    exists reason :: SessionEnd(id, reason) in s.log
  }

  /** The `SessionEnd` of `id` is queued, or some continuation queues it. */
  ghost predicate CanBeReported(s: State, id: SessionId) {
    exists more: seq<Step> :: IsReported(RunFrom(s, more), id)
  }

  /** Nobody is left to report the end of the session. */
  predicate IsUntold(s: State, id: SessionId) {
    IsUnreported(s, id) || (id in s.requests && s.requests[id].phase.Withdrawn?)
  }

  /** A session whose end is not reported has no `SessionEnd` in the queue. */
  lemma NothingReported(s: State, id: SessionId)
    requires Inv(s) && IsUntold(s, id)
    ensures !IsReported(s, id)
  {
    assert Told(s, id);
    StoryMeaning(s.log, id);
    assert forall reason :: Concerns(SessionEnd(id, reason), id) && IsTerminal(SessionEnd(id, reason));
  }

  lemma StaysUntold(s: State, step: Step, id: SessionId)
    requires Core(s) && IsUntold(s, id)
    ensures IsUntold(Apply(s, step), id)
  {
    if IsUnreported(s, id) {
      assert HasFate(s, id, EndUnreported);
      FateStep(s, step, id, EndUnreported);
    } else {
      assert HasFate(s, id, EndedByApplication);
      FateStep(s, step, id, EndedByApplication);
    }
  }

  lemma {:induction false} UntoldForGood(s: State, more: seq<Step>, id: SessionId)
    requires Inv(s) && IsUntold(s, id)
    ensures IsUntold(RunFrom(s, more), id)
  {
    if more != [] {
      var front := more[..|more| - 1];
      UntoldForGood(s, front, id);
      RunKeepsInv(s, front);
      StaysUntold(RunFrom(s, front), more[|more| - 1], id);
    }
  }

  lemma NeverReported(s: State, more: seq<Step>, id: SessionId)
    requires Inv(s) && IsUntold(s, id)
    ensures !IsReported(RunFrom(s, more), id)
  {
    UntoldForGood(s, more, id);
    RunKeepsInv(s, more);
    NothingReported(RunFrom(s, more), id);
  }

  /**
   The application is or can still be told that a session has ended if and only if it did
   not end it itself and the future that reports the end was not dropped in its send.
   */
  lemma EndIsReportedIffNotDropped(steps: seq<Step>, id: SessionId)
    requires id in Run(steps).requests && HasLeftSlot(Run(steps).requests[id].phase)
    ensures CanBeReported(Run(steps), id) <==> !Happened(steps, id, EndedByApplication) && !EndWasDropped(steps, id)
  {
    Reachable(steps);
    UnreportedIffDropped(steps, id);
    FatesHaveCauses(steps, id, EndedByApplication);
    var s := Run(steps);
    var p := s.requests[id].phase;
    if p.Withdrawn? || IsUnreported(s, id) {
      forall more: seq<Step> ensures !IsReported(RunFrom(s, more), id) {
        NeverReported(s, more, id);
      }
    } else if p.Ending? {
      OneStep(s, ReportEnd(id, true));
      var t := RunFrom(s, [ReportEnd(id, true)]);
      assert t.log[|s.log|] == SessionEnd(id, p.reason);
      assert IsReported(t, id);
    } else {
      FinishedMeansComplete(steps, id);
      assert SessionEnd(id, p.reason) in RunFrom(s, []).log;
      assert IsReported(RunFrom(s, []), id);
    }
  }

  // ---------------------------------------------------------------------------
  // Two runs
  // ---------------------------------------------------------------------------

  /** All files are final and the slot is free, but the application is never told. */
  lemma EndCanGoUnreported(tokens: FileId -> Token)
    ensures exists steps: seq<Step> ::
              && 0 in Run(steps).requests && LeftAs(Run(steps).requests[0].phase, SessionFinished)
              && Run(steps).slot.NoSession? && !CanBeReported(Run(steps), 0)
  {
    var failed := UploadFailed(tokens);
    var settled := Extend(failed, Settle(0));
    OnlyFileFails(Run(failed), tokens(1));
    var steps := Extend(settled, ReportEnd(0, false));
    assert steps[..|settled|] == settled && Causes(Run(settled), ReportEnd(0, false), 0, EndUnreported);
    assert EndWasDropped(steps, 0);
    EndIsReportedIffNotDropped(steps, 0);
  }

  /** A run to a session whose only upload is about to be settled as failed. */
  lemma UploadFailed(tokens: FileId -> Token) returns (steps: seq<Step>)
    ensures var s := Run(steps);
      && s.slot == ActiveSession(0, 7, map[1 := SessionFile(tokens(1), InProgress, 1)])
      && s.uploads == [Upload(0, 1, Finishing(NotSaved))] && 0 in s.requests
  {
    var begun := SessionWithUpload(tokens);
    steps := Extend(begun, FailUpload(0));
  }

  lemma OnlyFileFails(s: State, token: Token)
    requires s.slot == ActiveSession(0, 7, map[1 := SessionFile(token, InProgress, 1)])
    requires s.uploads == [Upload(0, 1, Finishing(NotSaved))] && 0 in s.requests
    ensures var t := DoSettle(s, 0);
      t.slot.NoSession? && 0 in t.requests && t.requests[0].phase.Ending? && t.requests[0].phase.reason.SessionFinished?
  {
    var files := SettledFiles(s.slot.files, 1, NotSaved);
    assert files == map[1 := SessionFile(token, Failed, 1)];
    assert IsComplete(files);
  }

  /** An upload is dropped inside `finish`: its session stays in the slot and can never finish. */
  lemma SessionCanGetStuck(tokens: FileId -> Token)
    ensures exists steps: seq<Step> :: Run(steps).slot.ActiveSession? && !CanFinish(Run(steps), Run(steps).slot.id)
  {
    var failed := UploadFailed(tokens);
    var steps := Extend(failed, DropFinish(0));
    assert Run(steps).uploads[0].phase.Lost? && Run(steps).slot.ActiveSession?;
    assert HasLostUpload(Run(steps), 0);
    SessionCanFinishIffNoLostUpload(steps);
  }
}
