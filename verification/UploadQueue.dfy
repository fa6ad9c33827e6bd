/** How the queued events relate to the requests that wait for an answer to them. */
module UploadQueue {
  import opened UploadSession
  import opened UploadServer
  import opened UploadInvariants
  import opened UploadEvents
  import opened UploadHistory

  /** A `FileUpload` event names its upload, which is past posting it. */
  ghost predicate PostsKnown(s: State) {
    forall i :: 0 <= i < |s.log| && s.log[i].FileUpload? ==>
      var u := s.log[i].upload;
      u < |s.uploads| && s.uploads[u].id == s.log[i].id && s.uploads[u].file == s.log[i].file && !s.uploads[u].phase.Posting?
  }

  ghost predicate IsPosted(s: State, u: nat) {
    exists i :: 0 <= i < |s.log| && s.log[i].FileUpload? && s.log[i].upload == u
  }

  ghost predicate WaitingPosted(s: State) {
    forall u :: 0 <= u < |s.uploads| && s.uploads[u].phase.AwaitingTarget? ==> IsPosted(s, u)
  }

  /** The events of one file appear in the order in which its uploads began. */
  ghost predicate PostsAscend(s: State) {
    forall i, j :: 0 <= i < j < |s.log| && s.log[i].FileUpload? && s.log[j].FileUpload? ==>
      s.log[i].id == s.log[j].id && s.log[i].file == s.log[j].file ==> s.log[i].upload < s.log[j].upload
  }

  /** No prepare-upload was announced after the one that is still waiting for its decision. */
  ghost predicate DecidingIsLatest(s: State) {
    forall i, j :: 0 <= i < j < |s.log| && s.log[i].PrepareUpload? && s.log[j].PrepareUpload? ==>
      s.log[i].id in s.requests ==> !s.requests[s.log[i].id].phase.Deciding?
  }

  /** Every upload is of a file the session accepted. */
  ghost predicate UploadsAccepted(s: State) {
    forall u :: 0 <= u < |s.uploads| && s.uploads[u].id in s.requests && WasServed(s.requests[s.uploads[u].id].phase) ==>
      s.uploads[u].file in FilesOf(s, s.uploads[u].id)
  }

  ghost predicate Queue(s: State) {
    PostsKnown(s) && WaitingPosted(s) && PostsAscend(s) && DecidingIsLatest(s)
  }

  // ---------------------------------------------------------------------------
  // Preservation
  // ---------------------------------------------------------------------------

  lemma PostKeepsQueue(s: State, u: nat)
    requires Core(s) && Queue(s)
    ensures Queue(DoPostUpload(s, u))
  {
    var t := DoPostUpload(s, u);
    if t != s {
      forall i | 0 <= i < |s.log| && s.log[i].FileUpload? && SameFile(s.uploads[u], Upload(s.log[i].id, s.log[i].file, Posting))
        ensures s.log[i].upload < u
      {
        var v := s.log[i].upload;
        assert v != u;
        assert u < v ==> !SameFile(s.uploads[u], s.uploads[v]);
      }
      forall v | 0 <= v < |t.uploads| && t.uploads[v].phase.AwaitingTarget? ensures IsPosted(t, v) {
        if v == u {
          assert t.log[|s.log|].upload == u;
        } else {
          assert IsPosted(s, v);
          var i :| 0 <= i < |s.log| && s.log[i].FileUpload? && s.log[i].upload == v;
          assert t.log[i] == s.log[i];
        }
      }
    }
  }

  lemma AnnounceKeepsQueue(s: State, id: SessionId)
    requires Core(s) && Queue(s) && Told(s, id)
    ensures Queue(DoAnnouncePrepare(s, id))
  {
    var t := DoAnnouncePrepare(s, id);
    if t != s {
      StoryMeaning(s.log, id);
      EventKeepsPosted(s, t, PrepareUpload(id));
      assert forall i :: 0 <= i < |s.log| && s.log[i].PrepareUpload? ==> s.log[i].id != id by {
        assert forall i :: 0 <= i < |s.log| ==> !Concerns(s.log[i], id);
      }
    }
  }

  lemma EventKeepsPosted(s: State, t: State, e: Event)
    requires WaitingPosted(s) && t.uploads == s.uploads && t.log == s.log + [e]
    ensures WaitingPosted(t)
  {
    forall u | 0 <= u < |t.uploads| && t.uploads[u].phase.AwaitingTarget? ensures IsPosted(t, u) {
      assert IsPosted(s, u);
      var i :| 0 <= i < |s.log| && s.log[i].FileUpload? && s.log[i].upload == u;
      assert t.log[i] == s.log[i];
    }
  }

  /** The log is only extended by other events, and nobody starts waiting. */
  ghost predicate QuietStep(s: State, t: State) {
    QuietLog(s, t) && QuietUploads(s, t) && QuietRequests(s, t)
  }

  ghost predicate QuietLog(s: State, t: State) {
    t.log == s.log || exists e :: t.log == s.log + [e] && !e.FileUpload? && !e.PrepareUpload?
  }

  ghost predicate QuietUploads(s: State, t: State) {
    && |s.uploads| <= |t.uploads|
    && (forall u :: 0 <= u < |s.uploads| ==>
          && SameFile(t.uploads[u], s.uploads[u])
          && (t.uploads[u].phase.Posting? ==> s.uploads[u].phase.Posting?)
          && (t.uploads[u].phase.AwaitingTarget? ==> s.uploads[u].phase.AwaitingTarget?))
    && (forall u :: |s.uploads| <= u < |t.uploads| ==> t.uploads[u].phase.Posting?)
  }

  ghost predicate QuietRequests(s: State, t: State) {
    && (forall id :: id in t.requests && t.requests[id].phase.Deciding? ==>
          id in s.requests && s.requests[id].phase.Deciding?)
    && (forall id :: id in s.requests ==> id in t.requests)
  }

  lemma QuietKeepsQueue(s: State, t: State)
    requires Queue(s) && QuietStep(s, t)
    requires forall i :: 0 <= i < |s.log| && s.log[i].PrepareUpload? ==> s.log[i].id in s.requests
    ensures Queue(t)
  {
    forall u | 0 <= u < |t.uploads| && t.uploads[u].phase.AwaitingTarget? ensures IsPosted(t, u) {
      assert IsPosted(s, u);
      var i :| 0 <= i < |s.log| && s.log[i].FileUpload? && s.log[i].upload == u;
      assert t.log[i] == s.log[i];
    }
  }

  lemma OtherStepsAreQuiet(s: State, step: Step)
    requires !step.PostUpload? && !step.AnnouncePrepare?
    ensures QuietStep(s, Apply(s, step))
  {
    LogsAreQuiet(s, step);
    UploadsAreQuiet(s, step);
    RequestsAreQuiet(s, step);
  }

  lemma LogsAreQuiet(s: State, step: Step)
    requires !step.PostUpload? && !step.AnnouncePrepare?
    ensures QuietLog(s, Apply(s, step))
  {
    var t := Apply(s, step);
    if t.log != s.log {
      assert t.log == s.log + [t.log[|s.log|]];
    }
  }

  lemma UploadsAreQuiet(s: State, step: Step)
    requires !step.PostUpload?
    ensures QuietUploads(s, Apply(s, step))
  {
    if !IsUploadMove(step) && !step.BeginUpload? && !step.Settle? {
      assert Apply(s, step).uploads == s.uploads;
    }
  }

  lemma RequestsAreQuiet(s: State, step: Step)
    requires !step.AnnouncePrepare?
    ensures QuietRequests(s, Apply(s, step))
  {
    if IsUploadMove(step) || step.BeginUpload? || step.Notify? {
      assert Apply(s, step).requests == s.requests;
    } else if IsRequestMove(step) {
      MovesAreQuiet(s, step);
    }
  }

  lemma MovesAreQuiet(s: State, step: Step)
    requires !step.AnnouncePrepare? && IsRequestMove(step)
    ensures QuietRequests(s, Apply(s, step))
  {
  }

  lemma StepKeepsQueue(s: State, step: Step)
    requires Core(s) && Queue(s) && forall id :: Told(s, id)
    ensures Queue(Apply(s, step))
  {
    if step.PostUpload? {
      PostKeepsQueue(s, step.upload);
    } else if step.AnnouncePrepare? {
      AnnounceKeepsQueue(s, step.id);
    } else {
      forall i | 0 <= i < |s.log| && s.log[i].PrepareUpload? ensures s.log[i].id in s.requests {
        assert Told(s, s.log[i].id);
        StoryMeaning(s.log, s.log[i].id);
        assert Concerns(s.log[i], s.log[i].id);
      }
      OtherStepsAreQuiet(s, step);
      QuietKeepsQueue(s, Apply(s, step));
    }
  }

  // ---------------------------------------------------------------------------
  // Accepted files
  // ---------------------------------------------------------------------------

  lemma StepKeepsAccepted(s: State, step: Step)
    requires Core(s) && UploadsAccepted(s)
    ensures UploadsAccepted(Apply(s, step))
  {
    var t := Apply(s, step);
    forall u | 0 <= u < |t.uploads| && t.uploads[u].id in t.requests && WasServed(t.requests[t.uploads[u].id].phase)
      ensures t.uploads[u].file in FilesOf(t, t.uploads[u].id)
    {
      if step.BeginUpload? {
        BeginKeepsAccepted(s, step, u);
      } else if step.Settle? {
        SettleKeepsAccepted(s, step.upload, u);
      } else {
        OtherKeepsAccepted(s, step, u);
      }
    }
  }

  lemma OtherKeepsAccepted(s: State, step: Step, u: nat)
    requires Core(s) && UploadsAccepted(s) && !step.BeginUpload? && !step.Settle?
    requires var t := Apply(s, step);
      u < |t.uploads| && t.uploads[u].id in t.requests && WasServed(t.requests[t.uploads[u].id].phase)
    ensures Apply(s, step).uploads[u].file in FilesOf(Apply(s, step), Apply(s, step).uploads[u].id)
  {
    StepFramesUploads(s, step);
    assert u < |s.uploads|;
    FilesOfKept(s, step, s.uploads[u].id);
  }

  lemma BeginKeepsAccepted(s: State, step: Step, u: nat)
    requires Core(s) && UploadsAccepted(s) && step.BeginUpload?
    requires var t := Apply(s, step);
      u < |t.uploads| && t.uploads[u].id in t.requests && WasServed(t.requests[t.uploads[u].id].phase)
    ensures Apply(s, step).uploads[u].file in FilesOf(Apply(s, step), Apply(s, step).uploads[u].id)
  {
  }

  lemma SettleKeepsAccepted(s: State, v: nat, u: nat)
    requires Core(s) && UploadsAccepted(s)
    requires var t := DoSettle(s, v);
      u < |t.uploads| && t.uploads[u].id in t.requests && WasServed(t.requests[t.uploads[u].id].phase)
    ensures DoSettle(s, v).uploads[u].file in FilesOf(DoSettle(s, v), DoSettle(s, v).uploads[u].id)
  {
  }

  /** The whole invariant of the server. */
  ghost predicate Inv(s: State) {
    && Core(s) && InProgressHasUpload(s) && StartsCounted(s) && SucceedsOnce(s)
    && Queue(s) && UploadsAccepted(s)
    && forall id :: Told(s, id)
  }

  lemma StepKeepsInv(s: State, step: Step)
    requires Inv(s)
    ensures Inv(Apply(s, step))
  {
    StepKeepsCore(s, step);
    StepKeepsInProgress(s, step);
    StepKeepsStarts(s, step);
    StepKeepsSuccesses(s, step);
    StepKeepsQueue(s, step);
    StepKeepsAccepted(s, step);
    forall id ensures Told(Apply(s, step), id) {
      StepTells(s, step, id);
    }
  }

  lemma {:induction false} RunKeepsInv(s: State, steps: seq<Step>)
    requires Inv(s)
    ensures Inv(RunFrom(s, steps))
  {
    if steps != [] {
      RunKeepsInv(s, steps[..|steps| - 1]);
      StepKeepsInv(RunFrom(s, steps[..|steps| - 1]), steps[|steps| - 1]);
    }
  }

  lemma Reachable(steps: seq<Step>)
    ensures Inv(Run(steps))
  {
    RunKeepsInv(INIT, steps);
  }
}
