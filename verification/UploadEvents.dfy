/** The order in which the events of one session can appear in the event queue. */
module UploadEvents {
  import opened UploadSession
  import opened UploadServer
  import opened UploadInvariants

  /** What the application has been told about one session. */
  datatype Story =
    | Silent
    | Asked        // `PrepareUpload`
    | Uploading    // at least one `FileUpload` since
    | GaveUp       // `PrepareUploadAborted`
    | Completed    // `SessionEnd(Finished)`
    | Abandoned    // `SessionEnd(Cancelled)`
    | Broken       // anything else

  predicate Concerns(e: Event, id: SessionId) {
    !e.Register? && !e.CancelReceived? && e.id == id
  }

  /** The grammar. Note the one event that may follow a terminal one: `FileUpload` after a cancel. */
  function Tell(story: Story, e: Event): Story {
    match e
    case PrepareUpload(_) => if story.Silent? then Asked else Broken
    case PrepareUploadAborted(_) => if story.Silent? || story.Asked? then GaveUp else Broken
    case FileUpload(_, _, _) =>
      if story.Asked? || story.Uploading? then Uploading else if story.Abandoned? then Abandoned else Broken
    case SessionEnd(_, reason) =>
      if story.Asked? || story.Uploading?
      then (if reason.SessionFinished? then Completed else Abandoned)
      else Broken
    case Register => Broken
    case CancelReceived(_) => Broken
  }

  function StoryOf(log: seq<Event>, id: SessionId): Story {
    if log == [] then Silent
    else
      var story := StoryOf(log[..|log| - 1], id);
      var e := log[|log| - 1];
      if Concerns(e, id) then Tell(story, e) else story
  }

  lemma StoryGrows(log: seq<Event>, e: Event, id: SessionId)
    ensures StoryOf(log + [e], id) == if Concerns(e, id) then Tell(StoryOf(log, id), e) else StoryOf(log, id)
  {
    assert (log + [e])[..|log|] == log;
  }

  /** What has been told by the time a request is in `phase`. */
  predicate Fits(phase: Phase, story: Story) {
    match phase
    case Announcing => story.Silent?
    case Deciding => story.Asked?
    case Installing(_) => story.Asked?
    case Clearing => story.Asked?
    case Reclaiming => story.Silent? || story.Asked?
    case Aborting => story.Silent? || story.Asked?
    case Aborted(reported) => if reported then story.GaveUp? else story.Silent? || story.Asked?
    case Dismissed => story.Asked?
    case Leaked => story.Asked?
    case Serving => story.Asked? || story.Uploading?
    case Ending(_, _) => story.Asked? || story.Uploading?
    case Ended(reason, _, reported) =>
      if !reported then story.Asked? || story.Uploading?
      else if reason.SessionFinished? then story.Completed?
      else story.Abandoned?
    case Withdrawn(_) => story.Asked? || story.Uploading?
  }

  ghost predicate Told(s: State, id: SessionId) {
    if id in s.requests then Fits(s.requests[id].phase, StoryOf(s.log, id))
    else StoryOf(s.log, id).Silent?
  }

  /** A request-side step queues at most one event, about its own request, that fits its new phase. */
  lemma RequestStepTells(s: State, step: Step, id: SessionId)
    requires Told(s, id) && (IsRequestMove(step) || step.Notify?)
    ensures Told(Apply(s, step), id)
  {
    match step
    case AnnouncePrepare(x) => AnnounceTells(s, x, id);
    case ReportAborted(x, delivered) => AbortTells(s, x, delivered, id);
    case ReportEnd(x, delivered) => EndTells(s, x, delivered, id);
    case Notify(e) => NotifyTells(s, e, id);
    case _ => QuietMoveTells(s, step, id);
  }

  lemma AnnounceTells(s: State, x: SessionId, id: SessionId)
    requires Told(s, id)
    ensures Told(DoAnnouncePrepare(s, x), id)
  {
    StoryGrows(s.log, PrepareUpload(x), id);
  }

  lemma AbortTells(s: State, x: SessionId, delivered: bool, id: SessionId)
    requires Told(s, id)
    ensures Told(DoReportAborted(s, x, delivered), id)
  {
    StoryGrows(s.log, PrepareUploadAborted(x), id);
  }

  lemma EndTells(s: State, x: SessionId, delivered: bool, id: SessionId)
    requires Told(s, id)
    ensures Told(DoReportEnd(s, x, delivered), id)
  {
    if x in s.requests && s.requests[x].phase.Ending? {
      StoryGrows(s.log, SessionEnd(x, s.requests[x].phase.reason), id);
    }
  }

  lemma NotifyTells(s: State, e: Event, id: SessionId)
    requires Told(s, id)
    ensures Told(DoNotify(s, e), id)
  {
    StoryGrows(s.log, e, id);
  }

  lemma QuietMoveTells(s: State, step: Step, id: SessionId)
    requires Told(s, id) && IsRequestMove(step)
    requires !step.AnnouncePrepare? && !step.ReportAborted? && !step.ReportEnd?
    ensures Told(Apply(s, step), id)
  {
    assert Apply(s, step).log == s.log;
  }

  /** An upload announces itself while its session is active, or after it was cancelled. */
  lemma PostTells(s: State, u: nat, id: SessionId)
    requires UploadsOwned(s) && Told(s, id)
    ensures Told(DoPostUpload(s, u), id)
  {
    if UploadIn(s, u, Posting) {
      StoryGrows(s.log, FileUpload(s.uploads[u].id, s.uploads[u].file, u), id);
    }
  }

  lemma UploadStepTells(s: State, step: Step, id: SessionId)
    requires UploadsOwned(s) && Told(s, id) && IsUploadMove(step)
    ensures Told(Apply(s, step), id)
  {
    if step.PostUpload? {
      PostTells(s, step.upload, id);
    } else {
      assert Apply(s, step).log == s.log && Apply(s, step).requests == s.requests;
    }
  }

  lemma SlotStepTells(s: State, step: Step, id: SessionId)
    requires SlotOwned(s) && Told(s, id) && !IsRequestMove(step) && !IsUploadMove(step) && !step.Notify?
    ensures Told(Apply(s, step), id)
  {
    assert Apply(s, step).log == s.log;
  }

  lemma StepTells(s: State, step: Step, id: SessionId)
    requires Core(s) && Told(s, id)
    ensures Told(Apply(s, step), id)
  {
    if IsRequestMove(step) || step.Notify? {
      RequestStepTells(s, step, id);
    } else if IsUploadMove(step) {
      UploadStepTells(s, step, id);
    } else {
      SlotStepTells(s, step, id);
    }
  }

  // ---------------------------------------------------------------------------
  // What the grammar says about positions in the queue
  // ---------------------------------------------------------------------------

  predicate IsTerminal(e: Event) {
    e.SessionEnd? || e.PrepareUploadAborted?
  }

  /** The grammar, read off the queue: who may come before whom. */
  ghost predicate Ordered(log: seq<Event>, id: SessionId) {
    && (forall i, j :: 0 <= i < j < |log| && Concerns(log[i], id) && Concerns(log[j], id) ==>
          && !log[j].PrepareUpload?
          && (IsTerminal(log[i]) ==> log[i] == SessionEnd(id, SessionCancelled) && log[j].FileUpload?)
          && (log[i].FileUpload? ==> !log[j].PrepareUploadAborted?))
    && (forall j :: 0 <= j < |log| && Concerns(log[j], id) && (log[j].FileUpload? || log[j].SessionEnd?) ==>
          exists i :: 0 <= i < j && log[i] == PrepareUpload(id))
  }

  lemma {:induction false} StoryMeaning(log: seq<Event>, id: SessionId)
    requires !StoryOf(log, id).Broken?
    ensures Ordered(log, id)
    ensures var story := StoryOf(log, id);
      && (story.Silent? ==> forall i :: 0 <= i < |log| ==> !Concerns(log[i], id))
      && (story.Asked? ==> forall i :: 0 <= i < |log| && Concerns(log[i], id) ==> log[i].PrepareUpload?)
      && (story.Uploading? ==> forall i :: 0 <= i < |log| && Concerns(log[i], id) ==> !IsTerminal(log[i]))
      && (story.Abandoned? ==> forall i :: 0 <= i < |log| && Concerns(log[i], id) && IsTerminal(log[i]) ==>
                                 log[i] == SessionEnd(id, SessionCancelled))
      && (story.GaveUp? ==> forall i :: 0 <= i < |log| && Concerns(log[i], id) ==> !log[i].SessionEnd?)
      && (story.Completed? ==> forall i :: 0 <= i < |log| && Concerns(log[i], id) && IsTerminal(log[i]) ==>
                                 log[i] == SessionEnd(id, SessionFinished))
      && (!story.Silent? && !story.GaveUp? ==> exists i :: 0 <= i < |log| && log[i] == PrepareUpload(id))
  {
    if log != [] {
      StoryMeaning(log[..|log| - 1], id);
    }
  }
}
