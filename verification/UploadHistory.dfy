/** What the uploads and events of a whole run of the upload server add up to. */
module UploadHistory {
  import opened UploadSession
  import opened UploadServer
  import opened UploadInvariants

  // ---------------------------------------------------------------------------
  // Every file in progress has an outstanding upload
  // ---------------------------------------------------------------------------

  lemma OutstandingKept(s: State, step: Step, id: SessionId, f: FileId)
    requires HasUpload(s, id, f) && !step.Settle?
    ensures HasUpload(Apply(s, step), id, f)
  {
    var u :| 0 <= u < |s.uploads| && Occupies(s.uploads[u].phase) && s.uploads[u].id == id && s.uploads[u].file == f;
    assert SameFile(Apply(s, step).uploads[u], s.uploads[u]) && Occupies(Apply(s, step).uploads[u].phase);
  }

  /** What the other steps make of the slot. */
  lemma SlotEffect(s: State, step: Step)
    requires !IsMove(step) && !step.BeginUpload? && !step.Settle?
    ensures var t := Apply(s, step);
      || t.slot == s.slot || !t.slot.ActiveSession?
      || (&& step.Install? && step.id in s.requests && s.requests[step.id].phase.Installing?
          && t.slot == ActiveSession(step.id, s.requests[step.id].sender, s.requests[step.id].phase.files))
  {
  }

  /** Only starting an upload brings a file of the active session in progress. */
  lemma FilesOnlyChangedByUploads(s: State, step: Step, f: FileId)
    requires Core(s) && !step.BeginUpload? && !step.Settle?
    requires Apply(s, step).slot.ActiveSession? && f in Apply(s, step).slot.files
    requires Apply(s, step).slot.files[f].status.InProgress?
    ensures Apply(s, step).slot == s.slot
  {
    if IsMove(step) {
      MoveStep(s, step);
    } else {
      SlotEffect(s, step);
    }
  }

  lemma StepKeepsInProgress(s: State, step: Step)
    requires Core(s) && InProgressHasUpload(s)
    ensures InProgressHasUpload(Apply(s, step))
  {
    var t := Apply(s, step);
    if t.slot.ActiveSession? {
      forall f | f in t.slot.files && t.slot.files[f].status.InProgress?
        ensures HasUpload(t, t.slot.id, f)
      {
        if step.Settle? {
          SettleKeepsOutstanding(s, step.upload, f);
        } else if step.BeginUpload? {
          if t.slot != s.slot && f == step.file {
            assert Occupies(t.uploads[|s.uploads|].phase);
          } else {
            OutstandingKept(s, step, t.slot.id, f);
          }
        } else {
          FilesOnlyChangedByUploads(s, step, f);
          OutstandingKept(s, step, t.slot.id, f);
        }
      }
    }
  }

  lemma SettleKeepsOutstanding(s: State, u: nat, f: FileId)
    requires Core(s) && InProgressHasUpload(s)
    requires DoSettle(s, u).slot.ActiveSession? && f in DoSettle(s, u).slot.files
    requires DoSettle(s, u).slot.files[f].status.InProgress?
    ensures HasUpload(DoSettle(s, u), DoSettle(s, u).slot.id, f)
  {
    var t := DoSettle(s, u);
    assert HasUpload(s, s.slot.id, f);
    var v :| 0 <= v < |s.uploads| && Occupies(s.uploads[v].phase) && s.uploads[v].id == s.slot.id && s.uploads[v].file == f;
    assert Occupies(t.uploads[v].phase);
  }

  // ---------------------------------------------------------------------------
  // Starts and successes
  // ---------------------------------------------------------------------------

  /** How many uploads of session `id` were ever started. */
  ghost function Starts(uploads: seq<Upload>, id: SessionId): nat {
    if uploads == [] then 0
    else Starts(uploads[..|uploads| - 1], id) + (if uploads[|uploads| - 1].id == id then 1 else 0)
  }

  lemma {:induction false} StartsDependOnIds(a: seq<Upload>, b: seq<Upload>, id: SessionId)
    requires |a| == |b| && forall u :: 0 <= u < |a| ==> a[u].id == b[u].id
    ensures Starts(a, id) == Starts(b, id)
  {
    if a != [] {
      StartsDependOnIds(a[..|a| - 1], b[..|b| - 1], id);
    }
  }

  lemma {:induction false} NoStarts(uploads: seq<Upload>, id: SessionId)
    requires forall u :: 0 <= u < |uploads| ==> uploads[u].id != id
    ensures Starts(uploads, id) == 0
  {
    if uploads != [] {
      NoStarts(uploads[..|uploads| - 1], id);
    }
  }

  /** The accepted files of a session: in the slot while it is active, as it left the slot afterwards. */
  function FilesOf(s: State, id: SessionId): Files
    requires id in s.requests && WasServed(s.requests[id].phase)
  {
    if HasLeftSlot(s.requests[id].phase) then s.requests[id].phase.files
    else if s.slot.ActiveSession? then s.slot.files else map[]
  }

  ghost predicate StartsCounted(s: State) {
    forall id :: id in s.requests && WasServed(s.requests[id].phase) ==>
      Starts(s.uploads, id) == Attempts(FilesOf(s, id))
  }

  ghost predicate SucceedsOnce(s: State) {
    && (forall u :: 0 <= u < |s.uploads| && s.uploads[u].phase == Settled(Saved) && Serves(s.slot, s.uploads[u].id) ==>
          s.uploads[u].file in s.slot.files && s.slot.files[s.uploads[u].file].status.Finished?)
    && (forall u, v :: 0 <= u < v < |s.uploads| && SameFile(s.uploads[u], s.uploads[v]) ==>
          !(s.uploads[u].phase == Settled(Saved) && s.uploads[v].phase == Settled(Saved)))
  }

  lemma {:induction false} UntouchedAttempts(files: Files)
    requires forall f :: f in files ==> files[f].attempts == 0
    ensures Attempts(files) == 0
  {
    TotalAtMost(files, AttemptsOf, 0);
  }

  lemma SettleKeepsAttempts(files: Files, f: FileId, result: SaveResult)
    ensures Attempts(SettledFiles(files, f, result)) == Attempts(files)
  {
    if f in files && files[f].status.InProgress? {
      TotalUpdated(files, AttemptsOf, f, SettledFile(files[f], result));
    }
  }

  lemma StartAddsAttempt(files: Files, f: FileId)
    requires f in files && FileSound(files[f]) && files[f].status.Pending?
    ensures Attempts(files[f := StartedFile(files[f])]) == Attempts(files) + 1
  {
    TotalUpdated(files, AttemptsOf, f, StartedFile(files[f]));
  }

  lemma StepKeepsStarts(s: State, step: Step)
    requires Core(s) && StartsCounted(s)
    ensures StartsCounted(Apply(s, step))
  {
    var t := Apply(s, step);
    forall id | id in t.requests && WasServed(t.requests[id].phase)
      ensures Starts(t.uploads, id) == Attempts(FilesOf(t, id))
    {
      if step.BeginUpload? {
        BeginKeepsStarts(s, step, id);
      } else {
        StepFramesUploads(s, step);
        StartsDependOnIds(t.uploads, s.uploads, id);
        if id in s.requests && WasServed(s.requests[id].phase) {
          FilesKeepAttempts(s, step, id);
        } else {
          NewFilesAreUntouched(s, step, id);
        }
      }
    }
  }

  lemma BeginKeepsStarts(s: State, step: Step, id: SessionId)
    requires Core(s) && StartsCounted(s) && step.BeginUpload?
    requires id in Apply(s, step).requests && WasServed(Apply(s, step).requests[id].phase)
    ensures Starts(Apply(s, step).uploads, id) == Attempts(FilesOf(Apply(s, step), id))
  {
    var t := Apply(s, step);
    if t != s {
      assert t.uploads[..|t.uploads| - 1] == s.uploads;
      StartAddsAttempt(s.slot.files, step.file);
    }
  }

  lemma FilesKeepAttempts(s: State, step: Step, id: SessionId)
    requires Core(s) && !step.BeginUpload? && id in s.requests && WasServed(s.requests[id].phase)
    ensures id in Apply(s, step).requests && WasServed(Apply(s, step).requests[id].phase)
    ensures Attempts(FilesOf(Apply(s, step), id)) == Attempts(FilesOf(s, id))
  {
    if step.Settle? {
      SettledFilesOf(s, step.upload, id);
    } else {
      FilesOfKept(s, step, id);
    }
  }

  lemma NewFilesAreUntouched(s: State, step: Step, id: SessionId)
    requires Core(s) && !step.BeginUpload? && (id !in s.requests || !WasServed(s.requests[id].phase))
    requires id in Apply(s, step).requests && WasServed(Apply(s, step).requests[id].phase)
    ensures Attempts(FilesOf(Apply(s, step), id)) == Starts(s.uploads, id)
  {
    NoStarts(s.uploads, id);
    UntouchedWhenInstalled(s, step, id);
    UntouchedAttempts(FilesOf(Apply(s, step), id));
  }

  lemma UntouchedWhenInstalled(s: State, step: Step, id: SessionId)
    requires Core(s)
    requires id in Apply(s, step).requests && WasServed(Apply(s, step).requests[id].phase)
    requires id !in s.requests || !WasServed(s.requests[id].phase)
    ensures FilesUntouched(FilesOf(Apply(s, step), id))
  {
    if IsMove(step) {
      MoveStep(s, step);
      assert false;
    }
  }

  lemma FilesOfKept(s: State, step: Step, id: SessionId)
    requires Core(s) && !step.BeginUpload? && !step.Settle?
    requires id in s.requests && WasServed(s.requests[id].phase)
    ensures id in Apply(s, step).requests && WasServed(Apply(s, step).requests[id].phase)
    ensures FilesOf(Apply(s, step), id) == FilesOf(s, id)
  {
    if IsMove(step) {
      MoveStep(s, step);
    } else {
      FilesOfKeptBySlotStep(s, step, id);
    }
  }

  lemma FilesOfKeptBySlotStep(s: State, step: Step, id: SessionId)
    requires SlotOwned(s) && !IsMove(step) && !step.BeginUpload? && !step.Settle?
    requires id in s.requests && WasServed(s.requests[id].phase)
    ensures id in Apply(s, step).requests && WasServed(Apply(s, step).requests[id].phase)
    ensures FilesOf(Apply(s, step), id) == FilesOf(s, id)
  {
  }

  lemma SettledFilesOf(s: State, u: nat, id: SessionId)
    requires Core(s) && id in s.requests && WasServed(s.requests[id].phase)
    ensures id in DoSettle(s, u).requests && WasServed(DoSettle(s, u).requests[id].phase)
    ensures Attempts(FilesOf(DoSettle(s, u), id)) == Attempts(FilesOf(s, id))
  {
    if u < |s.uploads| && s.slot.ActiveSession? {
      var up := s.uploads[u];
      SettleKeepsAttempts(s.slot.files, up.file, if up.phase.Finishing? then up.phase.result else NotSaved);
    }
  }

  /** Every earlier upload keeps its file, and a step other than settling settles none. */
  ghost predicate UploadsFramed(s: State, t: State) {
    && |s.uploads| <= |t.uploads|
    && (forall u :: 0 <= u < |s.uploads| ==> SameFile(t.uploads[u], s.uploads[u]))
    && (forall u :: 0 <= u < |t.uploads| && t.uploads[u].phase.Settled? ==>
          u < |s.uploads| && t.uploads[u].phase == s.uploads[u].phase)
  }

  lemma StepFramesUploads(s: State, step: Step)
    ensures !step.Settle? ==> UploadsFramed(s, Apply(s, step))
    ensures !step.BeginUpload? ==> |Apply(s, step).uploads| == |s.uploads|
    ensures forall u :: 0 <= u < |s.uploads| ==> u < |Apply(s, step).uploads| && SameFile(Apply(s, step).uploads[u], s.uploads[u])
  {
    if IsMove(step) {
      MoveStep(s, step);
    } else if !step.BeginUpload? && !step.Settle? {
      assert Apply(s, step).uploads == s.uploads;
    }
  }

  /** Finished files stay finished for as long as the session is active. */
  lemma FinishedKept(s: State, step: Step, f: FileId)
    requires Core(s) && !step.Settle? && Apply(s, step).slot.ActiveSession?
    requires Serves(s.slot, Apply(s, step).slot.id)
    requires f in s.slot.files && s.slot.files[f].status.Finished?
    ensures f in Apply(s, step).slot.files && Apply(s, step).slot.files[f].status.Finished?
  {
    if IsMove(step) {
      MoveStep(s, step);
    } else if !step.BeginUpload? {
      SlotEffect(s, step);
    }
  }

  lemma StepKeepsSuccesses(s: State, step: Step)
    requires Core(s) && SucceedsOnce(s)
    ensures SucceedsOnce(Apply(s, step))
  {
    if step.Settle? {
      SettleKeepsSuccesses(s, step.upload);
    } else {
      var t := Apply(s, step);
      StepFramesUploads(s, step);
      forall u | 0 <= u < |t.uploads| && t.uploads[u].phase == Settled(Saved) && Serves(t.slot, t.uploads[u].id)
        ensures t.uploads[u].file in t.slot.files && t.slot.files[t.uploads[u].file].status.Finished?
      {
        ServedBefore(s, step, s.uploads[u].id);
        FinishedKept(s, step, s.uploads[u].file);
      }
      SuccessesFramed(s, t);
    }
  }

  /** A session that has uploads already does not become active again. */
  lemma ServedBefore(s: State, step: Step, id: SessionId)
    requires Core(s) && !step.Settle?
    requires id in s.requests && WasServed(s.requests[id].phase) && Serves(Apply(s, step).slot, id)
    ensures Serves(s.slot, id)
  {
    if IsMove(step) {
      MoveStep(s, step);
    } else if !step.BeginUpload? {
      SlotEffect(s, step);
    }
  }

  lemma SuccessesFramed(s: State, t: State)
    requires SucceedsOnce(s) && UploadsFramed(s, t)
    ensures forall u, v :: 0 <= u < v < |t.uploads| && SameFile(t.uploads[u], t.uploads[v]) ==>
              !(t.uploads[u].phase == Settled(Saved) && t.uploads[v].phase == Settled(Saved))
  {
    forall u, v | 0 <= u < v < |t.uploads| && SameFile(t.uploads[u], t.uploads[v])
      ensures !(t.uploads[u].phase == Settled(Saved) && t.uploads[v].phase == Settled(Saved))
    {
      if v < |s.uploads| {
        assert SameFile(s.uploads[u], s.uploads[v]);
      }
    }
  }

  lemma SettleKeepsSuccesses(s: State, u: nat)
    requires Core(s) && SucceedsOnce(s)
    ensures SucceedsOnce(DoSettle(s, u))
  {
  }
}
