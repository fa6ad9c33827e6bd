/** How the uploads of a file decide what becomes of it. */
module UploadOutcomes {
  import opened UploadSession
  import opened UploadServer
  import opened UploadInvariants
  import opened UploadHistory
  import opened UploadQueue

  // ---------------------------------------------------------------------------
  // The status of a file, read off its uploads
  // ---------------------------------------------------------------------------

  predicate IsOfFile(upload: Upload, id: SessionId, f: FileId) {
    upload.id == id && upload.file == f
  }

  /** How many uploads of file `f` were ever started in session `id`. */
  ghost function Tries(uploads: seq<Upload>, id: SessionId, f: FileId): nat {
    if uploads == [] then 0
    else Tries(uploads[..|uploads| - 1], id, f) + (if IsOfFile(uploads[|uploads| - 1], id, f) then 1 else 0)
  }

  /** Upload `u` is the last one of file `f` in session `id`. */
  ghost predicate IsLatest(uploads: seq<Upload>, u: int, id: SessionId, f: FileId) {
    && 0 <= u < |uploads| && IsOfFile(uploads[u], id, f)
    && forall v :: u < v < |uploads| ==> !IsOfFile(uploads[v], id, f)
  }

  /** What the latest upload of a file says about it. */
  predicate Explains(phase: UploadPhase, file: SessionFile) {
    match phase
    case Settled(Saved) => file.status.Finished?
    case Settled(NotSaved) => file.status.Failed?
    case Settled(HashMismatch) => if file.attempts < 3 then file.status.Pending? else file.status.Failed?
    case _ => file.status.InProgress?
  }

  /** A file is pending until its first upload, then what the latest one says; all earlier ones were mismatches. */
  ghost predicate Explained(uploads: seq<Upload>, id: SessionId, f: FileId, file: SessionFile) {
    && file.attempts == Tries(uploads, id, f)
    && (file.attempts == 0 ==> file.status.Pending?)
    && forall u :: 0 <= u < |uploads| && IsOfFile(uploads[u], id, f) ==>
         if IsLatest(uploads, u, id, f) then Explains(uploads[u].phase, file) else uploads[u].phase == Settled(HashMismatch)
  }

  ghost predicate AllExplained(s: State) {
    forall id, f :: id in s.requests && WasServed(s.requests[id].phase) && f in FilesOf(s, id) ==>
      Explained(s.uploads, id, f, FilesOf(s, id)[f])
  }

  // ---------------------------------------------------------------------------
  // Preservation
  // ---------------------------------------------------------------------------

  /** The same uploads, and whatever was settled stays as it is. */
  ghost predicate SameVerdicts(before: seq<Upload>, after: seq<Upload>) {
    && |after| == |before|
    && forall u :: 0 <= u < |before| ==>
         && SameFile(after[u], before[u])
         && (after[u].phase.Settled? || before[u].phase.Settled? ==> after[u].phase == before[u].phase)
  }

  lemma {:induction false} TriesDependOnFiles(a: seq<Upload>, b: seq<Upload>, id: SessionId, f: FileId)
    requires |a| == |b| && forall u :: 0 <= u < |a| ==> SameFile(a[u], b[u])
    ensures Tries(a, id, f) == Tries(b, id, f)
  {
    if a != [] {
      TriesDependOnFiles(a[..|a| - 1], b[..|b| - 1], id, f);
    }
  }

  lemma {:induction false} NoTries(uploads: seq<Upload>, id: SessionId, f: FileId)
    ensures Tries(uploads, id, f) == 0 <==> forall u :: 0 <= u < |uploads| ==> !IsOfFile(uploads[u], id, f)
  {
    if uploads != [] {
      NoTries(uploads[..|uploads| - 1], id, f);
    }
  }

  lemma ExplainedStill(before: seq<Upload>, after: seq<Upload>, id: SessionId, f: FileId, file: SessionFile)
    requires Explained(before, id, f, file) && SameVerdicts(before, after)
    ensures Explained(after, id, f, file)
  {
    TriesDependOnFiles(before, after, id, f);
    forall u | 0 <= u < |after| && IsOfFile(after[u], id, f)
      ensures if IsLatest(after, u, id, f) then Explains(after[u].phase, file) else after[u].phase == Settled(HashMismatch)
    {
      assert IsLatest(after, u, id, f) <==> IsLatest(before, u, id, f);
    }
  }

  lemma OthersSettleNothing(s: State, step: Step)
    requires !step.BeginUpload? && !step.Settle?
    ensures SameVerdicts(s.uploads, Apply(s, step).uploads)
  {
    if IsMove(step) {
      MoveStep(s, step);
    } else {
      assert Apply(s, step).uploads == s.uploads;
    }
  }

  lemma OthersKeepExplained(s: State, step: Step, id: SessionId, f: FileId)
    requires Core(s) && AllExplained(s) && !step.BeginUpload? && !step.Settle?
    requires var t := Apply(s, step); id in t.requests && WasServed(t.requests[id].phase) && f in FilesOf(t, id)
    ensures var t := Apply(s, step); Explained(t.uploads, id, f, FilesOf(t, id)[f])
  {
    var t := Apply(s, step);
    OthersSettleNothing(s, step);
    if id in s.requests && WasServed(s.requests[id].phase) {
      FilesOfKept(s, step, id);
      assert Explained(s.uploads, id, f, FilesOf(s, id)[f]);
    } else {
      UntouchedWhenInstalled(s, step, id);
      NoTries(s.uploads, id, f);
      assert Explained(s.uploads, id, f, FilesOf(t, id)[f]);
    }
    ExplainedStill(s.uploads, t.uploads, id, f, FilesOf(t, id)[f]);
  }

  /** A further upload of a pending file, whose latest one was a mismatch. */
  lemma ExplainedAgain(uploads: seq<Upload>, id: SessionId, f: FileId, file: SessionFile)
    requires Explained(uploads, id, f, file) && file.status.Pending? && FileSound(file)
    ensures Explained(uploads + [Upload(id, f, Posting)], id, f, StartedFile(file))
  {
    var more := uploads + [Upload(id, f, Posting)];
    assert more[..|uploads|] == uploads;
    forall u | 0 <= u < |uploads| && IsOfFile(uploads[u], id, f) ensures uploads[u].phase == Settled(HashMismatch) {
    }
    forall u | 0 <= u < |more| && IsOfFile(more[u], id, f)
      ensures IsLatest(more, u, id, f) <==> u == |uploads|
    {
      assert IsOfFile(more[|uploads|], id, f);
    }
  }

  lemma ExplainedBeside(uploads: seq<Upload>, other: Upload, id: SessionId, f: FileId, file: SessionFile)
    requires Explained(uploads, id, f, file) && !IsOfFile(other, id, f)
    ensures Explained(uploads + [other], id, f, file)
  {
    var more := uploads + [other];
    assert more[..|uploads|] == uploads;
    forall u | 0 <= u < |uploads| && IsOfFile(uploads[u], id, f)
      ensures IsLatest(more, u, id, f) <==> IsLatest(uploads, u, id, f)
    {
      assert forall v :: u < v < |uploads| ==> more[v] == uploads[v];
    }
  }

  lemma BeginKeepsExplained(s: State, step: Step, id: SessionId, f: FileId)
    requires Core(s) && AllExplained(s) && step.BeginUpload?
    requires var t := Apply(s, step); id in t.requests && WasServed(t.requests[id].phase) && f in FilesOf(t, id)
    ensures var t := Apply(s, step); Explained(t.uploads, id, f, FilesOf(t, id)[f])
  {
    var t := Apply(s, step);
    assert Explained(s.uploads, id, f, FilesOf(s, id)[f]);
    if t != s {
      if id == step.id && f == step.file {
        ExplainedAgain(s.uploads, id, f, FilesOf(s, id)[f]);
      } else {
        ExplainedBeside(s.uploads, Upload(step.id, step.file, Posting), id, f, FilesOf(s, id)[f]);
      }
    }
  }

  /** The latest upload of a file in progress is settled. */
  lemma ExplainedAnew(uploads: seq<Upload>, u: nat, result: SaveResult, file: SessionFile)
    requires u < |uploads| && IsLatest(uploads, u, uploads[u].id, uploads[u].file)
    requires Explained(uploads, uploads[u].id, uploads[u].file, file) && file.status.InProgress? && FileSound(file)
    ensures Explained(uploads[u := uploads[u].(phase := Settled(result))], uploads[u].id, uploads[u].file, SettledFile(file, result))
  {
    var id, f := uploads[u].id, uploads[u].file;
    var after := uploads[u := uploads[u].(phase := Settled(result))];
    TriesDependOnFiles(uploads, after, id, f);
    forall v | 0 <= v < |after| && IsOfFile(after[v], id, f)
      ensures IsLatest(after, v, id, f) <==> v == u
      ensures v != u ==> after[v].phase == Settled(HashMismatch)
    {
      assert IsOfFile(uploads[v], id, f) && IsOfFile(after[u], id, f);
    }
  }

  lemma SettlesOtherFile(uploads: seq<Upload>, u: nat, phase: UploadPhase, id: SessionId, f: FileId, file: SessionFile)
    requires u < |uploads| && Explained(uploads, id, f, file)
    requires !IsOfFile(uploads[u], id, f) || (!uploads[u].phase.Settled? && !phase.Settled?)
    ensures Explained(uploads[u := uploads[u].(phase := phase)], id, f, file)
  {
    var after := uploads[u := uploads[u].(phase := phase)];
    TriesDependOnFiles(uploads, after, id, f);
    forall v | 0 <= v < |after| && IsOfFile(after[v], id, f)
      ensures IsLatest(after, v, id, f) <==> IsLatest(uploads, v, id, f)
      ensures v != u ==> after[v] == uploads[v]
    {
      assert forall w :: 0 <= w < |after| ==> (IsOfFile(after[w], id, f) <==> IsOfFile(uploads[w], id, f));
    }
  }

  /** What settling does to the uploads and to the files of its session. */
  lemma SettleEffect(s: State, u: nat, id: SessionId)
    requires Core(s) && id in s.requests && WasServed(s.requests[id].phase)
    requires u < |s.uploads| && (s.uploads[u].phase.Finishing? || s.uploads[u].phase.Orphaned?)
    ensures var t := DoSettle(s, u); var up := s.uploads[u];
      && id in t.requests && WasServed(t.requests[id].phase)
      && if Serves(s.slot, up.id) then
           var result := if up.phase.Finishing? then up.phase.result else NotSaved;
           && t.uploads == s.uploads[u := up.(phase := Settled(result))]
           && FilesOf(t, id) == if id == up.id then SettledFiles(s.slot.files, up.file, result) else FilesOf(s, id)
         else t.uploads == s.uploads[u := up.(phase := Stale)] && FilesOf(t, id) == FilesOf(s, id)
  {
  }

  lemma SettleKeepsExplained(s: State, u: nat, id: SessionId, f: FileId)
    requires Core(s) && AllExplained(s)
    requires u < |s.uploads| && (s.uploads[u].phase.Finishing? || s.uploads[u].phase.Orphaned?)
    requires id in s.requests && WasServed(s.requests[id].phase) && f in FilesOf(s, id)
    ensures var t := DoSettle(s, u);
      && id in t.requests && WasServed(t.requests[id].phase) && FilesOf(t, id).Keys == FilesOf(s, id).Keys
      && Explained(t.uploads, id, f, FilesOf(t, id)[f])
  {
    var up := s.uploads[u];
    var file := FilesOf(s, id)[f];
    SettleEffect(s, u, id);
    assert Explained(s.uploads, id, f, file);
    if !Serves(s.slot, up.id) {
      SettlesOtherFile(s.uploads, u, Stale, id, f, file);
    } else {
      var result := if up.phase.Finishing? then up.phase.result else NotSaved;
      if IsOfFile(up, id, f) {
        assert forall v :: u < v < |s.uploads| ==> !SameFile(s.uploads[u], s.uploads[v]);
        ExplainedAnew(s.uploads, u, result, file);
      } else {
        SettlesOtherFile(s.uploads, u, Settled(result), id, f, file);
      }
    }
  }

  lemma StepKeepsExplained(s: State, step: Step)
    requires Core(s) && AllExplained(s)
    ensures AllExplained(Apply(s, step))
  {
    var t := Apply(s, step);
    forall id, f | id in t.requests && WasServed(t.requests[id].phase) && f in FilesOf(t, id)
      ensures Explained(t.uploads, id, f, FilesOf(t, id)[f])
    {
      if step.BeginUpload? {
        BeginKeepsExplained(s, step, id, f);
      } else if !step.Settle? {
        OthersKeepExplained(s, step, id, f);
      } else if t == s {
        assert Explained(s.uploads, id, f, FilesOf(s, id)[f]);
      } else {
        SettledBefore(s, step.upload, id, f);
        SettleKeepsExplained(s, step.upload, id, f);
      }
    }
  }

  lemma SettledBefore(s: State, u: nat, id: SessionId, f: FileId)
    requires Core(s) && DoSettle(s, u) != s
    requires var t := DoSettle(s, u); id in t.requests && WasServed(t.requests[id].phase) && f in FilesOf(t, id)
    ensures u < |s.uploads| && (s.uploads[u].phase.Finishing? || s.uploads[u].phase.Orphaned?)
    ensures id in s.requests && WasServed(s.requests[id].phase) && f in FilesOf(s, id)
  {
  }

  lemma {:induction false} RunExplains(steps: seq<Step>)
    ensures AllExplained(Run(steps))
  {
    if steps != [] {
      RunExplains(steps[..|steps| - 1]);
      Reachable(steps[..|steps| - 1]);
      StepKeepsExplained(Run(steps[..|steps| - 1]), steps[|steps| - 1]);
    }
  }

  lemma {:induction false} LatestExists(uploads: seq<Upload>, id: SessionId, f: FileId) returns (u: int)
    requires Tries(uploads, id, f) > 0
    ensures IsLatest(uploads, u, id, f)
  {
    if IsOfFile(uploads[|uploads| - 1], id, f) {
      u := |uploads| - 1;
    } else {
      u := LatestExists(uploads[..|uploads| - 1], id, f);
    }
  }

  ghost predicate WasSaved(uploads: seq<Upload>, id: SessionId, f: FileId) {
    exists u :: 0 <= u < |uploads| && IsOfFile(uploads[u], id, f) && uploads[u].phase == Settled(Saved)
  }

  /** The latest upload of the file settled with `result`. */
  ghost predicate LatestEnded(uploads: seq<Upload>, id: SessionId, f: FileId, result: SaveResult) {
    exists u :: IsLatest(uploads, u, id, f) && uploads[u].phase == Settled(result)
  }

  /** The latest upload of the file has not settled, or found its session gone. */
  ghost predicate LatestRuns(uploads: seq<Upload>, id: SessionId, f: FileId) {
    exists u :: IsLatest(uploads, u, id, f) && !uploads[u].phase.Settled?
  }

  lemma UntriedIsPending(uploads: seq<Upload>, id: SessionId, f: FileId, file: SessionFile)
    requires Explained(uploads, id, f, file) && file.attempts == 0
    ensures file.status.Pending? && !WasSaved(uploads, id, f) && !LatestRuns(uploads, id, f)
    ensures forall result :: !LatestEnded(uploads, id, f, result)
  {
    NoTries(uploads, id, f);
  }

  lemma TriedIsAsTheLatest(uploads: seq<Upload>, id: SessionId, f: FileId, file: SessionFile) returns (phase: UploadPhase)
    requires Explained(uploads, id, f, file) && file.attempts > 0
    ensures Explains(phase, file)
    ensures WasSaved(uploads, id, f) <==> phase == Settled(Saved)
    ensures LatestRuns(uploads, id, f) <==> !phase.Settled?
    ensures forall result :: LatestEnded(uploads, id, f, result) <==> phase == Settled(result)
  {
    var u := LatestExists(uploads, id, f);
    LatestDecides(uploads, u, id, f, file);
    phase := uploads[u].phase;
  }

  /** What the uploads of a file say about it. */
  ghost predicate DecidedByUploads(uploads: seq<Upload>, id: SessionId, f: FileId, file: SessionFile) {
    && file.attempts == Tries(uploads, id, f) <= 3
    && (file.status.Finished? <==> WasSaved(uploads, id, f))
    && (file.status.Failed? <==>
          LatestEnded(uploads, id, f, NotSaved) || (LatestEnded(uploads, id, f, HashMismatch) && file.attempts == 3))
    && (file.status.Pending? <==>
          file.attempts == 0 || (LatestEnded(uploads, id, f, HashMismatch) && file.attempts < 3))
    && (file.status.InProgress? <==> LatestRuns(uploads, id, f))
  }

  lemma ExplainedIsDecided(uploads: seq<Upload>, id: SessionId, f: FileId, file: SessionFile)
    requires Explained(uploads, id, f, file) && file.attempts <= 3
    ensures DecidedByUploads(uploads, id, f, file)
  {
    if file.attempts > 0 {
      var phase := TriedIsAsTheLatest(uploads, id, f, file);
    } else {
      UntriedIsPending(uploads, id, f, file);
    }
  }

  lemma AttemptsAreFew(s: State, id: SessionId, f: FileId)
    requires Core(s) && id in s.requests && WasServed(s.requests[id].phase) && f in FilesOf(s, id)
    ensures FilesOf(s, id)[f].attempts <= 3
  {
  }

  /**
   In every run, what becomes of a file of a session is decided by its uploads: finished if
   and only if one of them was saved, failed if and only if the latest one was not saved or
   was the third mismatch, pending again after a first or second mismatch, and in progress
   for as long as the latest one is not settled.
   */
  lemma StatusIsTheLatestUpload(steps: seq<Step>, id: SessionId, f: FileId)
    requires id in Run(steps).requests && WasServed(Run(steps).requests[id].phase) && f in FilesOf(Run(steps), id)
    ensures DecidedByUploads(Run(steps).uploads, id, f, FilesOf(Run(steps), id)[f])
  {
    RunExplains(steps);
    Reachable(steps);
    AttemptsAreFew(Run(steps), id, f);
    ExplainedIsDecided(Run(steps).uploads, id, f, FilesOf(Run(steps), id)[f]);
  }

  lemma LatestDecides(uploads: seq<Upload>, u: int, id: SessionId, f: FileId, file: SessionFile)
    requires IsLatest(uploads, u, id, f) && Explained(uploads, id, f, file) && file.attempts > 0
    ensures Explains(uploads[u].phase, file)
    ensures forall v :: IsLatest(uploads, v, id, f) ==> v == u
    ensures forall v :: 0 <= v < |uploads| && IsOfFile(uploads[v], id, f) && v != u ==> uploads[v].phase == Settled(HashMismatch)
  {
    forall v | 0 <= v < |uploads| && IsOfFile(uploads[v], id, f) && v != u
      ensures !IsLatest(uploads, v, id, f)
    {
      assert IsOfFile(uploads[u], id, f);
    }
  }

  // ---------------------------------------------------------------------------
  // The result an upload settles with
  // ---------------------------------------------------------------------------

  /** Step `step` ends the handler of an upload that was in `phase`, with `result`. */
  predicate EndsWith(phase: UploadPhase, step: Step, u: nat, result: SaveResult) {
    || (step == FinishSave(u, result) && phase.Saving?)
    || (step == FailUpload(u) && result.NotSaved? && (phase.Posting? || phase.AwaitingTarget?))
    || (step == DropUpload(u) && result.NotSaved? && (phase.Posting? || phase.AwaitingTarget? || phase.Saving?))
  }

  ghost predicate EndedAt(steps: seq<Step>, i: nat, u: nat, result: SaveResult) {
    && i < |steps| && u < |Run(steps[..i]).uploads|
    && EndsWith(Run(steps[..i]).uploads[u].phase, steps[i], u, result)
  }

  /** Where an upload can be that ended with `result`. */
  predicate HasResult(phase: UploadPhase, result: SaveResult) {
    match phase
    case Finishing(r) => r == result
    case Settled(r) => r == result
    case Orphaned => result.NotSaved?
    case Stale => true
    case Lost => true
    case _ => false
  }

  lemma EndsNow(s: State, step: Step, u: nat, result: SaveResult)
    requires u < |s.uploads| && EndsWith(s.uploads[u].phase, step, u, result)
    ensures u < |Apply(s, step).uploads| && HasResult(Apply(s, step).uploads[u].phase, result)
  {
  }

  lemma ResultKept(s: State, step: Step, u: nat, result: SaveResult)
    requires u < |s.uploads| && HasResult(s.uploads[u].phase, result)
    ensures u < |Apply(s, step).uploads| && HasResult(Apply(s, step).uploads[u].phase, result)
  {
    if !IsUploadMove(step) && !step.Settle? && !step.BeginUpload? {
      assert Apply(s, step).uploads == s.uploads;
    }
  }

  /** An upload leaves its handler only by such a step. */
  lemma EndsOnlySo(s: State, step: Step, u: nat)
    requires u < |s.uploads| && UploadGuardArmed(s.uploads[u].phase)
    requires u < |Apply(s, step).uploads| && !UploadGuardArmed(Apply(s, step).uploads[u].phase)
    ensures exists result :: EndsWith(s.uploads[u].phase, step, u, result)
  {
    assert EndsWith(s.uploads[u].phase, step, u, if step.FinishSave? then step.result else NotSaved);
  }

  lemma {:induction false} EndedKeepsResult(steps: seq<Step>, i: nat, u: nat, result: SaveResult)
    requires EndedAt(steps, i, u, result)
    ensures u < |Run(steps).uploads| && HasResult(Run(steps).uploads[u].phase, result)
  {
    var front := steps[..|steps| - 1];
    if i == |steps| - 1 {
      EndsNow(Run(front), steps[i], u, result);
    } else {
      assert front[..i] == steps[..i];
      EndedKeepsResult(front, i, u, result);
      ResultKept(Run(front), steps[|steps| - 1], u, result);
    }
  }

  lemma {:induction false} EveryEndIsAStep(steps: seq<Step>, u: nat) returns (i: nat, result: SaveResult)
    requires u < |Run(steps).uploads| && !UploadGuardArmed(Run(steps).uploads[u].phase)
    ensures EndedAt(steps, i, u, result)
  {
    var front, last := steps[..|steps| - 1], steps[|steps| - 1];
    var s := Run(front);
    StepFramesUploads(s, last);
    if u < |s.uploads| && !UploadGuardArmed(s.uploads[u].phase) {
      i, result := EveryEndIsAStep(front, u);
      assert steps[..i] == front[..i];
    } else {
      BegunIsArmed(s, last, u);
      EndsOnlySo(s, last, u);
      result :| EndsWith(s.uploads[u].phase, last, u, result);
      i := |steps| - 1;
    }
  }

  lemma BegunIsArmed(s: State, step: Step, u: nat)
    requires u < |Apply(s, step).uploads| && !UploadGuardArmed(Apply(s, step).uploads[u].phase)
    ensures u < |s.uploads|
  {
    StepFramesUploads(s, step);
  }

  /**
   In every run an upload settles with the result its handler ended with: what saving gave,
   or failure if it got no target or was dropped, even in the middle of saving.
   */
  lemma SettlesAsItEnded(steps: seq<Step>, u: nat, result: SaveResult)
    requires u < |Run(steps).uploads| && Run(steps).uploads[u].phase.Settled?
    ensures Run(steps).uploads[u].phase == Settled(result) <==> exists i: nat :: EndedAt(steps, i, u, result)
  {
    var i, r := EveryEndIsAStep(steps, u);
    EndedKeepsResult(steps, i, u, r);
    if j: nat :| EndedAt(steps, j, u, result) {
      EndedKeepsResult(steps, j, u, result);
    }
  }
}
