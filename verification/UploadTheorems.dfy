/** The guarantees of the upload server, over every run. */
module UploadTheorems {
  import opened UploadSession
  import opened UploadServer
  import opened UploadInvariants
  import opened UploadHistory
  import opened UploadEvents
  import opened UploadQueue

  // ---------------------------------------------------------------------------
  // The slot
  // ---------------------------------------------------------------------------

  /**
   A request whose guard is armed, whose cleanup is queued, or that is about to
   clear the slot owns it; and a pending slot has such an owner unless the owner
   was dropped inside `clear`.
   */
  lemma PendingSlotHasOneOwner(steps: seq<Step>, id: SessionId)
    ensures var s := Run(steps);
      id in s.requests ==>
        (OwnsPending(s.requests[id].phase) <==> s.slot == PendingSession(id, s.requests[id].sender))
    ensures var s := Run(steps);
      s.slot.PendingSession? ==> s.slot.id in s.requests && OwnsPending(s.requests[s.slot.id].phase)
  {
    Reachable(steps);
  }

  /** The steps that may take a pending slot from `id`: its own. */
  predicate IsOwnRelease(step: Step, id: SessionId) {
    step == ClearPending(id) || step == Reclaim(id) || step == Install(id)
  }

  /** The steps that may take the active slot from `id`. */
  ghost predicate IsSessionEnd(s: State, step: Step, id: SessionId)
    requires s.slot.ActiveSession?
  {
    || (step.CancelActive? && step.id == id && step.sender == s.slot.sender)
    || step == Withdraw(id)
    || (step.Settle? && step.upload < |s.uploads| && s.uploads[step.upload].id == id)
  }

  /**
   The id-blind `clear_pending_session` and the unconditional install never
   destroy the session of another request, under any interleaving and any drops.
   */
  lemma SlotIsTakenByItsOwnerOnly(steps: seq<Step>, step: Step)
    requires var s := Run(steps); !s.slot.NoSession?
    ensures var s, t := Run(steps), Run(steps + [step]);
      && (s.slot.PendingSession? && t.slot != s.slot ==> IsOwnRelease(step, s.slot.id))
      && (s.slot.ActiveSession? && !Serves(t.slot, s.slot.id) ==>
            t.slot.NoSession? && Run(steps).slot.ActiveSession? && IsSessionEnd(s, step, s.slot.id))
  {
    Reachable(steps);
    assert (steps + [step])[..|steps|] == steps;
    OwnerStep(Run(steps), step);
  }

  lemma OwnerStep(s: State, step: Step)
    requires SlotOwned(s)
    ensures s.slot.PendingSession? && Apply(s, step).slot != s.slot ==> IsOwnRelease(step, s.slot.id)
    ensures s.slot.ActiveSession? && !Serves(Apply(s, step).slot, s.slot.id) ==>
              Apply(s, step).slot.NoSession? && IsSessionEnd(s, step, s.slot.id)
  {
    if IsMove(step) {
      MoveStep(s, step);
    }
  }

  /** A request dropped inside `clear` stays where it is for good. */
  lemma LeakedStays(s: State, step: Step, id: SessionId)
    requires SlotOwned(s) && InPhase(s, id, Leaked)
    ensures InPhase(Apply(s, step), id, Leaked)
  {
  }

  lemma {:induction false} LeakedForever(s: State, more: seq<Step>, id: SessionId)
    requires Inv(s) && InPhase(s, id, Leaked)
    ensures InPhase(RunFrom(s, more), id, Leaked)
  {
    if more != [] {
      RunKeepsInv(s, more[..|more| - 1]);
      LeakedForever(s, more[..|more| - 1], id);
      LeakedStays(RunFrom(s, more[..|more| - 1]), more[|more| - 1], id);
    }
  }

  ghost predicate CanBeFreed(s: State) {
    exists more: seq<Step> :: RunFrom(s, more).slot.NoSession?
  }

  lemma OneStep(s: State, step: Step)
    ensures RunFrom(s, [step]) == Apply(s, step)
  {
    assert [step][..0] == [];
    assert RunFrom(s, [step][..0]) == s;
  }

  /**
   A pending slot can be freed again if and only if its request was not dropped
   while `clear` waited for the lock. In that case every later prepare-upload is
   refused: no step of any task frees the slot.
   */
  lemma PendingSlotFreedIffNotLeaked(steps: seq<Step>)
    requires Run(steps).slot.PendingSession?
    ensures var s := Run(steps);
      s.slot.id in s.requests && (CanBeFreed(s) <==> !s.requests[s.slot.id].phase.Leaked?)
  {
    Reachable(steps);
    var s := Run(steps);
    var id := s.slot.id;
    if s.requests[id].phase.Leaked? {
      forall more: seq<Step> ensures !RunFrom(s, more).slot.NoSession? {
        RunKeepsInv(s, more);
        LeakedForever(s, more, id);
      }
    } else if s.requests[id].phase.Clearing? {
      OneStep(s, ClearPending(id));
      assert RunFrom(s, [ClearPending(id)]).slot.NoSession?;
    } else {
      var t := DoDropPrepare(s, id);
      OneStep(s, DropPrepare(id));
      OneStep(t, Reclaim(id));
      RunAppend(s, [DropPrepare(id)], [Reclaim(id)]);
      assert RunFrom(s, [DropPrepare(id)] + [Reclaim(id)]).slot.NoSession?;
    }
  }

  /** The leak does happen: the sender disconnects while the declined request waits for the lock. */
  lemma SlotCanLeak(tokens: FileId -> Token)
    ensures exists steps: seq<Step> :: Run(steps).slot.PendingSession? && !CanBeFreed(Run(steps))
  {
    var steps := RequestWaits();
    steps := Extend(steps, Decide(0, Decline, tokens));
    steps := Extend(steps, DropClear(0));
    PendingSlotFreedIffNotLeaked(steps);
  }

  /** A run to a request that waits for its decision. */
  lemma RequestWaits() returns (steps: seq<Step>)
    ensures Run(steps) == State(PendingSession(0, 7), map[0 := Request(7, {1}, false, Deciding)], [], [PrepareUpload(0)])
  {
    steps := Extend([], ClaimSlot(0, 7, {1}));
    assert Run(steps) == State(PendingSession(0, 7), map[0 := Request(7, {1}, false, Announcing)], [], []);
    steps := Extend(steps, AnnouncePrepare(0));
  }

  lemma Extend(steps: seq<Step>, step: Step) returns (longer: seq<Step>)
    ensures longer == steps + [step] && Run(longer) == Apply(Run(steps), step)
  {
    longer := steps + [step];
    assert longer[..|steps|] == steps;
  }

  // ---------------------------------------------------------------------------
  // Uploads
  // ---------------------------------------------------------------------------

  /**
   Two outstanding uploads never share a file, and a file of the active session
   is in progress exactly while an upload of it is outstanding.
   */
  lemma UploadOwnsItsFile(steps: seq<Step>)
    ensures var s := Run(steps);
      && (forall u, v :: 0 <= u < |s.uploads| && 0 <= v < |s.uploads| && u != v
                        && Occupies(s.uploads[u].phase) && Occupies(s.uploads[v].phase)
              ==> !SameFile(s.uploads[u], s.uploads[v]))
      && (s.slot.ActiveSession? ==>
            forall f :: f in s.slot.files ==>
              (s.slot.files[f].status.InProgress? <==> HasUpload(s, s.slot.id, f)))
  {
    Reachable(steps);
    var s := Run(steps);
    forall u, v | 0 <= u < |s.uploads| && 0 <= v < |s.uploads| && u != v
        && Occupies(s.uploads[u].phase) && Occupies(s.uploads[v].phase)
      ensures !SameFile(s.uploads[u], s.uploads[v])
    {
      assert !SameFile(s.uploads[if u < v then u else v], s.uploads[if u < v then v else u]);
    }
  }

  /** `finalize_file` settles its own attempt, or changes nothing because its session is over. */
  lemma FinalizeSettlesItsOwnAttempt(steps: seq<Step>, u: nat)
    requires u < |Run(steps).uploads|
    requires Run(steps).uploads[u].phase.Finishing? || Run(steps).uploads[u].phase.Orphaned?
    ensures var s := Run(steps); var up := s.uploads[u];
      if Serves(s.slot, up.id) then
        && up.file in s.slot.files
        && s.slot.files[up.file].status.InProgress?
        && forall v :: 0 <= v < |s.uploads| && SameFile(s.uploads[v], up) ==> v <= u
      else DoSettle(s, u) == WithUpload(s, u, Stale)
  {
    Reachable(steps);
    var s := Run(steps);
    assert forall v :: u < v < |s.uploads| ==> !SameFile(s.uploads[u], s.uploads[v]);
  }

  // ---------------------------------------------------------------------------
  // Ending a session
  // ---------------------------------------------------------------------------

  /** An active session always has a file that is not final yet. */
  lemma ActiveSessionIsNeverComplete(steps: seq<Step>)
    requires Run(steps).slot.ActiveSession?
    ensures exists f :: f in Run(steps).slot.files && !IsFinal(Run(steps).slot.files[f].status)
  {
    Reachable(steps);
  }

  /**
   A session that left the slot finished exactly when all its accepted files had
   reached a final state; `SessionEnd(Finished)` is only queued for such a session,
   and no upload of it is left that could still queue a `FileUpload`.
   */
  lemma FinishedMeansComplete(steps: seq<Step>, id: SessionId)
    requires id in Run(steps).requests && HasLeftSlot(Run(steps).requests[id].phase)
    ensures var s := Run(steps); var p := s.requests[id].phase;
      && (LeftAs(p, SessionFinished) <==> IsComplete(p.files))
      && (SessionEnd(id, SessionFinished) in s.log <==> LeftAs(p, SessionFinished) && p.Ended? && p.reported)
      && (SessionEnd(id, SessionCancelled) in s.log <==> LeftAs(p, SessionCancelled) && p.Ended? && p.reported)
      && (LeftAs(p, SessionFinished) ==>
            forall u :: 0 <= u < |s.uploads| && s.uploads[u].id == id ==> !Occupies(s.uploads[u].phase))
  {
    Reachable(steps);
    assert Told(Run(steps), id);
    StoryMeaning(Run(steps).log, id);
    TerminalIsInLog(Run(steps).log, id);
  }

  lemma {:induction false} TerminalIsInLog(log: seq<Event>, id: SessionId)
    ensures StoryOf(log, id).Completed? ==> SessionEnd(id, SessionFinished) in log
    ensures StoryOf(log, id).Abandoned? ==> SessionEnd(id, SessionCancelled) in log
  {
    if log != [] {
      TerminalIsInLog(log[..|log| - 1], id);
    }
  }

  /** The event grammar of every session, over every run. */
  lemma EventsAreOrdered(steps: seq<Step>, id: SessionId)
    ensures Ordered(Run(steps).log, id)
  {
    Reachable(steps);
    assert Told(Run(steps), id);
    StoryMeaning(Run(steps).log, id);
  }

  /**
   The one event that can follow a terminal one: an upload that began before the
   sender cancelled the session still announces itself to the application.
   */
  lemma FileUploadCanFollowTheCancel(tokens: FileId -> Token)
    ensures exists steps: seq<Step> :: exists i, j ::
              && 0 <= i < j < |Run(steps).log|
              && Run(steps).log[i] == SessionEnd(0, SessionCancelled)
              && Run(steps).log[j] == FileUpload(0, 1, 0)
  {
    var steps := SessionWithUpload(tokens);
    steps := Extend(steps, CancelActive(7, 0));
    steps := Extend(steps, ReportEnd(0, true));
    steps := Extend(steps, PostUpload(0));
    assert Run(steps).log[1] == SessionEnd(0, SessionCancelled) && Run(steps).log[2] == FileUpload(0, 1, 0);
  }

  /** A run to a session whose only file is about to be announced. */
  lemma SessionWithUpload(tokens: FileId -> Token) returns (steps: seq<Step>)
    ensures Run(steps) == State(
              ActiveSession(0, 7, map[1 := SessionFile(tokens(1), InProgress, 1)]),
              map[0 := Request(7, {1}, false, Serving)],
              [Upload(0, 1, Posting)],
              [PrepareUpload(0)])
  {
    steps := SessionAccepted(tokens);
    steps := Extend(steps, BeginUpload(0, 7, 1, tokens(1)));
    assert Run(steps).slot.files == map[1 := SessionFile(tokens(1), InProgress, 1)];
  }

  lemma SessionAccepted(tokens: FileId -> Token) returns (steps: seq<Step>)
    ensures Run(steps) == State(
              ActiveSession(0, 7, map[1 := SessionFile(tokens(1), Pending, 0)]),
              map[0 := Request(7, {1}, false, Serving)], [], [PrepareUpload(0)])
  {
    var files := map[1 := SessionFile(tokens(1), Pending, 0)];
    steps := RequestWaits();
    assert AcceptedFiles({1}, {1}, tokens) == files;
    assert 1 in files && files != map[];
    steps := Extend(steps, Decide(0, Accept({1}), tokens));
    assert Run(steps).requests == map[0 := Request(7, {1}, false, Installing(files))];
    steps := Extend(steps, Install(0));
  }

  /** `FileUpload` is only queued for a session that was active, and for a file it accepted. */
  lemma FileUploadsAreServed(steps: seq<Step>, i: nat)
    requires i < |Run(steps).log| && Run(steps).log[i].FileUpload?
    ensures var s := Run(steps); var e := s.log[i];
      && e.id in s.requests && WasServed(s.requests[e.id].phase)
      && e.file in FilesOf(s, e.id)
      && e.upload < |s.uploads| && s.uploads[e.upload].id == e.id && s.uploads[e.upload].file == e.file
  {
    Reachable(steps);
  }

  // ---------------------------------------------------------------------------
  // Retries
  // ---------------------------------------------------------------------------

  /**
   A session of n accepted files starts at most 3n uploads, all of accepted files;
   every file is within its attempts and succeeds at most once.
   */
  lemma RetriesAreBounded(steps: seq<Step>, id: SessionId)
    requires id in Run(steps).requests && WasServed(Run(steps).requests[id].phase)
    ensures var s := Run(steps);
      && Starts(s.uploads, id) <= MAX_UPLOAD_ATTEMPTS * |FilesOf(s, id)|
      && FilesSound(FilesOf(s, id))
      && (forall u :: 0 <= u < |s.uploads| && s.uploads[u].id == id ==> s.uploads[u].file in FilesOf(s, id))
      && (forall u, v :: 0 <= u < v < |s.uploads| && SameFile(s.uploads[u], s.uploads[v]) ==>
            !(s.uploads[u].phase == Settled(Saved) && s.uploads[v].phase == Settled(Saved)))
  {
    Reachable(steps);
    var s := Run(steps);
    assert FilesSound(FilesOf(s, id));
    TotalAtMost(FilesOf(s, id), AttemptsOf, MAX_UPLOAD_ATTEMPTS);
  }

  /** Every change to the files of an active session strictly lowers its rank, which starts at 6n. */
  lemma RankDecreases(steps: seq<Step>, step: Step)
    requires Run(steps).slot.ActiveSession? && Serves(Run(steps + [step]).slot, Run(steps).slot.id)
    ensures var before, after := Run(steps).slot.files, Run(steps + [step]).slot.files;
      && (after != before ==> Rank(after) < Rank(before))
      && Rank(before) <= 2 * MAX_UPLOAD_ATTEMPTS * |before|
  {
    assert (steps + [step])[..|steps|] == steps;
    Reachable(steps);
    var s := Run(steps);
    TotalAtMost(s.slot.files, StepsLeft, 2 * MAX_UPLOAD_ATTEMPTS);
    StepLowersRank(s, step);
  }

  /** An effective step on the active session either starts or settles exactly one of its files. */
  lemma StepLowersRank(s: State, step: Step)
    requires Core(s) && s.slot.ActiveSession? && Serves(Apply(s, step).slot, s.slot.id)
    ensures Apply(s, step).slot.files != s.slot.files ==> Rank(Apply(s, step).slot.files) < Rank(s.slot.files)
  {
    var t := Apply(s, step);
    if t.slot.files != s.slot.files {
      var f := ChangedFile(s, step);
      TotalUpdated(s.slot.files, StepsLeft, f, t.slot.files[f]);
    }
  }

  lemma ChangedFile(s: State, step: Step) returns (f: FileId)
    requires Core(s) && s.slot.ActiveSession? && Serves(Apply(s, step).slot, s.slot.id)
    requires Apply(s, step).slot.files != s.slot.files
    ensures f in s.slot.files && f in Apply(s, step).slot.files
    ensures Apply(s, step).slot.files == s.slot.files[f := Apply(s, step).slot.files[f]]
    ensures StepsLeft(Apply(s, step).slot.files[f]) < StepsLeft(s.slot.files[f])
  {
    if step.BeginUpload? {
      f := step.file;
    } else if step.Settle? {
      f := s.uploads[step.upload].file;
    } else {
      FilesStay(s, step);
      assert false;
    }
  }

  lemma FilesStay(s: State, step: Step)
    requires SlotOwned(s) && s.slot.ActiveSession? && Serves(Apply(s, step).slot, s.slot.id)
    requires !step.BeginUpload? && !step.Settle?
    ensures Apply(s, step).slot.files == s.slot.files
  {
    if IsMove(step) {
      MoveStep(s, step);
    } else {
      SlotEffect(s, step);
    }
  }

  // ---------------------------------------------------------------------------
  // A lost upload
  // ---------------------------------------------------------------------------

  ghost predicate HasLostUpload(s: State, id: SessionId) {
    exists u :: 0 <= u < |s.uploads| && s.uploads[u].id == id && s.uploads[u].phase.Lost?
  }

  ghost predicate CanFinish(s: State, id: SessionId) {
    exists more: seq<Step> ::
      var t := RunFrom(s, more); id in t.requests && LeftAs(t.requests[id].phase, SessionFinished)
  }

  lemma LostStays(s: State, step: Step, u: nat)
    requires UploadIn(s, u, Lost)
    ensures UploadIn(Apply(s, step), u, Lost) && SameFile(Apply(s, step).uploads[u], s.uploads[u])
  {
  }

  lemma {:induction false} LostForever(s: State, more: seq<Step>, u: nat)
    requires UploadIn(s, u, Lost)
    ensures UploadIn(RunFrom(s, more), u, Lost) && SameFile(RunFrom(s, more).uploads[u], s.uploads[u])
  {
    if more != [] {
      LostForever(s, more[..|more| - 1], u);
      LostStays(RunFrom(s, more[..|more| - 1]), more[|more| - 1], u);
    }
  }

  /** One file further. */
  ghost predicate Progressed(s: State, t: State, id: SessionId) {
    && id in t.requests
    && (LeftAs(t.requests[id].phase, SessionFinished)
        || (Serves(s.slot, id) && Serves(t.slot, id) && Rank(t.slot.files) < Rank(s.slot.files) && !HasLostUpload(t, id)))
  }

  lemma StartPending(s: State, id: SessionId, f: FileId)
    requires Core(s) && Serves(s.slot, id) && !HasLostUpload(s, id)
    requires f in s.slot.files && s.slot.files[f].status.Pending?
    ensures Progressed(s, DoBeginUpload(s, id, s.slot.sender, f, s.slot.files[f].token), id)
  {
    var step := BeginUpload(id, s.slot.sender, f, s.slot.files[f].token);
    var t := Apply(s, step);
    assert t.slot.files[f].status.InProgress?;
    StepLowersRank(s, step);
    assert forall u :: 0 <= u < |s.uploads| ==> t.uploads[u] == s.uploads[u];
  }

  lemma SettleOutstanding(s: State, id: SessionId, u: nat)
    requires Core(s) && Serves(s.slot, id) && !HasLostUpload(s, id)
    requires u < |s.uploads| && s.uploads[u].id == id && (s.uploads[u].phase.Finishing? || s.uploads[u].phase.Orphaned?)
    ensures Progressed(s, DoSettle(s, u), id)
  {
    var t := DoSettle(s, u);
    var f := s.uploads[u].file;
    if Serves(t.slot, id) {
      assert t.slot.files[f] != s.slot.files[f];
      StepLowersRank(s, Settle(u));
    }
  }

  /** Steps that start a pending file, or settle an outstanding upload as failed. */
  lemma MakeProgress(s: State, id: SessionId) returns (more: seq<Step>)
    requires Core(s) && InProgressHasUpload(s) && Serves(s.slot, id) && !HasLostUpload(s, id)
    ensures Progressed(s, RunFrom(s, more), id)
  {
    var f :| f in s.slot.files && !IsFinal(s.slot.files[f].status);
    if s.slot.files[f].status.Pending? {
      more := [BeginUpload(id, s.slot.sender, f, s.slot.files[f].token)];
      OneStep(s, more[0]);
      StartPending(s, id, f);
    } else {
      assert HasUpload(s, id, f);
      var u :| 0 <= u < |s.uploads| && Occupies(s.uploads[u].phase) && s.uploads[u].id == id && s.uploads[u].file == f;
      more := SettleOne(s, id, u);
    }
  }

  lemma SettleOne(s: State, id: SessionId, u: nat) returns (more: seq<Step>)
    requires Core(s) && Serves(s.slot, id) && !HasLostUpload(s, id)
    requires u < |s.uploads| && s.uploads[u].id == id && Occupies(s.uploads[u].phase)
    ensures Progressed(s, RunFrom(s, more), id)
  {
    var t := DoDropUpload(s, u);
    if UploadGuardArmed(s.uploads[u].phase) {
      MoveUploadKeepsCore(s, u, Orphaned);
    }
    assert !s.uploads[u].phase.Lost?;
    DropLosesNothing(s, id, u);
    SettleOutstanding(t, id, u);
    more := [DropUpload(u)] + [Settle(u)];
    DropThenSettle(s, u);
  }

  lemma DropThenSettle(s: State, u: nat)
    ensures RunFrom(s, [DropUpload(u)] + [Settle(u)]) == DoSettle(DoDropUpload(s, u), u)
  {
    OneStep(s, DropUpload(u));
    OneStep(DoDropUpload(s, u), Settle(u));
    RunAppend(s, [DropUpload(u)], [Settle(u)]);
  }

  /** Dropping an upload whose guard is armed leaves a cleanup task. */
  lemma DropLosesNothing(s: State, id: SessionId, u: nat)
    requires !HasLostUpload(s, id)
    ensures !HasLostUpload(DoDropUpload(s, u), id)
  {
    assert forall v :: 0 <= v < |s.uploads| && DoDropUpload(s, u).uploads[v].phase.Lost? ==> s.uploads[v].phase.Lost?;
  }

  lemma {:induction false} FinishIsReachable(s: State, id: SessionId) returns (more: seq<Step>)
    requires Inv(s) && Serves(s.slot, id) && !HasLostUpload(s, id)
    ensures var t := RunFrom(s, more); id in t.requests && LeftAs(t.requests[id].phase, SessionFinished)
    decreases Rank(s.slot.files)
  {
    more := MakeProgress(s, id);
    var t := RunFrom(s, more);
    if Serves(t.slot, id) {
      RunKeepsInv(s, more);
      var rest := FinishIsReachable(t, id);
      RunAppend(s, more, rest);
      more := more + rest;
    }
  }

  /**
   An active session can still end as finished if and only if none of its uploads
   was dropped while `finish` waited for the lock; otherwise it stays in the slot
   until the sender or the application cancels it.
   */
  lemma SessionCanFinishIffNoLostUpload(steps: seq<Step>)
    requires Run(steps).slot.ActiveSession?
    ensures CanFinish(Run(steps), Run(steps).slot.id) <==> !HasLostUpload(Run(steps), Run(steps).slot.id)
  {
    Reachable(steps);
    var s := Run(steps);
    var id := s.slot.id;
    if HasLostUpload(s, id) {
      var u :| 0 <= u < |s.uploads| && s.uploads[u].id == id && s.uploads[u].phase.Lost?;
      forall more: seq<Step>
        ensures var t := RunFrom(s, more); id in t.requests ==> !LeftAs(t.requests[id].phase, SessionFinished)
      {
        RunKeepsInv(s, more);
        LostForever(s, more, u);
      }
    } else {
      var more := FinishIsReachable(s, id);
    }
  }
}
