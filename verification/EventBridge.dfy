/**
 The event bridge between the upload server and the application
 (`packages/doorstep_isolates/rust/src/api/server.rs`): it takes the queued events
 one by one, keeps the reply channel of each event until the application answers,
 and must not throw away the channel of a request that is still waiting.

 A reply channel is identified by the request that waits on it: the session id for
 a prepare-upload, the number of the upload for a file upload.
 */
module EventBridge {
  import opened Wrappers
  import opened UploadSession
  import opened UploadServer
  import opened UploadInvariants
  import opened UploadEvents
  import opened UploadQueue

  type FileKey = (SessionId, FileId)

  /** Why a stored reply channel was dropped without an answer. */
  datatype Cause =
    | Replaced                       // a newer event of the same key took its place
    | RequestAborted                 // `PrepareUploadAborted`
    | SessionOver(reason: EndReason) // `SessionEnd`
    | ByApplication                  // the application failed the upload or cancelled the session

  /** What happened to a reply channel that left the bridge. */
  datatype Reply<T> = Sent(value: T) | Discarded(cause: Cause)

  datatype System = System(
    server: State,
    handled: nat,                            // events taken from the queue so far
    decision: Option<SessionId>,             // `pending_decision`
    replies: map<SessionId, Reply<Decision>>,
    targets: map<FileKey, nat>,              // `pending_uploads`
    targetReplies: map<nat, Reply<()>>
  )

  const START: System := System(INIT, 0, None, map[], map[], map[])

  datatype Action =
    | Serve(step: Step)
    | HandleEvent
    | RespondPrepareUpload(decision: Decision)
    | RespondFileUpload(key: FileKey, resolved: bool)   // whether exactly one target was provided
    | FailFileUpload(key: FileKey)
    | DropResponders(id: SessionId)                     // second half of `cancel_session`

  // ---------------------------------------------------------------------------
  // The bridge
  // ---------------------------------------------------------------------------

  function DiscardDecision(y: System, cause: Cause): System {
    match y.decision
    case None => y
    case Some(id) => y.(decision := None, replies := y.replies[id := Discarded(cause)])
  }

  function DiscardTarget(y: System, key: FileKey, cause: Cause): System {
    if key in y.targets
    then y.(targets := y.targets - {key}, targetReplies := y.targetReplies[y.targets[key] := Discarded(cause)])
    else y
  }

  /** The uploads of session `id` whose reply channel is stored. */
  function StoredUploads(y: System, id: SessionId): set<nat> {
    set key | key in y.targets && key.0 == id :: y.targets[key]
  }

  function DiscardSession(y: System, id: SessionId, cause: Cause): System {
    y.(targets := map key | key in y.targets && key.0 != id :: y.targets[key],
       targetReplies := y.targetReplies + map u | u in StoredUploads(y, id) :: Discarded(cause))
  }

  /** `handle_server_event`. */
  function Handled(y: System, e: Event): System {
    match e
    case PrepareUpload(id) => DiscardDecision(y, Replaced).(decision := Some(id))
    case FileUpload(id, f, u) =>
      var z := DiscardTarget(y, (id, f), Replaced);
      z.(targets := z.targets[(id, f) := u])
    case SessionEnd(id, reason) => DiscardSession(y, id, SessionOver(reason))
    case PrepareUploadAborted(id) => if y.decision == Some(id) then DiscardDecision(y, RequestAborted) else y
    case Register => y
    case CancelReceived(_) => y
  }

  /** Whether a request can take `step` with the replies it has got; the event queue stays open. */
  predicate Allowed(y: System, step: Step) {
    match step
    case Decide(id, decision, _) => id in y.replies && y.replies[id] == Sent(decision)
    case LoseDecision(id) => id in y.replies && y.replies[id].Discarded?
    case ReceiveTarget(u) => u in y.targetReplies && y.targetReplies[u].Sent?
    case FailUpload(u) => u in y.targetReplies && y.targetReplies[u].Discarded? && UploadIn(y.server, u, AwaitingTarget)
    case _ => true
  }

  function Act(y: System, action: Action): System {
    match action
    case Serve(step) => if Allowed(y, step) then y.(server := Apply(y.server, step)) else y
    case HandleEvent =>
      if y.handled < |y.server.log| then Handled(y, y.server.log[y.handled]).(handled := y.handled + 1) else y
    case RespondPrepareUpload(decision) =>
      (match y.decision
       case None => y
       case Some(id) => y.(decision := None, replies := y.replies[id := Sent(decision)]))
    case RespondFileUpload(key, resolved) =>
      if key !in y.targets then y
      else if resolved then y.(targets := y.targets - {key}, targetReplies := y.targetReplies[y.targets[key] := Sent(())])
      else DiscardTarget(y, key, ByApplication)
    case FailFileUpload(key) => DiscardTarget(y, key, ByApplication)
    case DropResponders(id) => DiscardSession(y, id, ByApplication)
  }

  function RunAll(actions: seq<Action>): System {
    if actions == [] then START else Act(RunAll(actions[..|actions| - 1]), actions[|actions| - 1])
  }

  // ---------------------------------------------------------------------------
  // The invariant
  // ---------------------------------------------------------------------------

  /** The `PrepareUpload` of `id` is among the first `n` events. */
  ghost predicate PreparedIn(log: seq<Event>, lo: int, hi: int, id: SessionId) {
    exists i :: 0 <= i < |log| && lo <= i < hi && log[i] == PrepareUpload(id)
  }

  /** The `FileUpload` of upload `u` is among the events at `lo..hi`. */
  ghost predicate PostedIn(log: seq<Event>, lo: int, hi: int, u: nat) {
    exists i :: 0 <= i < |log| && lo <= i < hi && log[i].FileUpload? && log[i].upload == u
  }

  /** The decision for `id` was sent, or can still be: its channel is stored or its event is queued. */
  ghost predicate DecisionPending(y: System, log: seq<Event>, id: SessionId) {
    if id in y.replies then y.replies[id].Sent?
    else y.decision == Some(id) || PreparedIn(log, y.handled, |log|, id)
  }

  ghost predicate DecisionsKept(y: System) {
    && (y.decision.Some? ==>
          y.decision.value !in y.replies && PreparedIn(y.server.log, 0, y.handled, y.decision.value))
    && (forall id :: id in y.replies ==> PreparedIn(y.server.log, 0, y.handled, id))
    && (forall id :: id in y.server.requests && y.server.requests[id].phase.Deciding? ==>
          DecisionPending(y, y.server.log, id))
  }

  /** An upload that lost its reply channel while waiting: the sender or the application ended its session. */
  predicate Excused(cause: Cause) {
    cause == ByApplication || cause == SessionOver(SessionCancelled)
  }

  ghost predicate StoredSound(y: System) {
    && (forall key :: key in y.targets ==>
          var u := y.targets[key];
          && u < |y.server.uploads| && key == KeyOf(y.server.uploads[u])
          && u !in y.targetReplies && PostedIn(y.server.log, 0, y.handled, u))
    && (forall u :: u in y.targetReplies ==> PostedIn(y.server.log, 0, y.handled, u))
  }

  ghost predicate TargetPending(y: System, log: seq<Event>, u: nat, key: FileKey) {
    if u in y.targetReplies then y.targetReplies[u].Discarded? ==> Excused(y.targetReplies[u].cause)
    else (key in y.targets && y.targets[key] == u) || PostedIn(log, y.handled, |log|, u)
  }

  function KeyOf(upload: Upload): FileKey {
    (upload.id, upload.file)
  }

  ghost predicate WaitingKept(y: System) {
    forall u :: 0 <= u < |y.server.uploads| && y.server.uploads[u].phase.AwaitingTarget? ==>
      TargetPending(y, y.server.log, u, KeyOf(y.server.uploads[u]))
  }

  ghost predicate BridgeInv(y: System) {
    && Inv(y.server) && y.handled <= |y.server.log|
    && DecisionsKept(y) && StoredSound(y) && WaitingKept(y)
  }

  // ---------------------------------------------------------------------------
  // Server steps
  // ---------------------------------------------------------------------------

  lemma LogOnlyGrows(s: State, step: Step)
    ensures |s.log| <= |Apply(s, step).log| && Apply(s, step).log[..|s.log|] == s.log
  {
  }

  lemma PreparedKept(log: seq<Event>, more: seq<Event>, lo: int, hi: int, id: SessionId)
    requires |log| <= |more| && more[..|log|] == log && PreparedIn(log, lo, hi, id)
    ensures forall to :: to >= hi ==> PreparedIn(more, lo, to, id)
  {
    var i :| 0 <= i < |log| && lo <= i < hi && log[i] == PrepareUpload(id);
    assert more[i] == more[..|log|][i];
  }

  lemma PostedKept(log: seq<Event>, more: seq<Event>, lo: int, hi: int, u: nat)
    requires |log| <= |more| && more[..|log|] == log && PostedIn(log, lo, hi, u)
    ensures forall to :: to >= hi ==> PostedIn(more, lo, to, u)
  {
    var i :| 0 <= i < |log| && lo <= i < hi && log[i].FileUpload? && log[i].upload == u;
    assert more[i] == more[..|log|][i];
  }

  /** A request starts waiting for a decision only by announcing itself. */
  lemma StartsDeciding(s: State, step: Step, id: SessionId)
    requires id in Apply(s, step).requests && Apply(s, step).requests[id].phase.Deciding?
    ensures (id in s.requests && s.requests[id].phase.Deciding?)
            || (InPhase(s, id, Announcing) && Apply(s, step).log == s.log + [PrepareUpload(id)])
  {
  }

  /** An upload starts waiting for a target only by posting its event. */
  lemma StartsAwaiting(s: State, step: Step, u: nat)
    requires u < |Apply(s, step).uploads| && Apply(s, step).uploads[u].phase.AwaitingTarget?
    ensures u < |s.uploads| && SameFile(s.uploads[u], Apply(s, step).uploads[u])
    ensures s.uploads[u].phase.AwaitingTarget?
            || (s.uploads[u].phase.Posting? && Apply(s, step).log == s.log + [FileUpload(s.uploads[u].id, s.uploads[u].file, u)])
  {
  }

  /** A request that has not announced itself has no `PrepareUpload` in the queue. */
  lemma AnnouncingIsUnprepared(s: State, id: SessionId, lo: int, hi: int)
    requires Told(s, id) && InPhase(s, id, Announcing)
    ensures !PreparedIn(s.log, lo, hi, id)
  {
    StoryMeaning(s.log, id);
    assert forall i :: 0 <= i < |s.log| ==> !Concerns(s.log[i], id);
  }

  lemma DecidingServed(y: System, step: Step, id: SessionId)
    requires BridgeInv(y)
    requires id in Apply(y.server, step).requests && Apply(y.server, step).requests[id].phase.Deciding?
    ensures DecisionPending(y, Apply(y.server, step).log, id)
  {
    var s := y.server;
    var log := Apply(s, step).log;
    StartsDeciding(s, step, id);
    if id in s.requests && s.requests[id].phase.Deciding? {
      assert DecisionPending(y, s.log, id);
      LogOnlyGrows(s, step);
      if PreparedIn(s.log, y.handled, |s.log|, id) {
        PreparedKept(s.log, log, y.handled, |s.log|, id);
      }
    } else {
      assert log[|s.log|] == PrepareUpload(id);
      AnnouncingIsUnprepared(s, id, 0, y.handled);
    }
  }

  lemma ServeKeepsDecisions(y: System, step: Step)
    requires BridgeInv(y)
    ensures DecisionsKept(y.(server := Apply(y.server, step)))
  {
    var s, t := y.server, Apply(y.server, step);
    LogOnlyGrows(s, step);
    forall id | PreparedIn(s.log, 0, y.handled, id) ensures PreparedIn(t.log, 0, y.handled, id) {
      PreparedKept(s.log, t.log, 0, y.handled, id);
    }
    forall id | id in t.requests && t.requests[id].phase.Deciding? ensures DecisionPending(y, t.log, id) {
      DecidingServed(y, step, id);
    }
  }

  lemma ServeKeepsStored(y: System, step: Step)
    requires StoredSound(y)
    ensures StoredSound(y.(server := Apply(y.server, step)))
  {
    var s, t := y.server, Apply(y.server, step);
    LogOnlyGrows(s, step);
    forall u | PostedIn(s.log, 0, y.handled, u) ensures PostedIn(t.log, 0, y.handled, u) {
      PostedKept(s.log, t.log, 0, y.handled, u);
    }
    UploadsKeepFiles(s, step);
  }

  lemma WaitingServed(y: System, step: Step, u: nat)
    requires StoredSound(y) && WaitingKept(y) && PostsKnown(y.server) && y.handled <= |y.server.log|
    requires u < |Apply(y.server, step).uploads| && Apply(y.server, step).uploads[u].phase.AwaitingTarget?
    ensures TargetPending(y, Apply(y.server, step).log, u, KeyOf(Apply(y.server, step).uploads[u]))
  {
    var s, log := y.server, Apply(y.server, step).log;
    LogOnlyGrows(s, step);
    StartsAwaiting(s, step, u);
    if s.uploads[u].phase.AwaitingTarget? {
      assert TargetPending(y, s.log, u, KeyOf(s.uploads[u]));
      if PostedIn(s.log, y.handled, |s.log|, u) {
        PostedKept(s.log, log, y.handled, |s.log|, u);
      }
    } else {
      assert log[|s.log|].upload == u;
      assert !PostedIn(s.log, 0, y.handled, u);
    }
  }

  lemma ServeKeepsTargets(y: System, step: Step)
    requires BridgeInv(y)
    ensures StoredSound(y.(server := Apply(y.server, step))) && WaitingKept(y.(server := Apply(y.server, step)))
  {
    ServeKeepsStored(y, step);
    var t := Apply(y.server, step);
    forall u | 0 <= u < |t.uploads| && t.uploads[u].phase.AwaitingTarget?
      ensures TargetPending(y, t.log, u, KeyOf(t.uploads[u]))
    {
      WaitingServed(y, step, u);
    }
  }

  lemma UploadsKeepFiles(s: State, step: Step)
    ensures |s.uploads| <= |Apply(s, step).uploads|
    ensures forall u :: 0 <= u < |s.uploads| ==> SameFile(Apply(s, step).uploads[u], s.uploads[u])
  {
  }

  // ---------------------------------------------------------------------------
  // Handling an event
  // ---------------------------------------------------------------------------

  /** The request behind a stored decision channel is over once a newer prepare-upload is handled. */
  lemma ReplacedIsOver(y: System)
    requires BridgeInv(y) && y.handled < |y.server.log|
    requires y.server.log[y.handled].PrepareUpload? && y.decision.Some?
    ensures !InPhase(y.server, y.decision.value, Deciding)
    ensures y.decision.value != y.server.log[y.handled].id
  {
    var s := y.server;
    var id := y.decision.value;
    var i :| 0 <= i < |s.log| && 0 <= i < y.handled && s.log[i] == PrepareUpload(id);
    assert Told(s, id);
    StoryMeaning(s.log, id);
    assert Concerns(s.log[i], id);
  }

  /** The request behind the channel that `PrepareUploadAborted` drops is over. */
  lemma AbortedIsOver(s: State, i: nat)
    requires Inv(s) && i < |s.log| && s.log[i].PrepareUploadAborted?
    ensures !InPhase(s, s.log[i].id, Deciding)
  {
    var id := s.log[i].id;
    assert Told(s, id);
    StoryMeaning(s.log, id);
    assert Concerns(s.log[i], id);
  }

  /** A file upload whose channel is replaced by a newer one of the same file is over. */
  lemma ReplacedUploadIsOver(y: System)
    requires BridgeInv(y) && y.handled < |y.server.log| && y.server.log[y.handled].FileUpload?
    requires (y.server.log[y.handled].id, y.server.log[y.handled].file) in y.targets
    ensures var v := y.targets[(y.server.log[y.handled].id, y.server.log[y.handled].file)];
      v < |y.server.uploads| && !y.server.uploads[v].phase.AwaitingTarget? && v != y.server.log[y.handled].upload
  {
    var s := y.server;
    var e := s.log[y.handled];
    var v := y.targets[(e.id, e.file)];
    var i :| 0 <= i < |s.log| && 0 <= i < y.handled && s.log[i].FileUpload? && s.log[i].upload == v;
    assert s.log[i].id == e.id && s.log[i].file == e.file;
    assert v < e.upload;
    assert SameFile(s.uploads[v], s.uploads[e.upload]);
  }

  /** No upload is waiting when its session reports that it finished. */
  lemma FinishedHasNoWaiter(s: State, i: nat, u: nat)
    requires Inv(s) && i < |s.log| && u < |s.uploads|
    requires s.log[i] == SessionEnd(s.uploads[u].id, SessionFinished)
    ensures !s.uploads[u].phase.AwaitingTarget?
  {
    var id := s.uploads[u].id;
    assert Told(s, id);
    StoryMeaning(s.log, id);
    assert Concerns(s.log[i], id);
  }

  /** The log up to the handled event, once it is handled. */
  lemma HandledNow(log: seq<Event>, n: nat)
    requires n < |log|
    ensures forall id :: PreparedIn(log, 0, n, id) ==> PreparedIn(log, 0, n + 1, id)
    ensures forall id :: PreparedIn(log, n, |log|, id) && log[n] != PrepareUpload(id) ==> PreparedIn(log, n + 1, |log|, id)
    ensures log[n].PrepareUpload? ==> PreparedIn(log, 0, n + 1, log[n].id)
    ensures forall u :: PostedIn(log, 0, n, u) ==> PostedIn(log, 0, n + 1, u)
    ensures forall u :: PostedIn(log, n, |log|, u) && !(log[n].FileUpload? && log[n].upload == u) ==> PostedIn(log, n + 1, |log|, u)
    ensures log[n].FileUpload? ==> PostedIn(log, 0, n + 1, log[n].upload)
  {
    forall id | PreparedIn(log, n, |log|, id) && log[n] != PrepareUpload(id) ensures PreparedIn(log, n + 1, |log|, id) {
      var i :| 0 <= i < |log| && n <= i < |log| && log[i] == PrepareUpload(id);
      assert n + 1 <= i;
    }
    forall u | PostedIn(log, n, |log|, u) && !(log[n].FileUpload? && log[n].upload == u) ensures PostedIn(log, n + 1, |log|, u) {
      var i :| 0 <= i < |log| && n <= i < |log| && log[i].FileUpload? && log[i].upload == u;
      assert n + 1 <= i;
    }
  }

  /** Every session is prepared at most once, every upload posted at most once. */
  lemma HandledOnce(y: System)
    requires BridgeInv(y) && y.handled < |y.server.log|
    ensures y.server.log[y.handled].PrepareUpload? ==> !PreparedIn(y.server.log, 0, y.handled, y.server.log[y.handled].id)
    ensures y.server.log[y.handled].FileUpload? ==> !PostedIn(y.server.log, 0, y.handled, y.server.log[y.handled].upload)
  {
    var s := y.server;
    var e := s.log[y.handled];
    if e.PrepareUpload? {
      assert Told(s, e.id);
      StoryMeaning(s.log, e.id);
      assert Concerns(e, e.id);
      PreparesConcern(s.log, e.id);
    }
  }

  lemma PreparesConcern(log: seq<Event>, id: SessionId)
    ensures forall i :: 0 <= i < |log| && log[i] == PrepareUpload(id) ==> Concerns(log[i], id)
  {
  }

  /** What the server guarantees about the next event, for the channels stored now. */
  ghost predicate NextEventFair(y: System)
    requires y.handled < |y.server.log|
  {
    var s, e := y.server, y.server.log[y.handled];
    match e
    case PrepareUpload(id) =>
      && !PreparedIn(s.log, 0, y.handled, id)
      && (y.decision.Some? ==> !InPhase(s, y.decision.value, Deciding))
    case PrepareUploadAborted(id) => !InPhase(s, id, Deciding)
    case FileUpload(id, f, u) =>
      && !PostedIn(s.log, 0, y.handled, u)
      && u < |s.uploads| && KeyOf(s.uploads[u]) == (id, f)
      && ((id, f) in y.targets && y.targets[(id, f)] < |s.uploads| ==>
            !s.uploads[y.targets[(id, f)]].phase.AwaitingTarget?)
    case SessionEnd(id, reason) =>
      reason.SessionFinished? ==>
        forall u :: 0 <= u < |s.uploads| && s.uploads[u].id == id ==> !s.uploads[u].phase.AwaitingTarget?
    case _ => true
  }

  lemma EventsAreFair(y: System)
    requires BridgeInv(y) && y.handled < |y.server.log|
    ensures NextEventFair(y)
  {
    var s, e := y.server, y.server.log[y.handled];
    HandledOnce(y);
    match e
    case PrepareUpload(id) => if y.decision.Some? { ReplacedIsOver(y); }
    case PrepareUploadAborted(id) => AbortedIsOver(s, y.handled);
    case FileUpload(id, f, u) => if (id, f) in y.targets { ReplacedUploadIsOver(y); }
    case SessionEnd(id, reason) =>
      if reason.SessionFinished? {
        forall u | 0 <= u < |s.uploads| && s.uploads[u].id == id ensures !s.uploads[u].phase.AwaitingTarget? {
          FinishedHasNoWaiter(s, y.handled, u);
        }
      }
    case _ =>
  }

  lemma HandleKeepsDecisions(y: System)
    requires y.handled < |y.server.log| && DecisionsKept(y) && NextEventFair(y)
    ensures DecisionsKept(Act(y, HandleEvent))
  {
    var s, n := y.server, y.handled;
    HandledNow(s.log, n);
    var z := Act(y, HandleEvent);
    forall id | id in s.requests && s.requests[id].phase.Deciding? ensures DecisionPending(z, s.log, id) {
      HandleKeepsDecision(y, id);
    }
  }

  lemma HandleKeepsDecision(y: System, id: SessionId)
    requires y.handled < |y.server.log| && DecisionsKept(y) && NextEventFair(y) && InPhase(y.server, id, Deciding)
    ensures DecisionPending(Act(y, HandleEvent), y.server.log, id)
  {
    HandledNow(y.server.log, y.handled);
    assert DecisionPending(y, y.server.log, id);
  }

  /** Storing the channel of a new upload, in the place of any older one of the same file. */
  lemma UploadKeepsStored(y: System, n: nat)
    requires n == y.handled < |y.server.log| && StoredSound(y) && NextEventFair(y) && y.server.log[n].FileUpload?
    ensures StoredSound(Handled(y, y.server.log[n]).(handled := n + 1))
  {
    HandledNow(y.server.log, n);
  }

  lemma EndKeepsStored(y: System, id: SessionId, cause: Cause)
    requires StoredSound(y)
    ensures StoredSound(DiscardSession(y, id, cause))
  {
  }

  lemma HandleKeepsStored(y: System)
    requires y.handled < |y.server.log| && StoredSound(y) && NextEventFair(y)
    ensures StoredSound(Act(y, HandleEvent))
  {
    var n := y.handled;
    var e := y.server.log[n];
    if e.FileUpload? {
      UploadKeepsStored(y, n);
    } else {
      if e.SessionEnd? {
        EndKeepsStored(y, e.id, SessionOver(e.reason));
      }
      HandledMore(Handled(y, e), n + 1);
    }
  }

  lemma HandledMore(y: System, n: nat)
    requires StoredSound(y) && y.handled <= n
    ensures StoredSound(y.(handled := n))
  {
  }

  lemma HandleKeepsWaiting(y: System, u: nat)
    requires y.handled < |y.server.log| && StoredSound(y) && WaitingKept(y) && NextEventFair(y)
    requires u < |y.server.uploads| && y.server.uploads[u].phase.AwaitingTarget?
    ensures TargetPending(Act(y, HandleEvent), y.server.log, u, KeyOf(y.server.uploads[u]))
  {
    var e := y.server.log[y.handled];
    HandledNow(y.server.log, y.handled);
    assert TargetPending(y, y.server.log, u, KeyOf(y.server.uploads[u]));
    if e.FileUpload? {
      UploadKeepsWaiting(y, y.handled, u);
    }
  }

  lemma UploadKeepsWaiting(y: System, n: nat, u: nat)
    requires n == y.handled < |y.server.log| && StoredSound(y) && NextEventFair(y) && y.server.log[n].FileUpload?
    requires u < |y.server.uploads| && y.server.uploads[u].phase.AwaitingTarget?
    requires TargetPending(y, y.server.log, u, KeyOf(y.server.uploads[u]))
    requires PostedIn(y.server.log, n, |y.server.log|, u) ==>
      y.server.log[n].upload == u || PostedIn(y.server.log, n + 1, |y.server.log|, u)
    ensures TargetPending(Handled(y, y.server.log[n]).(handled := n + 1), y.server.log, u, KeyOf(y.server.uploads[u]))
  {
  }

  // ---------------------------------------------------------------------------
  // Every run
  // ---------------------------------------------------------------------------

  lemma AnswerKeepsDecisions(y: System, action: Action)
    requires DecisionsKept(y) && !action.Serve? && !action.HandleEvent?
    ensures DecisionsKept(Act(y, action))
  {
    var z := Act(y, action);
    forall id | id in z.server.requests && z.server.requests[id].phase.Deciding? ensures DecisionPending(z, z.server.log, id) {
      assert DecisionPending(y, y.server.log, id);
    }
  }

  lemma AnswerKeepsStored(y: System, action: Action)
    requires StoredSound(y) && !action.Serve? && !action.HandleEvent?
    ensures StoredSound(Act(y, action))
  {
    if action.DropResponders? {
      EndKeepsStored(y, action.id, ByApplication);
    }
  }

  lemma AnswerKeepsTargets(y: System, action: Action)
    requires StoredSound(y) && WaitingKept(y) && !action.Serve? && !action.HandleEvent?
    ensures StoredSound(Act(y, action)) && WaitingKept(Act(y, action))
  {
    AnswerKeepsStored(y, action);
    var z := Act(y, action);
    forall u | 0 <= u < |z.server.uploads| && z.server.uploads[u].phase.AwaitingTarget?
      ensures TargetPending(z, z.server.log, u, KeyOf(z.server.uploads[u]))
    {
      AnswerKeepsWaiting(y, action, u);
    }
  }

  lemma AnswerKeepsWaiting(y: System, action: Action, u: nat)
    requires StoredSound(y) && WaitingKept(y) && !action.Serve? && !action.HandleEvent?
    requires u < |y.server.uploads| && y.server.uploads[u].phase.AwaitingTarget?
    ensures TargetPending(Act(y, action), y.server.log, u, KeyOf(y.server.uploads[u]))
  {
    assert TargetPending(y, y.server.log, u, KeyOf(y.server.uploads[u]));
  }

  lemma HandleKeepsInv(y: System)
    requires BridgeInv(y) && y.handled < |y.server.log|
    ensures BridgeInv(Act(y, HandleEvent))
  {
    EventsAreFair(y);
    HandleKeepsDecisions(y);
    HandleKeepsStored(y);
    forall u | 0 <= u < |y.server.uploads| && y.server.uploads[u].phase.AwaitingTarget?
      ensures TargetPending(Act(y, HandleEvent), y.server.log, u, KeyOf(y.server.uploads[u]))
    {
      HandleKeepsWaiting(y, u);
    }
    ServerUntouched(y, HandleEvent);
  }

  lemma ServerUntouched(y: System, action: Action)
    requires !action.Serve? && y.handled <= |y.server.log|
    ensures Act(y, action).server == y.server && Act(y, action).handled <= |y.server.log|
  {
  }

  lemma ActKeepsInv(y: System, action: Action)
    requires BridgeInv(y)
    ensures BridgeInv(Act(y, action))
  {
    if action.Serve? {
      StepKeepsInv(y.server, action.step);
      LogOnlyGrows(y.server, action.step);
      ServeKeepsDecisions(y, action.step);
      ServeKeepsTargets(y, action.step);
    } else if action.HandleEvent? {
      if y.handled < |y.server.log| {
        HandleKeepsInv(y);
      }
    } else {
      ServerUntouched(y, action);
      AnswerKeepsDecisions(y, action);
      AnswerKeepsTargets(y, action);
    }
  }

  lemma {:induction false} ReachableSystem(actions: seq<Action>)
    ensures BridgeInv(RunAll(actions))
  {
    if actions == [] {
      Reachable([]);
    } else {
      ReachableSystem(actions[..|actions| - 1]);
      ActKeepsInv(RunAll(actions[..|actions| - 1]), actions[|actions| - 1]);
    }
  }

  // ---------------------------------------------------------------------------
  // Results
  // ---------------------------------------------------------------------------

  /**
   A prepare-upload request that still waits for its decision never finds its
   reply channel dropped: the decision was sent, or its channel is stored, or its
   event is still queued. So the 500 answer for a lost decision never happens
   while the bridge runs.
   */
  lemma WaitingRequestCanBeAnswered(actions: seq<Action>, id: SessionId)
    ensures var y := RunAll(actions);
      InPhase(y.server, id, Deciding) ==>
        && (id in y.replies ==> y.replies[id].Sent?)
        && (id !in y.replies && y.decision != Some(id) ==>
              PreparedIn(y.server.log, y.handled, |y.server.log|, id))
    ensures Act(RunAll(actions), Serve(LoseDecision(id))) == RunAll(actions)
  {
    ReachableSystem(actions);
    var y := RunAll(actions);
    if InPhase(y.server, id, Deciding) {
      assert DecisionPending(y, y.server.log, id);
    }
  }

  /** No event, and no late abort of an older request, takes the channel of a waiting request. */
  lemma LiveDecisionSurvivesEvents(actions: seq<Action>, id: SessionId)
    requires RunAll(actions).decision == Some(id) && InPhase(RunAll(actions).server, id, Deciding)
    ensures Act(RunAll(actions), HandleEvent).decision == Some(id)
  {
    ReachableSystem(actions);
    var y := RunAll(actions);
    if y.handled < |y.server.log| {
      EventsAreFair(y);
    }
  }

  /**
   The channel of an upload that still waits for its target survives the next
   event unless the event says that the sender cancelled the session.
   */
  lemma LiveTargetSurvivesIffNotCancelled(actions: seq<Action>, u: nat)
    requires u < |RunAll(actions).server.uploads| && UploadIn(RunAll(actions).server, u, AwaitingTarget)
    requires var y := RunAll(actions);
      y.handled < |y.server.log| && KeyOf(y.server.uploads[u]) in y.targets && y.targets[KeyOf(y.server.uploads[u])] == u
    ensures var y := RunAll(actions); var z := Act(y, HandleEvent); var key := KeyOf(y.server.uploads[u]);
      (key in z.targets && z.targets[key] == u)
      <==> y.server.log[y.handled] != SessionEnd(y.server.uploads[u].id, SessionCancelled)
  {
    ReachableSystem(actions);
    EventsAreFair(RunAll(actions));
    TargetSurvives(RunAll(actions), u);
  }

  lemma TargetSurvives(y: System, u: nat)
    requires y.handled < |y.server.log| && StoredSound(y) && NextEventFair(y) && UploadIn(y.server, u, AwaitingTarget)
    requires KeyOf(y.server.uploads[u]) in y.targets && y.targets[KeyOf(y.server.uploads[u])] == u
    ensures var z := Act(y, HandleEvent); var key := KeyOf(y.server.uploads[u]);
      (key in z.targets && z.targets[key] == u)
      <==> y.server.log[y.handled] != SessionEnd(y.server.uploads[u].id, SessionCancelled)
  {
  }

  // ---------------------------------------------------------------------------
  // Which request a decision reaches
  // ---------------------------------------------------------------------------

  /** A prepare-upload was handled among the events at `lo..hi`. */
  ghost predicate HandlesPrepare(log: seq<Event>, lo: nat, hi: nat) {
    exists i :: lo <= i < hi && i < |log| && log[i].PrepareUpload?
  }

  /** The decision channel is that of `id` or gone, until a newer prepare-upload is handled; then it never is again. */
  ghost predicate StillFor(z: System, n: nat, id: SessionId) {
    && n <= z.handled && PreparedIn(z.server.log, 0, n, id)
    && if HandlesPrepare(z.server.log, n, z.handled) then z.decision != Some(id)
       else z.decision == None || z.decision == Some(id)
  }

  lemma ServeKeepsFor(z: System, n: nat, id: SessionId, step: Step)
    requires BridgeInv(z) && StillFor(z, n, id)
    ensures StillFor(z.(server := Apply(z.server, step)), n, id)
  {
    var log, more := z.server.log, Apply(z.server, step).log;
    LogOnlyGrows(z.server, step);
    PreparedKept(log, more, 0, n, id);
    assert forall i :: 0 <= i < |log| ==> more[i] == more[..|log|][i] == log[i];
    if HandlesPrepare(log, n, z.handled) {
      var i :| n <= i < z.handled && i < |log| && log[i].PrepareUpload?;
      assert more[i].PrepareUpload?;
    }
  }

  lemma EventKeepsFor(z: System, n: nat, id: SessionId)
    requires BridgeInv(z) && StillFor(z, n, id) && z.handled < |z.server.log|
    ensures StillFor(Act(z, HandleEvent), n, id)
  {
    var log := z.server.log;
    HandledOnce(z);
    PrepareHandledNow(log, n, z.handled);
    if log[z.handled].PrepareUpload? {
      EarlierIsNotAgain(log, n, z.handled, id);
    } else {
      OtherEventsSetNothing(z, id);
    }
  }

  lemma PrepareHandledNow(log: seq<Event>, lo: nat, hi: nat)
    requires lo <= hi < |log|
    ensures HandlesPrepare(log, lo, hi + 1) <==> HandlesPrepare(log, lo, hi) || log[hi].PrepareUpload?
  {
  }

  lemma EarlierIsNotAgain(log: seq<Event>, n: nat, hi: nat, id: SessionId)
    requires n <= hi < |log| && PreparedIn(log, 0, n, id)
    requires log[hi].PrepareUpload? && !PreparedIn(log, 0, hi, log[hi].id)
    ensures log[hi].id != id
  {
    var i :| 0 <= i < |log| && 0 <= i < n && log[i] == PrepareUpload(id);
    assert log[hi].id == id ==> PreparedIn(log, 0, hi, id);
  }

  lemma OtherEventsSetNothing(z: System, id: SessionId)
    requires z.handled < |z.server.log| && !z.server.log[z.handled].PrepareUpload?
    ensures Act(z, HandleEvent).decision == z.decision || Act(z, HandleEvent).decision == None
    ensures Act(z, HandleEvent).server == z.server && Act(z, HandleEvent).handled == z.handled + 1
  {
  }

  lemma ActKeepsFor(z: System, n: nat, id: SessionId, action: Action)
    requires BridgeInv(z) && StillFor(z, n, id)
    ensures StillFor(Act(z, action), n, id)
  {
    if action.Serve? {
      ServeKeepsFor(z, n, id, action.step);
    } else if action.HandleEvent? {
      if z.handled < |z.server.log| {
        EventKeepsFor(z, n, id);
      }
    }
  }

  lemma {:induction false} StaysFor(actions: seq<Action>, more: seq<Action>, id: SessionId)
    requires RunAll(actions).decision == Some(id)
    ensures StillFor(RunAll(actions + more), RunAll(actions).handled, id)
  {
    if more == [] {
      assert actions + more == actions;
      ReachableSystem(actions);
    } else {
      var all, front := actions + more, more[..|more| - 1];
      assert all[..|all| - 1] == actions + front;
      StaysFor(actions, front, id);
      ReachableSystem(actions + front);
      ActKeepsFor(RunAll(actions + front), RunAll(actions).handled, id, more[|more| - 1]);
    }
  }

  /**
   The application decides on a request it was shown and answers later; its answer carries
   no id. If a channel is stored by then, the answer reaches another request if and only if
   the event of a newer one was handled in between.
   */
  lemma DecisionGoesAstrayIff(actions: seq<Action>, more: seq<Action>, id: SessionId, decision: Decision)
    requires RunAll(actions).decision == Some(id) && RunAll(actions + more).decision.Some?
    ensures var y, z := RunAll(actions), RunAll(actions + more); var reached := z.decision.value;
      && reached in Act(z, RespondPrepareUpload(decision)).replies
      && Act(z, RespondPrepareUpload(decision)).replies[reached] == Sent(decision)
      && (reached != id <==> HandlesPrepare(z.server.log, y.handled, z.handled))
  {
    StaysFor(actions, more, id);
  }

  /** The user accepts the first request; a second one, shown after the first was dropped, gets the answer. */
  lemma DecisionCanGoAstray(decision: Decision) returns (actions: seq<Action>, more: seq<Action>)
    ensures RunAll(actions).decision == Some(0)
    ensures RunAll(actions + more).decision == Some(1) && InPhase(RunAll(actions + more).server, 1, Deciding)
    ensures Act(RunAll(actions + more), RespondPrepareUpload(decision)).replies[1] == Sent(decision)
  {
    actions := FirstRequest();
    var dropped := FirstDropped(actions);
    var all := SecondRequest(dropped);
    more := all[|actions|..];
    assert all == actions + more;
  }

  lemma FirstRequest() returns (all: seq<Action>)
    ensures RunAll(all).server == State(PendingSession(0, 7), map[0 := Request(7, {1}, false, Deciding)], [], [PrepareUpload(0)])
    ensures RunAll(all).decision == Some(0) && RunAll(all).handled == 1
  {
    all := Then([], Serve(ClaimSlot(0, 7, {1})));
    all := Then(all, Serve(AnnouncePrepare(0)));
    assert RunAll(all).server == State(PendingSession(0, 7), map[0 := Request(7, {1}, false, Deciding)], [], [PrepareUpload(0)]);
    all := Then(all, HandleEvent);
  }

  lemma FirstDropped(start: seq<Action>) returns (all: seq<Action>)
    requires RunAll(start).server == State(PendingSession(0, 7), map[0 := Request(7, {1}, false, Deciding)], [], [PrepareUpload(0)])
    requires RunAll(start).handled == 1
    ensures start <= all
    ensures var y := RunAll(all);
      && y.server.slot.NoSession? && y.server.requests.Keys == {0} && y.server.log == [PrepareUpload(0)] && y.handled == 1
  {
    all := Then(start, Serve(DropPrepare(0)));
    all := Then(all, Serve(Reclaim(0)));
  }

  lemma SecondRequest(start: seq<Action>) returns (all: seq<Action>)
    requires var y := RunAll(start);
      && y.server.slot.NoSession? && y.server.requests.Keys == {0} && y.server.log == [PrepareUpload(0)] && y.handled == 1
    ensures start <= all
    ensures RunAll(all).decision == Some(1) && InPhase(RunAll(all).server, 1, Deciding)
  {
    all := Then(start, Serve(ClaimSlot(1, 8, {1})));
    assert InPhase(RunAll(all).server, 1, Announcing);
    all := Then(all, Serve(AnnouncePrepare(1)));
    assert RunAll(all).server.log == [PrepareUpload(0), PrepareUpload(1)];
    all := Then(all, HandleEvent);
  }

  lemma Then(actions: seq<Action>, action: Action) returns (longer: seq<Action>)
    ensures longer == actions + [action] && RunAll(longer) == Act(RunAll(actions), action)
  {
    longer := actions + [action];
    assert longer[..|actions|] == actions;
  }

  /** A run to a session whose only upload waits for its target, with its channel stored. */
  lemma UploadWaiting(tokens: FileId -> Token) returns (actions: seq<Action>)
    ensures var y := RunAll(actions);
      && y.server.slot == ActiveSession(0, 7, map[1 := SessionFile(tokens(1), InProgress, 1)])
      && y.server.requests == map[0 := Request(7, {1}, false, Serving)]
      && y.server.uploads == [Upload(0, 1, AwaitingTarget)]
      && y.server.log == [PrepareUpload(0), FileUpload(0, 1, 0)]
      && y.handled == 2 && y.targets == map[(0, 1) := 0]
  {
    var files := map[1 := SessionFile(tokens(1), Pending, 0)];
    assert AcceptedFiles({1}, {1}, tokens) == files;
    assert 1 in files && files != map[];
    actions := Then([], Serve(ClaimSlot(0, 7, {1})));
    assert RunAll(actions).server == State(PendingSession(0, 7), map[0 := Request(7, {1}, false, Announcing)], [], []);
    actions := Then(actions, Serve(AnnouncePrepare(0)));
    assert RunAll(actions).server.requests == map[0 := Request(7, {1}, false, Deciding)];
    actions := Then(actions, HandleEvent);
    actions := Then(actions, RespondPrepareUpload(Accept({1})));
    assert RunAll(actions) == System(
        State(PendingSession(0, 7), map[0 := Request(7, {1}, false, Deciding)], [], [PrepareUpload(0)]),
        1, None, map[0 := Sent(Accept({1}))], map[], map[]);
    var more := AcceptedUpload(actions, tokens, files);
    actions := more;
  }

  lemma AcceptedUpload(start: seq<Action>, tokens: FileId -> Token, files: Files) returns (actions: seq<Action>)
    requires files == map[1 := SessionFile(tokens(1), Pending, 0)] && files == AcceptedFiles({1}, {1}, tokens)
    requires RunAll(start) == System(
        State(PendingSession(0, 7), map[0 := Request(7, {1}, false, Deciding)], [], [PrepareUpload(0)]),
        1, None, map[0 := Sent(Accept({1}))], map[], map[])
    ensures var y := RunAll(actions);
      && y.server.slot == ActiveSession(0, 7, map[1 := SessionFile(tokens(1), InProgress, 1)])
      && y.server.requests == map[0 := Request(7, {1}, false, Serving)]
      && y.server.uploads == [Upload(0, 1, AwaitingTarget)]
      && y.server.log == [PrepareUpload(0), FileUpload(0, 1, 0)]
      && y.handled == 2 && y.targets == map[(0, 1) := 0]
  {
    assert 1 in files && files != map[];
    actions := Then(start, Serve(Decide(0, Accept({1}), tokens)));
    assert RunAll(actions).server.requests == map[0 := Request(7, {1}, false, Installing(files))];
    actions := Then(actions, Serve(Install(0)));
    var y := RunAll(actions);
    assert y.server.requests == map[0 := Request(7, {1}, false, Serving)];
    actions := Then(actions, Serve(BeginUpload(0, 7, 1, tokens(1))));
    actions := Then(actions, Serve(PostUpload(0)));
    actions := Then(actions, HandleEvent);
    UploadBegins(y, tokens);
  }

  lemma UploadBegins(y: System, tokens: FileId -> Token)
    requires y.server == State(ActiveSession(0, 7, map[1 := SessionFile(tokens(1), Pending, 0)]),
                               map[0 := Request(7, {1}, false, Serving)], [], [PrepareUpload(0)])
    requires y.handled == 1 && y.targets == map[]
    ensures var z := Act(Act(Act(y, Serve(BeginUpload(0, 7, 1, tokens(1)))), Serve(PostUpload(0))), HandleEvent);
      && z.server.slot == ActiveSession(0, 7, map[1 := SessionFile(tokens(1), InProgress, 1)])
      && z.server.requests == y.server.requests && z.server.uploads == [Upload(0, 1, AwaitingTarget)]
      && z.server.log == [PrepareUpload(0), FileUpload(0, 1, 0)]
      && z.handled == 2 && z.targets == map[(0, 1) := 0]
  {
    var s := DoBeginUpload(y.server, 0, 7, 1, tokens(1));
    assert Act(y, Serve(BeginUpload(0, 7, 1, tokens(1)))) == y.(server := s);
    assert s.slot.files == map[1 := SessionFile(tokens(1), InProgress, 1)] && s.uploads == [Upload(0, 1, Posting)];
    var z := Act(y.(server := s), Serve(PostUpload(0)));
    assert z.server.log == [PrepareUpload(0), FileUpload(0, 1, 0)] && z.server.uploads == [Upload(0, 1, AwaitingTarget)];
  }

  /**
   `SessionEnd` does not always mean that the uploads of the session have ended:
   after a cancel by the sender it drops the channel of an upload that still waits.
   */
  lemma CancelDropsALiveChannel(tokens: FileId -> Token)
    ensures exists actions: seq<Action> ::
              && UploadIn(RunAll(actions).server, 0, AwaitingTarget)
              && 0 in RunAll(actions).targetReplies
              && RunAll(actions).targetReplies[0] == Discarded(SessionOver(SessionCancelled))
  {
    var actions := UploadWaiting(tokens);
    CancelAndReport(RunAll(actions));
    actions := Then(actions, Serve(CancelActive(7, 0)));
    actions := Then(actions, Serve(ReportEnd(0, true)));
    StoredIsDropped(RunAll(actions));
    actions := Then(actions, HandleEvent);
  }

  lemma CancelAndReport(y: System)
    requires y.server.slot.ActiveSession? && y.server.slot.id == 0 && y.server.slot.sender == 7 && 0 in y.server.requests
    ensures var z := Act(Act(y, Serve(CancelActive(7, 0))), Serve(ReportEnd(0, true)));
      && z.server.uploads == y.server.uploads && z.targets == y.targets && z.handled == y.handled
      && z.server.log == y.server.log + [SessionEnd(0, SessionCancelled)]
  {
    var s := DoCancelActive(y.server, 7, 0);
    assert Act(y, Serve(CancelActive(7, 0))) == y.(server := s);
    assert s.requests[0].phase.Ending?;
  }

  lemma StoredIsDropped(y: System)
    requires y.targets == map[(0, 1) := 0] && UploadIn(y.server, 0, AwaitingTarget)
    requires y.handled < |y.server.log| && y.server.log[y.handled] == SessionEnd(0, SessionCancelled)
    ensures var z := Act(y, HandleEvent);
      && UploadIn(z.server, 0, AwaitingTarget)
      && 0 in z.targetReplies && z.targetReplies[0] == Discarded(SessionOver(SessionCancelled))
  {
    assert y.targets[(0, 1)] in StoredUploads(y, 0);
  }

  /** What an upload that lost its channel while waiting can blame. */
  lemma WaitingUploadLosesChannelOnlyByCancel(actions: seq<Action>, u: nat)
    requires u < |RunAll(actions).server.uploads| && UploadIn(RunAll(actions).server, u, AwaitingTarget)
    ensures var y := RunAll(actions);
      && (u in y.targetReplies && y.targetReplies[u].Discarded? ==> Excused(y.targetReplies[u].cause))
      && (u !in y.targetReplies ==>
            || (KeyOf(y.server.uploads[u]) in y.targets && y.targets[KeyOf(y.server.uploads[u])] == u)
            || PostedIn(y.server.log, y.handled, |y.server.log|, u))
  {
    ReachableSystem(actions);
    var y := RunAll(actions);
    assert TargetPending(y, y.server.log, u, KeyOf(y.server.uploads[u]));
  }

  // ---------------------------------------------------------------------------
  // The bridge as an object
  // ---------------------------------------------------------------------------

  /** The reply channels `RsHttpServer` stores, and what became of the others. */
  class RsHttpServer {
    var pendingDecision: Option<SessionId>
    var pendingUploads: map<FileKey, nat>
    var replies: map<SessionId, Reply<Decision>>
    var targetReplies: map<nat, Reply<()>>

    constructor ()
      ensures forall s, n :: View(s, n) == System(s, n, None, map[], map[], map[])
    {
      pendingDecision, pendingUploads, replies, targetReplies := None, map[], map[], map[];
    }

    /** The whole system, for a server state and the number of events handled so far. */
    ghost function View(s: State, handled: nat): System
      reads this
    {
      System(s, handled, pendingDecision, replies, pendingUploads, targetReplies)
    }

    /** Overwriting `pending_decision` drops the channel stored before. */
    method StoreDecision(stored: Option<SessionId>, cause: Cause)
      modifies this
      ensures forall s, n :: View(s, n) == DiscardDecision(old(View(s, n)), cause).(decision := stored)
    {
      if pendingDecision.Some? {
        replies := replies[pendingDecision.value := Discarded(cause)];
      }
      pendingDecision := stored;
    }

    method RemoveUpload(key: FileKey, cause: Cause)
      modifies this
      ensures forall s, n :: View(s, n) == DiscardTarget(old(View(s, n)), key, cause)
      ensures pendingUploads == old(pendingUploads) - {key}
      ensures key in old(pendingUploads) ==>
        targetReplies == old(targetReplies)[old(pendingUploads[key]) := Discarded(cause)]
    {
      if key in pendingUploads {
        targetReplies := targetReplies[pendingUploads[key] := Discarded(cause)];
        pendingUploads := pendingUploads - {key};
      }
    }

    /** `pending_uploads.retain(|(sid, _), _| sid != session_id)`. */
    method RetainOthers(id: SessionId, cause: Cause)
      modifies this
      ensures forall s, n :: View(s, n) == DiscardSession(old(View(s, n)), id, cause)
    {
      var dropped := set key | key in pendingUploads && key.0 == id :: pendingUploads[key];
      targetReplies := targetReplies + map u | u in dropped :: Discarded(cause);
      pendingUploads := map key | key in pendingUploads && key.0 != id :: pendingUploads[key];
    }

    method HandleServerEvent(e: Event)
      modifies this
      ensures forall s, n :: View(s, n) == Handled(old(View(s, n)), e)
    {
      match e
      case Register =>
      case PrepareUpload(id) => StoreDecision(Some(id), Replaced);
      case FileUpload(id, f, u) =>
        RemoveUpload((id, f), Replaced);
        pendingUploads := pendingUploads[(id, f) := u];
      case SessionEnd(id, reason) => RetainOthers(id, SessionOver(reason));
      case PrepareUploadAborted(id) =>
        if pendingDecision == Some(id) {
          StoreDecision(None, RequestAborted);
        }
      case CancelReceived(_) =>
    }

    /** Answers the stored request, if there is one; `waiting` says whether it still listens. */
    method RespondPrepareUpload(decision: Decision, waiting: bool) returns (ok: bool)
      modifies this
      ensures forall s, n :: View(s, n) == Act(old(View(s, n)), Action.RespondPrepareUpload(decision))
      ensures ok <==> old(pendingDecision).Some? && waiting
    {
      if pendingDecision.None? {
        return false;
      }
      replies := replies[pendingDecision.value := Sent(decision)];
      pendingDecision := None;
      return waiting;
    }

    method RespondFileUpload(key: FileKey, resolved: bool) returns (found: bool)
      modifies this
      ensures forall s, n :: View(s, n) == Act(old(View(s, n)), Action.RespondFileUpload(key, resolved))
      ensures found <==> key in old(pendingUploads)
      ensures pendingUploads == old(pendingUploads) - {key}
      ensures found ==>
        targetReplies == old(targetReplies)[old(pendingUploads[key]) := if resolved then Sent(()) else Discarded(ByApplication)]
    {
      found := key in pendingUploads;
      if found && resolved {
        targetReplies := targetReplies[pendingUploads[key] := Sent(())];
        pendingUploads := pendingUploads - {key};
      } else {
        RemoveUpload(key, ByApplication);
      }
    }
  }
}
