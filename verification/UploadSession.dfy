/**
 The single upload-session slot of the v2 server and what one critical section
 does to it. Every function below is the effect of one region of
 `packages/core/src/http/server/v2.rs` that runs with the slot locked.

 Identifiers generated with `Uuid::new_v4` (session ids, file tokens), file ids
 and peer addresses are numbers here: the server only compares them.
 */
module UploadSession {

  type SessionId = nat
  type FileId = nat
  type Token = nat
  type PeerIp = nat

  datatype FileStatus = Pending | InProgress | Finished | Failed

  datatype SessionFile = SessionFile(token: Token, status: FileStatus, attempts: nat)

  type Files = map<FileId, SessionFile>

  /** What saving a request body ended in. */
  datatype SaveResult = Saved | NotSaved | HashMismatch

  datatype Slot =
    | NoSession
    | PendingSession(id: SessionId, sender: PeerIp)
    | ActiveSession(id: SessionId, sender: PeerIp, files: Files)

  const MAX_UPLOAD_ATTEMPTS: nat := 3

  predicate IsFinal(status: FileStatus) {
    status.Finished? || status.Failed?
  }

  predicate IsComplete(files: Files) {
    forall f :: f in files ==> IsFinal(files[f].status)
  }

  /** The attempt counter is a `u8` that saturates. */
  function SaturatingIncrement(attempts: nat): nat {
    if attempts < 255 then attempts + 1 else 255
  }

  /** The files of a new session: the accepted ones among the offered, all pending. */
  function AcceptedFiles(offered: set<FileId>, accepted: set<FileId>, tokens: FileId -> Token): Files {
    map f | f in offered && f in accepted :: SessionFile(tokens(f), Pending, 0)
  }

  /** `prepare_upload`: claims the slot when it is free. */
  function ClaimedSlot(slot: Slot, id: SessionId, sender: PeerIp): Slot {
    if slot.NoSession? then PendingSession(id, sender) else slot
  }

  /** `clear_pending_session`: frees a pending slot, whoever owns it. */
  function ClearedSlot(slot: Slot): Slot {
    if slot.PendingSession? then NoSession else slot
  }

  /** Whether `slot` holds the active session `id`. */
  predicate Serves(slot: Slot, id: SessionId) {
    slot.ActiveSession? && slot.id == id
  }

  /** The checks of `upload` before a file is marked as in progress. */
  predicate UploadAllowed(slot: Slot, id: SessionId, sender: PeerIp, f: FileId, token: Token) {
    && Serves(slot, id)
    && slot.sender == sender
    && f in slot.files
    && slot.files[f].token == token
    && slot.files[f].status.Pending?
  }

  function StartedFile(file: SessionFile): SessionFile {
    file.(status := InProgress, attempts := SaturatingIncrement(file.attempts))
  }

  function SettledFile(file: SessionFile, result: SaveResult): SessionFile {
    file.(status := match result
                    case Saved => Finished
                    case NotSaved => Failed
                    case HashMismatch => if file.attempts < MAX_UPLOAD_ATTEMPTS then Pending else Failed)
  }

  /** The files after `finalize_file` settled `f`; a file that is not in progress is left alone. */
  function SettledFiles(files: Files, f: FileId, result: SaveResult): Files {
    if f in files && files[f].status.InProgress?
    then files[f := SettledFile(files[f], result)]
    else files
  }

  /** `finalize_file`: settles the file and frees the slot once every file is final. */
  function FinalizedSlot(slot: Slot, id: SessionId, f: FileId, result: SaveResult): Slot {
    if !Serves(slot, id) then slot
    else
      var files := SettledFiles(slot.files, f, result);
      if IsComplete(files) then NoSession else slot.(files := files)
  }

  /** Whether a `POST /cancel` from `sender` reaches the pending request that holds `slot`. */
  predicate CancelsPending(slot: Slot, sender: PeerIp, wanted: set<SessionId>) {
    slot.PendingSession? && slot.sender == sender && (wanted == {} || slot.id in wanted)
  }

  /** Whether a `POST /cancel` from `sender` ends the active session `id`. */
  predicate CancelsActive(slot: Slot, sender: PeerIp, id: SessionId) {
    Serves(slot, id) && slot.sender == sender
  }

  // ---------------------------------------------------------------------------
  // What a session's files can look like between two critical sections
  // ---------------------------------------------------------------------------

  /** The attempt counter stays in range, so it never saturates and never gates wrongly. */
  ghost predicate FileSound(file: SessionFile) {
    if file.status.Pending? then file.attempts < MAX_UPLOAD_ATTEMPTS
    else 1 <= file.attempts <= MAX_UPLOAD_ATTEMPTS
  }

  ghost predicate FilesSound(files: Files) {
    forall f :: f in files ==> FileSound(files[f])
  }

  ghost predicate FilesUntouched(files: Files) {
    && files != map[]
    && forall f :: f in files ==> files[f].status.Pending? && files[f].attempts == 0
  }

  // ---------------------------------------------------------------------------
  // Sums over the files of a session
  // ---------------------------------------------------------------------------

  ghost function Total(files: Files, weight: SessionFile -> nat): nat
  {
    if files == map[] then 0
    else
      var f :| f in files;
      weight(files[f]) + Total(files - {f}, weight)
  }

  /** The choice of the first summand does not matter. */
  lemma {:induction false} TotalWithout(files: Files, weight: SessionFile -> nat, f: FileId)
    requires f in files
    ensures Total(files, weight) == weight(files[f]) + Total(files - {f}, weight)
    decreases |files|
  {
    var g :| g in files && Total(files, weight) == weight(files[g]) + Total(files - {g}, weight);
    if g != f {
      TotalWithout(files - {g}, weight, f);
      TotalWithout(files - {f}, weight, g);
      assert files - {g} - {f} == files - {f} - {g};
    }
  }

  lemma TotalUpdated(files: Files, weight: SessionFile -> nat, f: FileId, file: SessionFile)
    requires f in files
    ensures Total(files[f := file], weight) + weight(files[f]) == Total(files, weight) + weight(file)
  {
    TotalWithout(files, weight, f);
    TotalWithout(files[f := file], weight, f);
    assert files[f := file] - {f} == files - {f};
  }

  lemma MapWithout(files: Files, f: FileId)
    requires f in files
    ensures |files - {f}| == |files| - 1
  {
    assert (files - {f}).Keys == files.Keys - {f};
  }

  lemma {:induction false} TotalAtMost(files: Files, weight: SessionFile -> nat, bound: nat)
    requires forall f :: f in files ==> weight(files[f]) <= bound
    ensures Total(files, weight) <= bound * |files|
    decreases |files|
  {
    if files != map[] {
      var f :| f in files;
      TotalWithout(files, weight, f);
      TotalAtMost(files - {f}, weight, bound);
      MapWithout(files, f);
      OneMore(bound, |files - {f}|);
    }
  }

  lemma OneMore(bound: nat, n: nat)
    ensures bound * (n + 1) == bound * n + bound
  {
  }

  function AttemptsOf(file: SessionFile): nat {
    file.attempts
  }

  /** Upload attempts started so far. */
  ghost function Attempts(files: Files): nat {
    Total(files, AttemptsOf)
  }

  /**
   The steps a file can still take: two for each attempt that is left (start and
   settle), one more for an attempt that is running, none for a final file.
   */
  ghost function StepsLeft(file: SessionFile): nat {
    if IsFinal(file.status) then 0
    else
      2 * (if file.attempts < MAX_UPLOAD_ATTEMPTS then MAX_UPLOAD_ATTEMPTS - file.attempts else 0)
      + (if file.status.InProgress? then 1 else 0)
  }

  ghost function Rank(files: Files): nat {
    Total(files, StepsLeft)
  }
}
