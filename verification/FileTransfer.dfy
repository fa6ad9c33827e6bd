/**
 The file phase of a WebRTC session: the sender's header/chunk/delimiter stream
 and the receiver's file loop (`packages/core/src/webrtc/webrtc.rs:501-557, 883-1015`).
 */
module FileTransfer {
  import opened Wrappers
  import opened Chunking
  import opened WebRtcMessages

  // ---------------------------------------------------------------------------
  // Sender
  // ---------------------------------------------------------------------------

  /** A file as the application hands it over: its bytes arrive in any pieces. */
  datatype Outgoing = Outgoing(id: FileId, pieces: seq<Bytes>)

  function Content(file: Outgoing): Bytes {
    Concat(file.pieces)
  }

  function FileMessages(file: Outgoing, tokens: map<FileId, FileToken>): seq<Msg> {
    if file.id in tokens
    then [Text(FileHeader(file.id, tokens[file.id]))] + Binaries(Chunks(Content(file)))
    else []
  }

  function Stream(files: seq<Outgoing>, tokens: map<FileId, FileToken>): seq<Msg> {
    if files == [] then []
    else Stream(files[..|files| - 1], tokens) + FileMessages(files[|files| - 1], tokens)
  }

  function Unselected(files: seq<Outgoing>, tokens: map<FileId, FileToken>): seq<FileId> {
    if files == [] then []
    else
      var last := files[|files| - 1];
      Unselected(files[..|files| - 1], tokens) + if last.id in tokens then [] else [last.id]
  }

  /** How many of the files have this id. */
  function FilesNamed(files: seq<Outgoing>, id: FileId): nat {
    if files == [] then 0 else FilesNamed(files[..|files| - 1], id) + if files[|files| - 1].id == id then 1 else 0
  }

  /** Each file that was not selected is reported once, no other is. */
  lemma {:induction false} UnselectedAreReported(files: seq<Outgoing>, tokens: map<FileId, FileToken>, id: FileId)
    ensures multiset(Unselected(files, tokens))[id] == if id in tokens then 0 else FilesNamed(files, id)
  {
    if files != [] {
      UnselectedAreReported(files[..|files| - 1], tokens, id);
    }
  }

  lemma OneMoreFile(files: seq<Outgoing>, tokens: map<FileId, FileToken>, i: nat)
    requires i < |files| && files[i].id in tokens
    ensures Stream(files[..i + 1], tokens) ==
      Stream(files[..i], tokens) + [Text(FileHeader(files[i].id, tokens[files[i].id]))] + Binaries(Chunks(Content(files[i])))
  {
    assert files[..i + 1][..i] == files[..i];
  }

  /** The one message that is read last is gone, if there was one. */
  function AfterOne(incoming: seq<Msg>): seq<Msg> {
    if incoming == [] then [] else incoming[1..]
  }

  /** The send loop and its end: the sender closes the channel once it has read one of the `incoming` messages. */
  method SendFiles(files: seq<Outgoing>, tokens: map<FileId, FileToken>, incoming: seq<Msg>)
    returns (sent: seq<Msg>, errors: seq<FileId>, unread: seq<Msg>)
    ensures unread == AfterOne(incoming)
    ensures sent == Stream(files, tokens) + [Text(Delimiter)]
    ensures errors == Unselected(files, tokens)
  {
    sent, errors := [], [];
    for i := 0 to |files|
      invariant sent == Stream(files[..i], tokens)
      invariant errors == Unselected(files[..i], tokens)
    {
      var file := files[i];
      assert files[..i + 1][..i] == files[..i] && files[..i + 1][i] == file;
      if file.id !in tokens {
        errors := errors + [file.id];
        continue;
      }
      sent := sent + [Text(FileHeader(file.id, tokens[file.id]))];
      var chunks := ProcessInChunks(file.pieces);
      sent := sent + Binaries(chunks);
      OneMoreFile(files, tokens, i);
    }
    assert files[..|files|] == files;
    sent := sent + [Text(Delimiter)];
    unread := AfterOne(incoming);
  }

  // ---------------------------------------------------------------------------
  // Receiver
  // ---------------------------------------------------------------------------

  /** The file being received. */
  datatype OpenFile = OpenFile(id: FileId, size: nat, received: nat)

  /** What was forwarded to the application for one opened file. */
  datatype Delivery = Delivery(id: FileId, chunks: seq<Bytes>)

  /** The answer sent for the `delivery`-th opened file. */
  datatype Answer = Answer(delivery: nat, id: FileId, success: bool)

  datatype TransferError =
    | InvalidToken(id: FileId)
    | FileNotFound(id: FileId)
    | NoSize(id: FileId)
    | TooManyBytes(id: FileId, received: nat)
    | NoHeader

  datatype Status = Receiving | Completed | ProtocolError

  datatype Receiver = Receiver(
    open: Option<OpenFile>,
    deliveries: seq<Delivery>,
    answers: seq<Answer>,
    errors: seq<TransferError>,
    results: seq<bool>,      // the application's verdicts that were not consumed yet
    status: Status
  )

  /** What the receiver selected, and what the sender declared. */
  datatype Terms = Terms(tokens: map<FileId, FileToken>, declared: seq<FileDto>)

  function Fresh(results: seq<bool>): Receiver {
    Receiver(None, [], [], [], results, Receiving)
  }

  function DeclaredSize(declared: seq<FileDto>, id: FileId): Option<nat> {
    if declared == [] then None
    else if declared[0].id == id then Some(declared[0].size)
    else DeclaredSize(declared[1..], id)
  }

  /** A missing verdict counts as a failure. */
  function Verdict(results: seq<bool>, k: nat): bool {
    k < |results| && results[k]
  }

  /** Closes the open file, if any, and answers for it. */
  function Closed(r: Receiver): Receiver {
    match r.open
    case None => r
    case Some(file) =>
      var answer := Answer(if r.deliveries == [] then 0 else |r.deliveries| - 1, file.id, Verdict(r.results, 0));
      r.(open := None, answers := r.answers + [answer], results := if r.results == [] then [] else r.results[1..])
  }

  function WithError(r: Receiver, e: TransferError): Receiver {
    r.(errors := r.errors + [e])
  }

  function OnText(terms: Terms, r: Receiver, said: Said): Receiver {
    var c := Closed(r);
    if said.Delimiter? then c.(status := if r.open.Some? then Completed else ProtocolError)
    else if !said.FileHeader? then c.(status := ProtocolError)
    else if said.id !in terms.tokens then WithError(c, FileNotFound(said.id))
    else if said.token != terms.tokens[said.id] then WithError(c, InvalidToken(said.id))
    else match DeclaredSize(terms.declared, said.id)
      case None => WithError(c, NoSize(said.id))
      case Some(size) =>
        c.(open := Some(OpenFile(said.id, size, 0)), deliveries := c.deliveries + [Delivery(said.id, [])])
  }

  /** Appends a chunk to the last opened file. */
  function Forwarded(deliveries: seq<Delivery>, data: Bytes): seq<Delivery> {
    if deliveries == [] then []
    else
      var last := deliveries[|deliveries| - 1];
      deliveries[..|deliveries| - 1] + [last.(chunks := last.chunks + [data])]
  }

  function OnBinary(r: Receiver, data: Bytes): Receiver {
    match r.open
    case None => WithError(r, NoHeader)
    case Some(file) =>
      var received := file.received + |data|;
      if received > file.size then WithError(r, TooManyBytes(file.id, received)).(open := None)
      else r.(open := Some(file.(received := received)), deliveries := Forwarded(r.deliveries, data))
  }

  function OnMessage(terms: Terms, r: Receiver, msg: Msg): Receiver {
    if !r.status.Receiving? then r
    else match msg
      case Text(said) => OnText(terms, r, said)
      case Binary(data) => OnBinary(r, data)
  }

  /** The receiver after the first `i` messages. */
  function ReceivedUpTo(terms: Terms, r: Receiver, msgs: seq<Msg>, i: nat): Receiver
    requires i <= |msgs|
  {
    if i == 0 then r else OnMessage(terms, ReceivedUpTo(terms, r, msgs, i - 1), msgs[i - 1])
  }

  function Received(terms: Terms, r: Receiver, msgs: seq<Msg>): Receiver {
    ReceivedUpTo(terms, r, msgs, |msgs|)
  }

  lemma {:induction false} ReceivedPrefix(terms: Terms, r: Receiver, msgs: seq<Msg>, i: nat)
    requires i <= |msgs|
    ensures ReceivedUpTo(terms, r, msgs, i) == Received(terms, r, msgs[..i])
  {
    SameUpTo(terms, r, msgs, msgs[..i], i);
  }

  lemma {:induction false} SameUpTo(terms: Terms, r: Receiver, a: seq<Msg>, b: seq<Msg>, i: nat)
    requires i <= |a| && i <= |b| && forall k :: 0 <= k < i ==> a[k] == b[k]
    ensures ReceivedUpTo(terms, r, a, i) == ReceivedUpTo(terms, r, b, i)
  {
    if i > 0 {
      SameUpTo(terms, r, a, b, i - 1);
    }
  }

  lemma ReceivedLast(terms: Terms, r: Receiver, msgs: seq<Msg>)
    requires msgs != []
    ensures Received(terms, r, msgs) == OnMessage(terms, Received(terms, r, msgs[..|msgs| - 1]), msgs[|msgs| - 1])
  {
    ReceivedPrefix(terms, r, msgs, |msgs| - 1);
  }

  lemma NothingMoreIsRead(terms: Terms, r: Receiver, msgs: seq<Msg>, i: nat)
    requires i <= |msgs| && (i < |msgs| ==> !ReceivedUpTo(terms, r, msgs, i).status.Receiving?)
    ensures ReceivedUpTo(terms, r, msgs, i) == Received(terms, r, msgs)
  {
    ReceivedPrefix(terms, r, msgs, i);
    EndIgnores(terms, r, msgs[..i], msgs[i..]);
    assert msgs[..i] + msgs[i..] == msgs;
  }

  /** The file loop of `accept_offer`, over the messages that arrive until the channel closes. */
  method ReceiveFiles(terms: Terms, msgs: seq<Msg>, results: seq<bool>) returns (r: Receiver)
    ensures r == Received(terms, Fresh(results), msgs)
  {
    var open: Option<OpenFile> := None;
    var deliveries: seq<Delivery> := [];
    var answers: seq<Answer> := [];
    var errors: seq<TransferError> := [];
    var verdicts := results;
    var status := Receiving;
    var i := 0;
    while i < |msgs| && status.Receiving?
      invariant 0 <= i <= |msgs|
      invariant ReceivedUpTo(terms, Fresh(results), msgs, i) == Receiver(open, deliveries, answers, errors, verdicts, status)
    {
      var msg := msgs[i];
      i := i + 1;
      if msg.Text? {
        var last := open;
        open := None;
        if last.Some? {
          var success := |verdicts| > 0 && verdicts[0];
          verdicts := if verdicts == [] then [] else verdicts[1..];
          answers := answers + [Answer(if deliveries == [] then 0 else |deliveries| - 1, last.value.id, success)];
          if msg.text.Delimiter? {
            status := Completed;
            break;
          }
        }
        if !msg.text.FileHeader? {
          status := ProtocolError;
          break;
        }
        var id := msg.text.id;
        if id !in terms.tokens {
          errors := errors + [FileNotFound(id)];
          continue;
        }
        if msg.text.token != terms.tokens[id] {
          errors := errors + [InvalidToken(id)];
          continue;
        }
        var size := FindSize(terms.declared, id);
        if size.None? {
          errors := errors + [NoSize(id)];
          continue;
        }
        open := Some(OpenFile(id, size.value, 0));
        deliveries := deliveries + [Delivery(id, [])];
      } else {
        match open {
          case None => errors := errors + [NoHeader];
          case Some(file) =>
            var received := file.received + |msg.data|;
            if received > file.size {
              errors := errors + [TooManyBytes(file.id, received)];
              open := None;
              continue;
            }
            open := Some(file.(received := received));
            deliveries := Forwarded(deliveries, msg.data);
        }
      }
    }
    r := Receiver(open, deliveries, answers, errors, verdicts, status);
    NothingMoreIsRead(terms, Fresh(results), msgs, i);
  }

  /** Of several entries with the same id the first one counts. */
  lemma {:induction false} FirstEntryCounts(declared: seq<FileDto>, id: FileId, i: nat)
    requires i < |declared| && declared[i].id == id && forall k :: 0 <= k < i ==> declared[k].id != id
    ensures DeclaredSize(declared, id) == Some(declared[i].size)
  {
    if i > 0 {
      FirstEntryCounts(declared[1..], id, i - 1);
    }
  }

  method FindSize(declared: seq<FileDto>, id: FileId) returns (size: Option<nat>)
    ensures size == DeclaredSize(declared, id)
  {
    var i := 0;
    while i < |declared|
      invariant 0 <= i <= |declared|
      invariant DeclaredSize(declared, id) == DeclaredSize(declared[i..], id)
    {
      if declared[i].id == id {
        return Some(declared[i].size);
      }
      i := i + 1;
    }
    return None;
  }

  lemma {:induction false} ReceivedAppend(terms: Terms, r: Receiver, a: seq<Msg>, b: seq<Msg>)
    ensures Received(terms, r, a + b) == Received(terms, Received(terms, r, a), b)
  {
    if b == [] {
      assert a + b == a;
    } else {
      ReceivedAppend(terms, r, a, b[..|b| - 1]);
      assert (a + b)[..|a + b| - 1] == a + b[..|b| - 1];
      ReceivedLast(terms, r, a + b);
      ReceivedLast(terms, Received(terms, r, a), b);
    }
  }

  /** Nothing is read after the loop ended. */
  lemma {:induction false} EndIgnores(terms: Terms, r: Receiver, a: seq<Msg>, b: seq<Msg>)
    requires b != [] ==> !Received(terms, r, a).status.Receiving?
    ensures Received(terms, r, a + b) == Received(terms, r, a)
  {
    if b == [] {
      assert a + b == a;
    } else {
      EndIgnores(terms, r, a, b[..|b| - 1]);
      assert (a + b)[..|a + b| - 1] == a + b[..|b| - 1];
      ReceivedLast(terms, r, a + b);
    }
  }
}
