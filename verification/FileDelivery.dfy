/** What the sender's stream and the receiver's loop do together, and what the loop guarantees alone. */
module FileDelivery {
  import opened Wrappers
  import opened Chunking
  import opened WebRtcMessages
  import opened FileTransfer

  // ---------------------------------------------------------------------------
  // Expected outcome, file by file
  // ---------------------------------------------------------------------------

  /** The receiver opens the file: it was selected and its size was declared. */
  predicate Opens(terms: Terms, file: Outgoing) {
    file.id in terms.tokens && DeclaredSize(terms.declared, file.id).Some?
  }

  /** The file is opened and its bytes stay within the declared size. */
  predicate Fits(terms: Terms, file: Outgoing) {
    Opens(terms, file) && |Content(file)| <= DeclaredSize(terms.declared, file.id).value
  }

  function Total(chunks: seq<Bytes>): nat {
    |Concat(chunks)|
  }

  /** The longest run of leading chunks that stays within `budget` bytes. */
  function FittingPrefix(chunks: seq<Bytes>, budget: nat): seq<Bytes> {
    if chunks == [] || |chunks[0]| > budget then []
    else [chunks[0]] + FittingPrefix(chunks[1..], budget - |chunks[0]|)
  }

  function Deliveries(terms: Terms, files: seq<Outgoing>): seq<Delivery> {
    if files == [] then []
    else
      var before, last := Deliveries(terms, files[..|files| - 1]), files[|files| - 1];
      if Opens(terms, last)
      then before + [Delivery(last.id, FittingPrefix(Chunks(Content(last)), DeclaredSize(terms.declared, last.id).value))]
      else before
  }

  /** The `k`-th file received in full is answered with the `k`-th verdict. */
  function Answers(terms: Terms, files: seq<Outgoing>, results: seq<bool>): seq<Answer> {
    if files == [] then []
    else
      var init, last := files[..|files| - 1], files[|files| - 1];
      var before := Answers(terms, init, results);
      if Fits(terms, last)
      then before + [Answer(|Deliveries(terms, init)|, last.id, Verdict(results, |before|))]
      else before
  }

  /** The last selected file was received in full, so it is still open when the delimiter arrives. */
  predicate EndsOpen(terms: Terms, files: seq<Outgoing>) {
    if files == [] then false
    else if files[|files| - 1].id in terms.tokens then Fits(terms, files[|files| - 1])
    else EndsOpen(terms, files[..|files| - 1])
  }

  /** One report for each of `n` chunks that belong to no open file. */
  function Strays(n: nat): seq<TransferError> {
    seq(n, _ => NoHeader)
  }

  /**
   What is reported while `chunks` arrive for `file`: nothing if they fit; else the count at
   the first chunk that does not, and every chunk after it as stray.
   */
  function ChunkErrors(file: OpenFile, chunks: seq<Bytes>): seq<TransferError>
    requires file.received <= file.size
  {
    var fitting := |FittingPrefix(chunks, file.size - file.received)|;
    if fitting >= |chunks| then []
    else [TooManyBytes(file.id, file.received + Total(chunks[..fitting + 1]))] + Strays(|chunks| - fitting - 1)
  }

  /** What one file of the stream makes the receiver report. */
  function FileErrors(terms: Terms, file: Outgoing): seq<TransferError> {
    if file.id !in terms.tokens then []
    else
      match DeclaredSize(terms.declared, file.id)
      case None => [NoSize(file.id)] + Strays(|Chunks(Content(file))|)
      case Some(size) => ChunkErrors(OpenFile(file.id, size, 0), Chunks(Content(file)))
  }

  function StreamErrors(terms: Terms, files: seq<Outgoing>): seq<TransferError> {
    if files == [] then [] else StreamErrors(terms, files[..|files| - 1]) + FileErrors(terms, files[|files| - 1])
  }

  // ---------------------------------------------------------------------------
  // One file
  // ---------------------------------------------------------------------------

  lemma TotalFirst(chunks: seq<Bytes>)
    requires chunks != []
    ensures Total(chunks) == |chunks[0]| + Total(chunks[1..])
  {
    ConcatAppend([chunks[0]], chunks[1..]);
    ConcatOne(chunks[0]);
    assert [chunks[0]] + chunks[1..] == chunks;
  }

  lemma {:induction false} AllFit(chunks: seq<Bytes>, budget: nat)
    requires Total(chunks) <= budget
    ensures FittingPrefix(chunks, budget) == chunks
  {
    if chunks != [] {
      TotalFirst(chunks);
      AllFit(chunks[1..], budget - |chunks[0]|);
    }
  }

  /** Binary messages without an open file change nothing but the error reports. */
  lemma {:induction false} StrayBinaries(terms: Terms, r: Receiver, chunks: seq<Bytes>)
    requires r.open.None? && r.status.Receiving?
    ensures Received(terms, r, Binaries(chunks)) == r.(errors := r.errors + Strays(|chunks|))
  {
    if chunks == [] {
      assert r.errors + Strays(0) == r.errors;
    } else {
      var init := chunks[..|chunks| - 1];
      assert Binaries<Said>(chunks)[..|chunks| - 1] == Binaries<Said>(init);
      StrayBinaries(terms, r, init);
      ReceivedLast(terms, r, Binaries(chunks));
      assert r.errors + Strays(|init|) + [NoHeader] == r.errors + Strays(|chunks|);
    }
  }

  /** Appends chunks to the last opened file. */
  function ForwardedAll(deliveries: seq<Delivery>, chunks: seq<Bytes>): seq<Delivery>
    requires deliveries != []
  {
    var last := deliveries[|deliveries| - 1];
    deliveries[..|deliveries| - 1] + [last.(chunks := last.chunks + chunks)]
  }

  /** The receiver after the chunks of the open file: they are forwarded for as long as they fit. */
  function AfterChunks(r: Receiver, chunks: seq<Bytes>): Receiver
    requires r.open.Some? && r.deliveries != [] && r.open.value.received <= r.open.value.size
  {
    var file := r.open.value;
    var budget := file.size - file.received;
    r.(open := if Total(chunks) <= budget then Some(file.(received := file.received + Total(chunks))) else None,
       deliveries := ForwardedAll(r.deliveries, FittingPrefix(chunks, budget)),
       errors := r.errors + ChunkErrors(file, chunks))
  }

  lemma {:induction false} ForwardsWhatFits(terms: Terms, r: Receiver, chunks: seq<Bytes>)
    requires r.status.Receiving? && r.open.Some? && r.deliveries != [] && r.open.value.received <= r.open.value.size
    ensures Received(terms, r, Binaries(chunks)) == AfterChunks(r, chunks)
    decreases |chunks|
  {
    if chunks == [] {
      NothingForwarded(r.deliveries);
      assert r.errors + [] == r.errors;
    } else {
      FirstBinary(terms, r, chunks);
      if r.open.value.received + |chunks[0]| > r.open.value.size {
        StopsHere(terms, r, chunks);
      } else {
        ForwardsWhatFits(terms, OnBinary(r, chunks[0]), chunks[1..]);
        GoesOn(r, chunks);
      }
    }
  }

  lemma StopsHere(terms: Terms, r: Receiver, chunks: seq<Bytes>)
    requires chunks != [] && r.status.Receiving? && r.open.Some? && r.deliveries != []
    requires r.open.value.received <= r.open.value.size < r.open.value.received + |chunks[0]|
    ensures Received(terms, OnBinary(r, chunks[0]), Binaries(chunks[1..])) == AfterChunks(r, chunks)
  {
    var file := r.open.value;
    TotalFirst(chunks);
    StrayBinaries(terms, OnBinary(r, chunks[0]), chunks[1..]);
    NothingForwarded(r.deliveries);
    FirstIsTooMuch(file, chunks);
    assert r.errors + [TooManyBytes(file.id, file.received + |chunks[0]|)] + Strays(|chunks[1..]|)
        == r.errors + ChunkErrors(file, chunks);
  }

  /** The receiver after a chunk that fits. */
  function AfterFitting(r: Receiver, data: Bytes): Receiver
    requires r.open.Some?
  {
    var file := r.open.value;
    r.(open := Some(file.(received := file.received + |data|)), deliveries := Forwarded(r.deliveries, data))
  }

  lemma GoesOnReporting(r: Receiver, chunks: seq<Bytes>)
    requires chunks != [] && r.open.Some? && r.deliveries != [] && r.open.value.received + |chunks[0]| <= r.open.value.size
    ensures AfterChunks(AfterFitting(r, chunks[0]), chunks[1..]).errors == AfterChunks(r, chunks).errors
  {
    FirstFits(r.open.value, chunks);
  }

  lemma GoesOnForwarding(r: Receiver, chunks: seq<Bytes>)
    requires chunks != [] && r.open.Some? && r.deliveries != [] && r.open.value.received + |chunks[0]| <= r.open.value.size
    ensures AfterChunks(AfterFitting(r, chunks[0]), chunks[1..]).deliveries == AfterChunks(r, chunks).deliveries
    ensures AfterChunks(AfterFitting(r, chunks[0]), chunks[1..]).open == AfterChunks(r, chunks).open
  {
    var budget: nat := r.open.value.size - r.open.value.received;
    TotalFirst(chunks);
    ForwardedTwice(r.deliveries, chunks[0], FittingPrefix(chunks[1..], budget - |chunks[0]|));
  }

  lemma GoesOn(r: Receiver, chunks: seq<Bytes>)
    requires chunks != [] && r.open.Some? && r.deliveries != [] && r.open.value.received + |chunks[0]| <= r.open.value.size
    ensures AfterChunks(OnBinary(r, chunks[0]), chunks[1..]) == AfterChunks(r, chunks)
  {
    assert OnBinary(r, chunks[0]) == AfterFitting(r, chunks[0]);
    GoesOnForwarding(r, chunks);
    GoesOnReporting(r, chunks);
  }

  lemma FirstIsTooMuch(file: OpenFile, chunks: seq<Bytes>)
    requires chunks != [] && file.received <= file.size < file.received + |chunks[0]|
    ensures ChunkErrors(file, chunks) == [TooManyBytes(file.id, file.received + |chunks[0]|)] + Strays(|chunks| - 1)
  {
    assert chunks[..1] == [chunks[0]];
    ConcatOne(chunks[0]);
  }

  lemma FirstFits(file: OpenFile, chunks: seq<Bytes>)
    requires chunks != [] && file.received + |chunks[0]| <= file.size
    ensures ChunkErrors(file, chunks) == ChunkErrors(file.(received := file.received + |chunks[0]|), chunks[1..])
  {
    var rest, budget: nat := chunks[1..], file.size - file.received;
    var fitting := |FittingPrefix(rest, budget - |chunks[0]|)|;
    assert FittingPrefix(chunks, budget) == [chunks[0]] + FittingPrefix(rest, budget - |chunks[0]|);
    if fitting < |rest| {
      assert Total(chunks[..fitting + 2]) == |chunks[0]| + Total(rest[..fitting + 1]) by {
        assert chunks[..fitting + 2][1..] == rest[..fitting + 1];
        TotalFirst(chunks[..fitting + 2]);
      }
    }
  }

  lemma FirstBinary(terms: Terms, r: Receiver, chunks: seq<Bytes>)
    requires chunks != [] && r.status.Receiving?
    ensures Received(terms, r, Binaries(chunks)) == Received(terms, OnBinary(r, chunks[0]), Binaries(chunks[1..]))
  {
    var first: Msg := Binary(chunks[0]);
    assert Binaries(chunks) == [first] + Binaries(chunks[1..]);
    ReceivedAppend(terms, r, [first], Binaries(chunks[1..]));
    ReceivedOne(terms, r, first);
  }

  lemma NothingForwarded(deliveries: seq<Delivery>)
    requires deliveries != []
    ensures ForwardedAll(deliveries, []) == deliveries
  {
    var last := deliveries[|deliveries| - 1];
    assert last.chunks + [] == last.chunks;
  }

  /** Forwarding the first chunk and then the others. */
  lemma ForwardedTwice(deliveries: seq<Delivery>, data: Bytes, rest: seq<Bytes>)
    requires deliveries != []
    ensures ForwardedAll(Forwarded(deliveries, data), rest) == ForwardedAll(deliveries, [data] + rest)
  {
    var last := deliveries[|deliveries| - 1];
    assert (last.chunks + [data]) + rest == last.chunks + ([data] + rest);
  }

  lemma FreshForwarded(deliveries: seq<Delivery>, id: FileId, chunks: seq<Bytes>)
    ensures ForwardedAll(deliveries + [Delivery(id, [])], chunks) == deliveries + [Delivery(id, chunks)]
  {
    assert [] + chunks == chunks;
  }

  lemma ReceivedOne(terms: Terms, r: Receiver, msg: Msg)
    ensures Received(terms, r, [msg]) == OnMessage(terms, r, msg)
  {
    assert ReceivedUpTo(terms, r, [msg], 0) == r;
  }

  /** The receiver after one more file of the stream: the previous file is answered, this one delivered. */
  function AfterFile(terms: Terms, r: Receiver, file: Outgoing): Receiver {
    if file.id !in terms.tokens then r
    else
      var c := Closed(r).(errors := r.errors + FileErrors(terms, file));
      match DeclaredSize(terms.declared, file.id)
      case None => c
      case Some(size) => c.(
        open := if Fits(terms, file) then Some(OpenFile(file.id, size, |Content(file)|)) else None,
        deliveries := r.deliveries + [Delivery(file.id, FittingPrefix(Chunks(Content(file)), size))])
  }

  /** One file of the stream, from any state. */
  lemma OneFile(terms: Terms, r: Receiver, file: Outgoing)
    requires r.status.Receiving?
    ensures Received(terms, r, FileMessages(file, terms.tokens)) == AfterFile(terms, r, file)
  {
    if file.id in terms.tokens {
      var header: Msg := Text(FileHeader(file.id, terms.tokens[file.id]));
      var chunks := Chunks(Content(file));
      ReceivedAppend(terms, r, [header], Binaries(chunks));
      ReceivedOne(terms, r, header);
      var afterHeader := OnMessage(terms, r, header);
      if Opens(terms, file) {
        ForwardsWhatFits(terms, afterHeader, chunks);
        OpenedFile(terms, r, file);
      } else {
        StrayBinaries(terms, afterHeader, chunks);
        assert r.errors + [NoSize(file.id)] + Strays(|chunks|) == r.errors + FileErrors(terms, file);
      }
    }
  }

  lemma OpenedFile(terms: Terms, r: Receiver, file: Outgoing)
    requires r.status.Receiving? && Opens(terms, file)
    ensures var afterHeader := OnText(terms, r, FileHeader(file.id, terms.tokens[file.id]));
      && afterHeader.open.Some? && afterHeader.deliveries != [] && afterHeader.open.value.received <= afterHeader.open.value.size
      && AfterChunks(afterHeader, Chunks(Content(file))) == AfterFile(terms, r, file)
  {
    var chunks, size := Chunks(Content(file)), DeclaredSize(terms.declared, file.id).value;
    ConcatChunks(Content(file));
    FreshForwarded(r.deliveries, file.id, FittingPrefix(chunks, size));
  }

  // ---------------------------------------------------------------------------
  // The whole stream
  // ---------------------------------------------------------------------------

  /** The state between two files. */
  ghost predicate Between(terms: Terms, files: seq<Outgoing>, results: seq<bool>, r: Receiver) {
    && r.status.Receiving?
    && r.deliveries == Deliveries(terms, files)
    && (r.open.Some? <==> EndsOpen(terms, files))
    && (r.open.Some? ==> r.deliveries != [])
    && Closed(r).answers == Answers(terms, files, results)
    && r.results == (if |r.answers| <= |results| then results[|r.answers|..] else [])
    && r.errors == StreamErrors(terms, files)
  }

  lemma {:induction false} StreamReceived(terms: Terms, files: seq<Outgoing>, results: seq<bool>)
    ensures Between(terms, files, results, Received(terms, Fresh(results), Stream(files, terms.tokens)))
  {
    if files != [] {
      var init, last := files[..|files| - 1], files[|files| - 1];
      StreamReceived(terms, init, results);
      var r := Received(terms, Fresh(results), Stream(init, terms.tokens));
      ReceivedAppend(terms, Fresh(results), Stream(init, terms.tokens), FileMessages(last, terms.tokens));
      OneFile(terms, r, last);
      BetweenStep(terms, files, results, r);
    }
  }

  lemma BetweenStep(terms: Terms, files: seq<Outgoing>, results: seq<bool>, r: Receiver)
    requires files != [] && Between(terms, files[..|files| - 1], results, r)
    ensures Between(terms, files, results, AfterFile(terms, r, files[|files| - 1]))
  {
    var init, last := files[..|files| - 1], files[|files| - 1];
    ClosedStaysBetween(terms, init, results, r);
    if last.id !in terms.tokens {
      assert r.errors + [] == r.errors;
    } else if Opens(terms, last) {
      OpenedStaysBetween(terms, files, results, r);
    }
  }

  lemma OpenedStaysBetween(terms: Terms, files: seq<Outgoing>, results: seq<bool>, r: Receiver)
    requires files != [] && Between(terms, files[..|files| - 1], results, r) && Opens(terms, files[|files| - 1])
    ensures Between(terms, files, results, AfterFile(terms, r, files[|files| - 1]))
  {
    var init, last := files[..|files| - 1], files[|files| - 1];
    var end := AfterFile(terms, r, last);
    ClosedStaysBetween(terms, init, results, r);
    assert end.deliveries == Deliveries(terms, files) && |Deliveries(terms, init)| == |end.deliveries| - 1;
    assert end.answers == Closed(r).answers == Answers(terms, init, results);
    assert Closed(end).answers == Answers(terms, files, results);
    assert end.errors == StreamErrors(terms, files);
  }

  lemma ClosedStaysBetween(terms: Terms, files: seq<Outgoing>, results: seq<bool>, r: Receiver)
    requires Between(terms, files, results, r)
    ensures var c := Closed(r);
      && c.open.None? && c.status.Receiving? && c.deliveries == r.deliveries
      && c.results == (if |c.answers| <= |results| then results[|c.answers|..] else [])
      && Verdict(c.results, 0) == Verdict(results, |c.answers|)
  {
  }

  /**
   End to end, for every list of files, every split of their bytes, and every
   verdict of the application: each selected and declared file is delivered in
   order with exactly the leading chunks that fit its declared size, each file
   received in full is answered exactly once, every file without a declared size, every
   file that exceeds it and every chunk behind that is reported, and the loop stops at the
   final delimiter if and only if the last selected file was received in full.
   */
  lemma StreamOutcome(terms: Terms, files: seq<Outgoing>, results: seq<bool>)
    ensures var r := Received(terms, Fresh(results), Stream(files, terms.tokens) + [Text(Delimiter)]);
      && r.deliveries == Deliveries(terms, files)
      && r.answers == Answers(terms, files, results)
      && r.errors == StreamErrors(terms, files)
      && r.status == (if EndsOpen(terms, files) then Completed else ProtocolError)
  {
    StreamReceived(terms, files, results);
    ReceivedAppend(terms, Fresh(results), Stream(files, terms.tokens), [Text(Delimiter)]);
    ReceivedOne(terms, Received(terms, Fresh(results), Stream(files, terms.tokens)), Text(Delimiter));
  }

  /** The selected files, in the order they are sent. */
  function SelectedFiles(files: seq<Outgoing>, tokens: map<FileId, FileToken>): seq<Outgoing> {
    if files == [] then []
    else
      var last := files[|files| - 1];
      SelectedFiles(files[..|files| - 1], tokens) + if last.id in tokens then [last] else []
  }

  /** Delivered and answered as selected, file by file. */
  ghost predicate DeliveredAll(selected: seq<Outgoing>, deliveries: seq<Delivery>, answers: seq<Answer>, results: seq<bool>) {
    && |deliveries| == |answers| == |selected|
    && forall k :: 0 <= k < |selected| ==>
         && deliveries[k].id == selected[k].id && Concat(deliveries[k].chunks) == Content(selected[k])
         && answers[k] == Answer(k, selected[k].id, Verdict(results, k))
  }

  lemma {:induction false} AllDelivered(terms: Terms, files: seq<Outgoing>, results: seq<bool>)
    requires forall i :: 0 <= i < |files| && files[i].id in terms.tokens ==> Fits(terms, files[i])
    ensures DeliveredAll(SelectedFiles(files, terms.tokens), Deliveries(terms, files), Answers(terms, files, results), results)
    ensures EndsOpen(terms, files) <==> SelectedFiles(files, terms.tokens) != []
  {
    if files != [] {
      var init, last := files[..|files| - 1], files[|files| - 1];
      assert forall i :: 0 <= i < |init| ==> init[i] == files[i];
      AllDelivered(terms, init, results);
      if last.id in terms.tokens {
        assert Fits(terms, files[|files| - 1]);
        FitsWhole(terms, last);
      }
    }
  }

  lemma {:induction false} NothingReported(terms: Terms, files: seq<Outgoing>)
    requires forall i :: 0 <= i < |files| && files[i].id in terms.tokens ==> Fits(terms, files[i])
    ensures StreamErrors(terms, files) == []
  {
    if files != [] {
      var init, last := files[..|files| - 1], files[|files| - 1];
      assert forall i :: 0 <= i < |init| ==> init[i] == files[i];
      NothingReported(terms, init);
      if last.id in terms.tokens {
        assert Fits(terms, files[|files| - 1]);
        FitsWhole(terms, last);
      }
    }
  }

  lemma FitsWhole(terms: Terms, file: Outgoing)
    requires Fits(terms, file)
    ensures Concat(FittingPrefix(Chunks(Content(file)), DeclaredSize(terms.declared, file.id).value)) == Content(file)
    ensures FileErrors(terms, file) == []
  {
    var chunks, size := Chunks(Content(file)), DeclaredSize(terms.declared, file.id).value;
    ConcatChunks(Content(file));
    AllFit(chunks, size);
    assert FittingPrefix(chunks, size) == chunks;
    assert ChunkErrors(OpenFile(file.id, size, 0), chunks) == [];
  }

  /**
   When every selected file has a declared size that its bytes respect, the
   application gets exactly the bytes of every selected file, in order, and one
   answer is sent per file. The loop ends at the delimiter if and only if a file
   was sent at all: an empty selection makes the receiver fail on the delimiter.
   */
  lemma FilesAreDelivered(terms: Terms, files: seq<Outgoing>, results: seq<bool>)
    requires forall i :: 0 <= i < |files| && files[i].id in terms.tokens ==> Fits(terms, files[i])
    ensures var r := Received(terms, Fresh(results), Stream(files, terms.tokens) + [Text(Delimiter)]);
      var selected := SelectedFiles(files, terms.tokens);
      && |r.deliveries| == |r.answers| == |selected|
      && (forall k :: 0 <= k < |selected| ==>
            && r.deliveries[k].id == selected[k].id
            && Concat(r.deliveries[k].chunks) == Content(selected[k])
            && r.answers[k] == Answer(k, selected[k].id, k < |results| && results[k]))
      && r.errors == [] && (r.status.Completed? <==> selected != [])
  {
    StreamOutcome(terms, files, results);
    AllDelivered(terms, files, results);
    NothingReported(terms, files);
  }

  // ---------------------------------------------------------------------------
  // Which verdict an answer carries
  // ---------------------------------------------------------------------------

  /** The files the receiver opens; the application gives one verdict for each, in this order. */
  function OpenedFiles(terms: Terms, files: seq<Outgoing>): seq<Outgoing> {
    if files == [] then []
    else
      var last := files[|files| - 1];
      OpenedFiles(terms, files[..|files| - 1]) + if Opens(terms, last) then [last] else []
  }

  /** Which of them are received in full, and so answered. */
  function Completions(terms: Terms, files: seq<Outgoing>): seq<nat> {
    if files == [] then []
    else
      var init, last := files[..|files| - 1], files[|files| - 1];
      Completions(terms, init) + if Fits(terms, last) then [|OpenedFiles(terms, init)|] else []
  }

  ghost predicate AllFitBefore(terms: Terms, files: seq<Outgoing>, d: nat) {
    forall i :: 0 <= i < d && i < |OpenedFiles(terms, files)| ==> Fits(terms, OpenedFiles(terms, files)[i])
  }

  lemma {:induction false} AnswersAreCompletions(terms: Terms, files: seq<Outgoing>, results: seq<bool>)
    ensures |Deliveries(terms, files)| == |OpenedFiles(terms, files)|
    ensures |Answers(terms, files, results)| == |Completions(terms, files)|
    ensures forall k :: 0 <= k < |Completions(terms, files)| ==>
              && Answers(terms, files, results)[k].delivery == Completions(terms, files)[k]
              && Answers(terms, files, results)[k].success == Verdict(results, k)
  {
    if files != [] {
      AnswersAreCompletions(terms, files[..|files| - 1], results);
    }
  }

  /** As many files complete as are opened exactly if all of them fit. */
  lemma {:induction false} CompletionsCount(terms: Terms, files: seq<Outgoing>)
    ensures |Completions(terms, files)| <= |OpenedFiles(terms, files)|
    ensures |Completions(terms, files)| == |OpenedFiles(terms, files)| <==> AllFitBefore(terms, files, |OpenedFiles(terms, files)|)
  {
    if files != [] {
      var init, last := files[..|files| - 1], files[|files| - 1];
      CompletionsCount(terms, init);
      var n := |OpenedFiles(terms, init)|;
      assert forall i :: 0 <= i < n ==> OpenedFiles(terms, files)[i] == OpenedFiles(terms, init)[i];
      assert Opens(terms, last) ==> OpenedFiles(terms, files)[n] == last;
    }
  }

  /** The `k`-th completion is of the `k`-th opened file exactly if all opened before it fit. */
  lemma {:induction false} CompletionsShift(terms: Terms, files: seq<Outgoing>, k: nat)
    requires k < |Completions(terms, files)|
    ensures k <= Completions(terms, files)[k] < |OpenedFiles(terms, files)|
    ensures k == Completions(terms, files)[k] <==> AllFitBefore(terms, files, Completions(terms, files)[k])
  {
    var init := files[..|files| - 1];
    CompletionsCount(terms, init);
    assert forall i :: 0 <= i < |OpenedFiles(terms, init)| ==> OpenedFiles(terms, files)[i] == OpenedFiles(terms, init)[i];
    if k < |Completions(terms, init)| {
      CompletionsShift(terms, init, k);
    }
  }

  function StreamEnd(terms: Terms, files: seq<Outgoing>, results: seq<bool>): Receiver {
    Received(terms, Fresh(results), Stream(files, terms.tokens) + [Text(Delimiter)])
  }

  /** The `k`-th answer carries the verdict on the file it names. */
  predicate AnswersItsOwn(terms: Terms, files: seq<Outgoing>, results: seq<bool>, k: nat) {
    var answers := StreamEnd(terms, files, results).answers;
    k < |answers| && answers[k].success == Verdict(results, answers[k].delivery)
  }

  /**
   Verdicts are consumed in the order of the files received in full. So an answer is sure
   to carry the verdict on its own file if and only if no file opened before it exceeded
   its declared size; after one that did, it can report on another file.
   */
  lemma AnswersTheirOwnIff(terms: Terms, files: seq<Outgoing>, k: nat)
    requires k < |Completions(terms, files)|
    ensures (forall results :: AnswersItsOwn(terms, files, results, k)) <==> AllFitBefore(terms, files, Completions(terms, files)[k])
  {
    var d := Completions(terms, files)[k];
    CompletionsShift(terms, files, k);
    forall results ensures AnswersItsOwn(terms, files, results, k) <==> Verdict(results, k) == Verdict(results, d) {
      StreamOutcome(terms, files, results);
      AnswersAreCompletions(terms, files, results);
    }
    if k != d {
      var results := seq(d + 1, i => i == d);
      assert Verdict(results, d) && !Verdict(results, k);
      assert !AnswersItsOwn(terms, files, results, k);
    }
  }

  /** The first file exceeds its size; the second is stored, and reported as failed. */
  lemma AnswerCanMislead()
    ensures var terms := Terms(map[1 := 7, 2 := 8], [FileDto(1, 0), FileDto(2, 1)]);
      StreamEnd(terms, [Outgoing(1, [[0]]), Outgoing(2, [[0]])], [false, true]).answers == [Answer(1, 2, false)]
  {
    var terms := Terms(map[1 := 7, 2 := 8], [FileDto(1, 0), FileDto(2, 1)]);
    var a, b := Outgoing(1, [[0]]), Outgoing(2, [[0]]);
    var results := [false, true];
    ConcatOne([0]);
    assert terms.declared[1..] == [FileDto(2, 1)];
    assert Opens(terms, a) && !Fits(terms, a) && Fits(terms, b);
    assert [a, b][..1] == [a] && [a][..0] == [];
    assert Deliveries(terms, []) == [] && Answers(terms, [], results) == [];
    assert |Deliveries(terms, [a])| == 1 && Answers(terms, [a], results) == [];
    StreamOutcome(terms, [a, b], results);
  }

  /** Nothing was selected: the receiver fails on the delimiter. */
  lemma EmptySelectionFails(terms: Terms, results: seq<bool>)
    ensures StreamEnd(terms, [], results).status.ProtocolError?
  {
    StreamOutcome(terms, [], results);
  }

  // ---------------------------------------------------------------------------
  // Which answers the sender waits for
  // ---------------------------------------------------------------------------

  function AnswerMessages(answers: seq<Answer>): seq<Msg> {
    seq(|answers|, i requires 0 <= i < |answers| => Text(FileResult(answers[i].id, answers[i].success)))
  }

  /**
   The sender closes after one message, so it has read the answer for every file if and only
   if the receiver received at most one file in full.
   */
  lemma SenderHearsAllIff(terms: Terms, files: seq<Outgoing>, results: seq<bool>)
    ensures AfterOne(AnswerMessages(StreamEnd(terms, files, results).answers)) == [] <==> |Completions(terms, files)| <= 1
  {
    StreamOutcome(terms, files, results);
    AnswersAreCompletions(terms, files, results);
  }

  /** Two empty files: the second answer is left unread. */
  lemma AnswerCanGoUnheard(results: seq<bool>)
    ensures var terms := Terms(map[1 := 7, 2 := 8], [FileDto(1, 0), FileDto(2, 0)]);
      AfterOne(AnswerMessages(StreamEnd(terms, [Outgoing(1, []), Outgoing(2, [])], results).answers)) != []
  {
    var terms := Terms(map[1 := 7, 2 := 8], [FileDto(1, 0), FileDto(2, 0)]);
    var a, b := Outgoing(1, []), Outgoing(2, []);
    assert terms.declared[1..] == [FileDto(2, 0)];
    assert Fits(terms, a) && Fits(terms, b);
    assert [a, b][..1] == [a] && [a][..0] == [];
    assert |Completions(terms, [a])| == 1;
    SenderHearsAllIff(terms, [a, b], results);
  }

  // ---------------------------------------------------------------------------
  // The receiver against any message stream
  // ---------------------------------------------------------------------------

  /** The header of a delivery, with the token that was issued for it, is among `msgs`. */
  ghost predicate HeaderSeen(terms: Terms, msgs: seq<Msg>, id: FileId) {
    && id in terms.tokens && DeclaredSize(terms.declared, id).Some?
    && exists i :: 0 <= i < |msgs| && msgs[i] == Text(FileHeader(id, terms.tokens[id]))
  }

  /** The delivery was announced properly and stays within its declared size. */
  ghost predicate DeliverySafe(terms: Terms, msgs: seq<Msg>, d: Delivery) {
    HeaderSeen(terms, msgs, d.id) && Total(d.chunks) <= DeclaredSize(terms.declared, d.id).value
  }

  /** The open file is the last delivery, and its counter is exact. */
  ghost predicate OpenExact(terms: Terms, r: Receiver) {
    r.open.Some? ==>
      && r.deliveries != []
      && var last := r.deliveries[|r.deliveries| - 1];
         && last.id == r.open.value.id
         && Total(last.chunks) == r.open.value.received <= r.open.value.size
         && DeclaredSize(terms.declared, last.id) == Some(r.open.value.size)
  }

  /** Answers are about opened files, in order, none twice, none about the open one. */
  ghost predicate AnswersSafe(r: Receiver) {
    && (forall k :: 0 <= k < |r.answers| ==>
          && r.answers[k].delivery < |r.deliveries|
          && r.answers[k].id == r.deliveries[r.answers[k].delivery].id
          && (r.open.Some? ==> r.answers[k].delivery < |r.deliveries| - 1))
    && (forall k, l :: 0 <= k < l < |r.answers| ==> r.answers[k].delivery < r.answers[l].delivery)
  }

  ghost predicate DeliveriesSafe(terms: Terms, msgs: seq<Msg>, deliveries: seq<Delivery>) {
    forall d {:trigger DeliverySafe(terms, msgs, d)} :: d in deliveries ==> DeliverySafe(terms, msgs, d)
  }

  ghost predicate Safe(terms: Terms, msgs: seq<Msg>, r: Receiver) {
    DeliveriesSafe(terms, msgs, r.deliveries) && OpenExact(terms, r) && AnswersSafe(r)
  }

  lemma SeenLater(terms: Terms, msgs: seq<Msg>, msg: Msg, id: FileId)
    requires HeaderSeen(terms, msgs, id)
    ensures HeaderSeen(terms, msgs + [msg], id)
  {
    var i :| 0 <= i < |msgs| && msgs[i] == Text(FileHeader(id, terms.tokens[id]));
    assert (msgs + [msg])[i] == msgs[i];
  }

  /** More messages do not unsee a header. */
  lemma SafeLater(terms: Terms, msgs: seq<Msg>, msg: Msg, deliveries: seq<Delivery>)
    requires DeliveriesSafe(terms, msgs, deliveries)
    ensures DeliveriesSafe(terms, msgs + [msg], deliveries)
  {
    forall d | d in deliveries ensures DeliverySafe(terms, msgs + [msg], d) {
      assert DeliverySafe(terms, msgs, d);
      SeenLater(terms, msgs, msg, d.id);
    }
  }

  lemma ClosedIsSafe(terms: Terms, r: Receiver)
    requires OpenExact(terms, r) && AnswersSafe(r)
    ensures AnswersSafe(Closed(r)) && Closed(r).open.None? && Closed(r).deliveries == r.deliveries
  {
  }

  /** Opening a file that was announced by the last message. */
  lemma OpenedIsSafe(terms: Terms, msgs: seq<Msg>, c: Receiver, id: FileId, size: nat)
    requires DeliveriesSafe(terms, msgs, c.deliveries) && AnswersSafe(c) && c.open.None?
    requires id in terms.tokens && DeclaredSize(terms.declared, id) == Some(size)
    requires msgs != [] && msgs[|msgs| - 1] == Text(FileHeader(id, terms.tokens[id]))
    ensures Safe(terms, msgs, c.(open := Some(OpenFile(id, size, 0)), deliveries := c.deliveries + [Delivery(id, [])]))
  {
    var r := c.(open := Some(OpenFile(id, size, 0)), deliveries := c.deliveries + [Delivery(id, [])]);
    forall d | d in r.deliveries ensures DeliverySafe(terms, msgs, d) {
      if d !in c.deliveries {
        assert d == Delivery(id, []);
      }
    }
  }

  lemma TextIsSafe(terms: Terms, msgs: seq<Msg>, r: Receiver, said: Said)
    requires Safe(terms, msgs, r)
    ensures Safe(terms, msgs + [Text(said)], OnText(terms, r, said))
  {
    ClosedIsSafe(terms, r);
    SafeLater(terms, msgs, Text(said), r.deliveries);
    var c := Closed(r);
    if OnText(terms, r, said).deliveries != c.deliveries {
      OpenedIsSafe(terms, msgs + [Text(said)], c, said.id, DeclaredSize(terms.declared, said.id).value);
    }
  }

  /** One more chunk for the open file. */
  lemma ForwardedIsSafe(terms: Terms, msgs: seq<Msg>, r: Receiver, data: Bytes)
    requires Safe(terms, msgs, r) && r.open.Some? && r.open.value.received + |data| <= r.open.value.size
    ensures Safe(terms, msgs, OnBinary(r, data))
  {
    var last := r.deliveries[|r.deliveries| - 1];
    ConcatAppend(last.chunks, [data]);
    ConcatOne(data);
    assert DeliverySafe(terms, msgs, last);
    var longer := last.(chunks := last.chunks + [data]);
    assert Total(longer.chunks) == r.open.value.received + |data|;
    var t := OnBinary(r, data);
    assert t.deliveries == r.deliveries[..|r.deliveries| - 1] + [longer];
    forall d | d in t.deliveries ensures DeliverySafe(terms, msgs, d) {
      if d != longer {
        assert d in r.deliveries;
        assert DeliverySafe(terms, msgs, d);
      }
    }
  }

  lemma BinaryIsSafe(terms: Terms, msgs: seq<Msg>, r: Receiver, data: Bytes)
    requires Safe(terms, msgs, r)
    ensures Safe(terms, msgs + [Binary(data)], OnBinary(r, data))
  {
    SafeLater(terms, msgs, Binary(data), r.deliveries);
    if r.open.Some? && r.open.value.received + |data| <= r.open.value.size {
      ForwardedIsSafe(terms, msgs + [Binary(data)], r, data);
    }
  }

  /**
   Whatever arrives: bytes are forwarded only after a header with an issued id and
   token, never more than declared, the counter is exact, and every opened file is
   answered at most once.
   */
  lemma {:induction false} ReceiverIsSafe(terms: Terms, msgs: seq<Msg>, results: seq<bool>)
    ensures Safe(terms, msgs, Received(terms, Fresh(results), msgs))
  {
    if msgs != [] {
      var init, last := msgs[..|msgs| - 1], msgs[|msgs| - 1];
      assert init + [last] == msgs;
      ReceiverIsSafe(terms, init, results);
      var r := Received(terms, Fresh(results), init);
      ReceivedLast(terms, Fresh(results), msgs);
      if r.status.Receiving? {
        match last
        case Text(said) => TextIsSafe(terms, init, r, said);
        case Binary(data) => BinaryIsSafe(terms, init, r, data);
      } else {
        SafeLater(terms, init, last, r.deliveries);
      }
    }
  }

  // ---------------------------------------------------------------------------
  // When the loop ends
  // ---------------------------------------------------------------------------

  predicate IsHeader(msg: Msg) {
    msg.Text? && msg.text.FileHeader?
  }

  /**
   The loop goes on for as long as headers and chunks arrive, whatever is wrong with them. The
   first other message ends it: well if it is the delimiter and a file is open, and as an error
   if not.
   */
  lemma {:induction false} LoopEndsIff(terms: Terms, msgs: seq<Msg>, results: seq<bool>)
    ensures var r := Received(terms, Fresh(results), msgs);
      && (r.status.Receiving? <==> forall i :: 0 <= i < |msgs| ==> msgs[i].Binary? || IsHeader(msgs[i]))
      && (r.status.Completed? ==> Text(Delimiter) in msgs)
  {
    if msgs != [] {
      var init := msgs[..|msgs| - 1];
      assert init + [msgs[|msgs| - 1]] == msgs;
      LoopEndsIff(terms, init, results);
      ReceivedLast(terms, Fresh(results), msgs);
    }
  }

  /** With which status. */
  lemma LoopEndsAs(terms: Terms, msgs: seq<Msg>, results: seq<bool>, said: Said, more: seq<Msg>)
    requires Received(terms, Fresh(results), msgs).status.Receiving? && !said.FileHeader?
    ensures var before, after := Received(terms, Fresh(results), msgs), Received(terms, Fresh(results), msgs + [Text(said)] + more);
      after.status == if said.Delimiter? && before.open.Some? then Completed else ProtocolError
  {
    assert (msgs + [Text(said)])[..|msgs|] == msgs;
    ReceivedLast(terms, Fresh(results), msgs + [Text(said)]);
    EndIgnores(terms, Fresh(results), msgs + [Text(said)], more);
  }

  // ---------------------------------------------------------------------------
  // Nothing is refused in silence
  // ---------------------------------------------------------------------------

  function Headers(msgs: seq<Msg>): nat {
    if msgs == [] then 0
    else
      var last := msgs[|msgs| - 1];
      Headers(msgs[..|msgs| - 1]) + if last.Text? && last.text.FileHeader? then 1 else 0
  }

  function BinaryCount(msgs: seq<Msg>): nat {
    if msgs == [] then 0 else BinaryCount(msgs[..|msgs| - 1]) + if msgs[|msgs| - 1].Binary? then 1 else 0
  }

  function ForwardedCount(deliveries: seq<Delivery>): nat {
    if deliveries == [] then 0
    else ForwardedCount(deliveries[..|deliveries| - 1]) + |deliveries[|deliveries| - 1].chunks|
  }

  /** The report is about a chunk, not about a header. */
  predicate IsAboutChunk(e: TransferError) {
    e.NoHeader? || e.TooManyBytes?
  }

  function ChunkReports(errors: seq<TransferError>): nat {
    if errors == [] then 0
    else ChunkReports(errors[..|errors| - 1]) + if IsAboutChunk(errors[|errors| - 1]) then 1 else 0
  }

  /** Every header has opened a delivery or is reported, every chunk was forwarded or is reported. */
  ghost predicate Balanced(msgs: seq<Msg>, r: Receiver) {
    && |r.deliveries| + |r.errors| == Headers(msgs) + ChunkReports(r.errors)
    && ForwardedCount(r.deliveries) + ChunkReports(r.errors) == BinaryCount(msgs)
  }

  lemma OneMoreReport(errors: seq<TransferError>, e: TransferError)
    ensures ChunkReports(errors + [e]) == ChunkReports(errors) + if IsAboutChunk(e) then 1 else 0
  {
    assert (errors + [e])[..|errors|] == errors;
  }

  lemma OneMoreForwarded(deliveries: seq<Delivery>, data: Bytes)
    ensures deliveries != [] ==> ForwardedCount(Forwarded(deliveries, data)) == ForwardedCount(deliveries) + 1
    ensures forall id :: ForwardedCount(deliveries + [Delivery(id, [])]) == ForwardedCount(deliveries)
  {
    if deliveries != [] {
      var front := deliveries[..|deliveries| - 1];
      assert Forwarded(deliveries, data)[..|front|] == front;
    }
    forall id ensures ForwardedCount(deliveries + [Delivery(id, [])]) == ForwardedCount(deliveries) {
      assert (deliveries + [Delivery(id, [])])[..|deliveries|] == deliveries;
    }
  }

  /** A header opens a delivery or is reported. */
  lemma HeaderOpensOrIsReported(terms: Terms, r: Receiver, said: Said) returns (added: seq<Delivery>, reported: seq<TransferError>)
    requires r.status.Receiving? && OnText(terms, r, said).status.Receiving?
    ensures said.FileHeader?
    ensures OnText(terms, r, said).deliveries == r.deliveries + added && OnText(terms, r, said).errors == r.errors + reported
    ensures (added == [Delivery(said.id, [])] && reported == []) || (added == [] && |reported| == 1 && !IsAboutChunk(reported[0]))
  {
    var t := OnText(terms, r, said);
    if t.errors == r.errors {
      added, reported := [Delivery(said.id, [])], [];
    } else {
      added, reported := [], [t.errors[|r.errors|]];
    }
  }

  lemma TextBalanced(terms: Terms, msgs: seq<Msg>, r: Receiver, said: Said)
    requires Balanced(msgs, r) && r.status.Receiving? && OnText(terms, r, said).status.Receiving?
    ensures Balanced(msgs + [Text(said)], OnText(terms, r, said))
  {
    assert (msgs + [Text(said)])[..|msgs|] == msgs;
    var added, reported := HeaderOpensOrIsReported(terms, r, said);
    if added == [] {
      assert r.deliveries + added == r.deliveries && r.errors + reported == r.errors + [reported[0]];
      OneMoreReport(r.errors, reported[0]);
    } else {
      assert r.errors + reported == r.errors;
      OneMoreForwarded(r.deliveries, []);
    }
  }

  lemma BinaryBalanced(terms: Terms, msgs: seq<Msg>, r: Receiver, data: Bytes)
    requires Balanced(msgs, r) && OpenExact(terms, r)
    ensures Balanced(msgs + [Binary(data)], OnBinary(r, data))
  {
    assert (msgs + [Binary(data)])[..|msgs|] == msgs;
    OneMoreForwarded(r.deliveries, data);
    var after := OnBinary(r, data).errors;
    if after != r.errors {
      OneMoreReport(r.errors, after[|r.errors|]);
    }
  }

  /**
   Whatever arrives, for as long as the loop runs: every header opens a delivery or is
   reported, and every chunk is forwarded or reported.
   */
  lemma {:induction false} NothingIsRefusedInSilence(terms: Terms, msgs: seq<Msg>, results: seq<bool>)
    requires Received(terms, Fresh(results), msgs).status.Receiving?
    ensures Balanced(msgs, Received(terms, Fresh(results), msgs))
  {
    if msgs != [] {
      var init, last := msgs[..|msgs| - 1], msgs[|msgs| - 1];
      assert init + [last] == msgs;
      ReceivedLast(terms, Fresh(results), msgs);
      NothingIsRefusedInSilence(terms, init, results);
      ReceiverIsSafe(terms, init, results);
      var r := Received(terms, Fresh(results), init);
      match last
      case Text(said) => TextBalanced(terms, init, r, said);
      case Binary(data) => BinaryBalanced(terms, init, r, data);
    }
  }

  /** A header for `id` with this token is among `msgs`. */
  ghost predicate HasHeader(msgs: seq<Msg>, id: FileId, token: FileToken) {
    exists i :: 0 <= i < |msgs| && msgs[i] == Text(FileHeader(id, token))
  }

  ghost predicate HasBinary(msgs: seq<Msg>) {
    exists i :: 0 <= i < |msgs| && msgs[i].Binary?
  }

  /** What a report says is so. */
  ghost predicate ReportTrue(terms: Terms, msgs: seq<Msg>, e: TransferError) {
    match e
    case FileNotFound(id) => id !in terms.tokens && exists token :: HasHeader(msgs, id, token)
    case InvalidToken(id) => id in terms.tokens && exists token :: token != terms.tokens[id] && HasHeader(msgs, id, token)
    case NoSize(id) => HasHeaderIssued(terms, msgs, id) && DeclaredSize(terms.declared, id).None?
    case TooManyBytes(id, received) =>
      HasHeaderIssued(terms, msgs, id) && DeclaredSize(terms.declared, id).Some? && DeclaredSize(terms.declared, id).value < received
    case NoHeader => HasBinary(msgs)
  }

  ghost predicate HasHeaderIssued(terms: Terms, msgs: seq<Msg>, id: FileId) {
    id in terms.tokens && HasHeader(msgs, id, terms.tokens[id])
  }

  ghost predicate ReportsTrue(terms: Terms, msgs: seq<Msg>, errors: seq<TransferError>) {
    forall k :: 0 <= k < |errors| ==> ReportTrue(terms, msgs, errors[k])
  }

  lemma TrueLater(terms: Terms, msgs: seq<Msg>, msg: Msg, e: TransferError)
    requires ReportTrue(terms, msgs, e)
    ensures ReportTrue(terms, msgs + [msg], e)
  {
    forall id, token | HasHeader(msgs, id, token) ensures HasHeader(msgs + [msg], id, token) {
      var i :| 0 <= i < |msgs| && msgs[i] == Text(FileHeader(id, token));
      assert (msgs + [msg])[i] == msgs[i];
    }
    if HasBinary(msgs) {
      var i :| 0 <= i < |msgs| && msgs[i].Binary?;
      assert (msgs + [msg])[i] == msgs[i];
    }
  }

  lemma NewReportTrue(terms: Terms, msgs: seq<Msg>, r: Receiver, msg: Msg)
    requires r.status.Receiving? && Safe(terms, msgs, r)
    ensures var after := OnMessage(terms, r, msg).errors;
      after == r.errors || (|after| > 0 && after == r.errors + [after[|after| - 1]] && ReportTrue(terms, msgs + [msg], after[|after| - 1]))
  {
    assert (msgs + [msg])[|msgs|] == msg;
    match msg
    case Text(said) => assert said.FileHeader? ==> HasHeader(msgs + [msg], said.id, said.token);
    case Binary(data) =>
      assert HasBinary(msgs + [msg]);
      if r.open.Some? {
        var last := r.deliveries[|r.deliveries| - 1];
        assert DeliverySafe(terms, msgs, last);
        SeenLater(terms, msgs, msg, last.id);
      }
  }

  /** Whatever arrives, every report is about a header or a chunk that did arrive, and says what is wrong with it. */
  lemma {:induction false} ReportsAreTrue(terms: Terms, msgs: seq<Msg>, results: seq<bool>)
    ensures ReportsTrue(terms, msgs, Received(terms, Fresh(results), msgs).errors)
  {
    if msgs != [] {
      var init, last := msgs[..|msgs| - 1], msgs[|msgs| - 1];
      assert init + [last] == msgs;
      var r := Received(terms, Fresh(results), init);
      ReceivedLast(terms, Fresh(results), msgs);
      ReportsAreTrue(terms, init, results);
      ReceiverIsSafe(terms, init, results);
      forall k | 0 <= k < |r.errors| ensures ReportTrue(terms, msgs, r.errors[k]) {
        TrueLater(terms, init, last, r.errors[k]);
      }
      if r.status.Receiving? {
        NewReportTrue(terms, init, r, last);
      }
    }
  }
}
