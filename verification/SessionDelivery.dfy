/** A whole WebRTC session: handshake, selection and file phase together. */
module SessionDelivery {
  import opened Chunking
  import opened WebRtcMessages
  import opened FileTransfer
  import opened FileDelivery
  import Handshake
  import HandshakeInvariant
  import HandshakeTheorems

  /** The file was offered, with at least its true size. */
  predicate IsOffered(declared: seq<FileDto>, file: Outgoing) {
    DeclaredSize(declared, file.id).Some? && |Content(file)| <= DeclaredSize(declared, file.id).value
  }

  /**
   Whenever a joint run has brought the sender to its file phase, with all messages read,
   the receiver's loop, fed with what the sender goes on to send, delivers the bytes of
   every file the receiving user selected, in the order they are sent, and answers once
   for each. The files can be sent in any order and be shorter than declared.
   */
  lemma SessionDelivers(t: Handshake.Setup, steps: seq<Handshake.JointStep>, files: seq<Outgoing>, results: seq<bool>)
    requires HandshakeInvariant.Proper(t)
    requires HandshakeTheorems.Idle(Handshake.JRun(t, steps)) && Handshake.JRun(t, steps).s.SSending?
    requires forall i :: 0 <= i < |files| && files[i].id in Handshake.JRun(t, steps).s.tokens ==> IsOffered(t.files, files[i])
    ensures var j := Handshake.JRun(t, steps);
      && j.r.RReceiving?
      && var r := Received(Terms(j.r.tokens, j.r.files), Fresh(results), Stream(files, j.s.tokens) + [Text(Delimiter)]);
         var selected := SelectedFiles(files, j.r.tokens);
         && |r.deliveries| == |r.answers| == |selected|
         && (forall k :: 0 <= k < |selected| ==>
               && r.deliveries[k].id == selected[k].id && Concat(r.deliveries[k].chunks) == Content(selected[k])
               && r.answers[k] == Answer(k, selected[k].id, k < |results| && results[k]))
         && r.errors == [] && (r.status.Completed? <==> exists i :: 0 <= i < |files| && files[i].id in j.r.tokens)
  {
    HandshakeTheorems.RunsEndAlikeIff(t, steps);
    var j := Handshake.JRun(t, steps);
    assert j.r == Handshake.RReceiving(HandshakeInvariant.CommonNonce(t), j.s.tokens, t.files);
    var terms := Terms(j.r.tokens, j.r.files);
    assert forall i :: 0 <= i < |files| && files[i].id in terms.tokens ==> Fits(terms, files[i]);
    FilesAreDelivered(terms, files, results);
    SomeSelected(files, j.r.tokens);
  }

  lemma {:induction false} SomeSelected(files: seq<Outgoing>, tokens: map<FileId, FileToken>)
    ensures SelectedFiles(files, tokens) != [] <==> exists i :: 0 <= i < |files| && files[i].id in tokens
  {
    if files != [] {
      var front := files[..|files| - 1];
      SomeSelected(front, tokens);
      if i :| 0 <= i < |front| && front[i].id in tokens {
        assert files[i].id in tokens;
      }
      if files[|files| - 1].id !in tokens {
        if i :| 0 <= i < |files| && files[i].id in tokens {
          assert front[i].id in tokens;
        }
      }
    }
  }
}
