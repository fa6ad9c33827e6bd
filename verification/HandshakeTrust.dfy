/**
 Each WebRTC side on its own, against a peer that sends whatever it likes: which messages
 get the peer past the token check and the PIN.
 */
module HandshakeTrust {
  import opened Wrappers
  import opened Chunking
  import opened WebRtcMessages
  import opened PinChallenge
  import opened Handshake

  /** The peer sends a message, or the side itself takes a step. */
  datatype Move = Sends(msg: Msg) | Takes(step: JointStep)

  /** What the peer has sent so far. */
  function SentBy(moves: seq<Move>): seq<Msg> {
    if moves == [] then []
    else SentBy(moves[..|moves| - 1]) + if moves[|moves| - 1].Sends? then [moves[|moves| - 1].msg] else []
  }

  // ---------------------------------------------------------------------------
  // What a side asks of its peer
  // ---------------------------------------------------------------------------

  /** The peer's nonce, of an allowed length, was its first message. */
  predicate NonceHeard(sent: seq<Msg>, nonce: Bytes) {
    sent != [] && sent[0] == Text(Nonce(nonce)) && 16 <= |nonce| <= 128
  }

  /** The token is the expected key's signature over this very nonce, if a key is expected. */
  predicate Proves(expects: Option<Key>, token: SignedToken, nonce: Bytes) {
    expects.Some? ==> token.key == expects.value && token.nonce == nonce
  }

  predicate IsPin(sent: seq<Msg>, k: nat, pin: string) {
    k < |sent| && sent[k] == Text(Pin(pin))
  }

  /** The messages from position `from` on are `tries` wrong PINs. */
  predicate WrongPins(cfg: PinConfig, sent: seq<Msg>, from: nat, tries: nat) {
    && from + tries <= |sent|
    && forall k :: from <= k < from + tries ==> sent[k].Text? && sent[k].text.Pin? && sent[k].text.pin != cfg.pin
  }

  /** From position `from` on there are fewer wrong PINs than tries, and then the right one. */
  ghost predicate PinSolved(cfg: PinConfig, sent: seq<Msg>, from: nat) {
    exists tries: nat :: tries < cfg.maxTries as int && WrongPins(cfg, sent, from, tries) && IsPin(sent, from + tries, cfg.pin)
  }

  /** The messages from position `from` up to `to` are chunks. */
  predicate AreChunks(sent: seq<Msg>, from: nat, to: nat) {
    from <= to <= |sent| && forall k :: from <= k < to ==> sent[k].Binary?
  }

  function DataOf(sent: seq<Msg>, from: nat, to: nat): Bytes
    requires AreChunks(sent, from, to)
  {
    if from == to then [] else DataOf(sent, from, to - 1) + sent[to - 1].data
  }

  /** The chunks that end at position `to` hold the bytes of `buffer`. */
  ghost predicate Buffered(sent: seq<Msg>, to: nat, buffer: Bytes) {
    exists from: nat :: 2 <= from && AreChunks(sent, from, to) && buffer == DataOf(sent, from, to)
  }

  /** A delimited string with these bytes was read before position `to`. */
  ghost predicate Framed(sent: seq<Msg>, to: nat, payload: Bytes) {
    exists end: nat :: end < to <= |sent| && sent[end].Text? && Buffered(sent, end, payload)
  }

  lemma {:induction false} SameData(a: seq<Msg>, b: seq<Msg>, from: nat, to: nat)
    requires AreChunks(a, from, to) && AreChunks(b, from, to) && forall k :: from <= k < to ==> a[k] == b[k]
    ensures DataOf(a, from, to) == DataOf(b, from, to)
  {
    if from < to {
      SameData(a, b, from, to - 1);
    }
  }

  lemma BufferedMore(sent: seq<Msg>, msg: Msg, to: nat, buffer: Bytes)
    requires Buffered(sent, to, buffer)
    ensures Buffered(sent + [msg], to, buffer)
  {
    var from: nat :| 2 <= from && AreChunks(sent, from, to) && buffer == DataOf(sent, from, to);
    assert AreChunks(sent + [msg], from, to);
    SameData(sent, sent + [msg], from, to);
  }

  lemma FramedMore(sent: seq<Msg>, msg: Msg, to: nat, payload: Bytes)
    requires Framed(sent, to, payload)
    ensures Framed(sent + [msg], to, payload)
  {
    var end: nat :| end < to <= |sent| && sent[end].Text? && Buffered(sent, end, payload);
    BufferedMore(sent, msg, end, payload);
  }

  lemma BufferedNext(sent: seq<Msg>, to: nat, buffer: Bytes)
    requires Buffered(sent, to, buffer) && to < |sent| && sent[to].Binary?
    ensures Buffered(sent, to + 1, buffer + sent[to].data)
  {
    var from: nat :| 2 <= from && AreChunks(sent, from, to) && buffer == DataOf(sent, from, to);
    assert AreChunks(sent, from, to + 1);
  }

  lemma NothingBuffered(sent: seq<Msg>, to: nat)
    requires 2 <= to <= |sent|
    ensures Buffered(sent, to, [])
  {
    assert AreChunks(sent, to, to);
  }

  /** The queue holds what was sent and not read yet. */
  predicate InOrder(sent: seq<Msg>, queue: seq<Msg>) {
    |queue| <= |sent| && sent[|sent| - |queue|..] == queue
  }

  // ---------------------------------------------------------------------------
  // The receiver
  // ---------------------------------------------------------------------------

  predicate IsReceiverStep(step: JointStep) {
    step.FlushReceiver? || step.ReceiverRead? || step.ReceiverEnters? || step.ReceiverSelects?
    || step.ReceiverDeclines? || step.ReceiverAbandons?
  }

  function ReceiverMove(t: Setup, j: Joint, move: Move): Joint {
    match move
    case Sends(msg) => j.(toR := j.toR + [msg])
    case Takes(step) => if IsReceiverStep(step) then JStep(t, j, step) else j
  }

  /** The receiver of `t`, after moves of its own and of its peer. */
  function ReceiverAlone(t: Setup, moves: seq<Move>): Joint {
    if moves == [] then Begin(t) else ReceiverMove(t, ReceiverAlone(t, moves[..|moves| - 1]), moves[|moves| - 1])
  }

  /** The peer's second message is the token request, and the token proves the expected key. */
  predicate RequestProven(t: Setup, sent: seq<Msg>, nonce: Chunking.Bytes) {
    && |sent| >= 2 && sent[0].Text? && sent[0].text.Nonce? && NonceHeard(sent, sent[0].text.nonce)
    && nonce == sent[0].text.nonce + t.receiver.nonce
    && sent[1].Text? && sent[1].text.TokenRequest? && Proves(t.receiver.expects, sent[1].text.signed, nonce)
  }

  ghost predicate ReceiverPinSolved(t: Setup, sent: seq<Msg>) {
    t.receiver.pin.Some? && t.receiver.pin.value.pin != "" ==> PinSolved(t.receiver.pin.value, sent, 2)
  }

  /** The receiver has got past its own challenge. */
  predicate LetIn(pc: ReceiverPc) {
    pc.RAwaitStatus? || pc.RPrompt? || pc.RAwaitPinStatus? || pc.RSelecting? || pc.RReceiving?
  }

  ghost predicate ReceiverHeard(t: Setup, sent: seq<Msg>, j: Joint) {
    && InOrder(sent, j.toR)
    && var n := |sent| - |j.toR|;
    match j.r
    case RAwaitNonce => n == 0
    case RAwaitToken(nonce) => n == 1 && sent[0].Text? && sent[0].text.Nonce? && NonceHeard(sent, sent[0].text.nonce)
                               && nonce == sent[0].text.nonce + t.receiver.nonce
    case RVerify(nonce, tries) =>
      && RequestProven(t, sent, nonce) && t.receiver.pin.Some? && tries < t.receiver.pin.value.maxTries as int
      && n == 2 + tries && WrongPins(t.receiver.pin.value, sent, 2, tries)
    case RStopped(_) => true
    case _ => n >= 2 && RequestProven(t, sent, j.r.nonce) && ReceiverPinSolved(t, sent) && OfferHeard(t, sent, n, j.r)
  }

  /** The files to select from are those of a delimited offer of the peer. */
  ghost predicate OfferHeard(t: Setup, sent: seq<Msg>, n: nat, pc: ReceiverPc) {
    match pc
    case RAwaitStatus(_, buffer) => Buffered(sent, n, buffer)
    case RAwaitPinStatus(_, buffer) => Buffered(sent, n, buffer)
    case RSelecting(_, files) => FilesHeard(t, sent, n, files)
    case RReceiving(_, _, files) => FilesHeard(t, sent, n, files)
    case _ => true
  }

  ghost predicate FilesHeard(t: Setup, sent: seq<Msg>, n: nat, files: seq<FileDto>) {
    exists payload :: Framed(sent, n, payload) && t.codec.parseStatus(payload) == Some(FilesOffered(files))
  }

  lemma OfferHeardMore(t: Setup, sent: seq<Msg>, n: nat, pc: ReceiverPc, msg: Msg)
    requires OfferHeard(t, sent, n, pc)
    ensures OfferHeard(t, sent + [msg], n, pc)
  {
    match pc
    case RAwaitStatus(_, buffer) => BufferedMore(sent, msg, n, buffer);
    case RAwaitPinStatus(_, buffer) => BufferedMore(sent, msg, n, buffer);
    case RSelecting(_, files) => FilesHeardMore(t, sent, n, files, msg);
    case RReceiving(_, _, files) => FilesHeardMore(t, sent, n, files, msg);
    case _ =>
  }

  lemma FilesHeardMore(t: Setup, sent: seq<Msg>, n: nat, files: seq<FileDto>, msg: Msg)
    requires FilesHeard(t, sent, n, files)
    ensures FilesHeard(t, sent + [msg], n, files)
  {
    var payload :| Framed(sent, n, payload) && t.codec.parseStatus(payload) == Some(FilesOffered(files));
    FramedMore(sent, msg, n, payload);
  }

  lemma HeardMore(t: Setup, sent: seq<Msg>, j: Joint, msg: Msg)
    requires ReceiverHeard(t, sent, j)
    ensures ReceiverHeard(t, sent + [msg], j.(toR := j.toR + [msg]))
  {
    if LetIn(j.r) {
      OfferHeardMore(t, sent, |sent| - |j.toR|, j.r, msg);
      if t.receiver.pin.Some? && t.receiver.pin.value.pin != "" {
        SolvedMore(t.receiver.pin.value, sent, 2, msg);
      }
    }
  }

  lemma SolvedMore(cfg: PinConfig, sent: seq<Msg>, from: nat, msg: Msg)
    requires PinSolved(cfg, sent, from)
    ensures PinSolved(cfg, sent + [msg], from)
  {
    var tries: nat :| tries < cfg.maxTries as int && WrongPins(cfg, sent, from, tries) && IsPin(sent, from + tries, cfg.pin);
    assert WrongPins(cfg, sent + [msg], from, tries) && IsPin(sent + [msg], from + tries, cfg.pin);
  }

  lemma ReceiverReadsOn(t: Setup, sent: seq<Msg>, j: Joint)
    requires ReceiverHeard(t, sent, j) && j.toR != [] && ReceiverReads(j.r)
    ensures ReceiverHeard(t, sent, j.(r := ReceiverOn(t, j.r, j.toR[0]).0, toR := j.toR[1..]))
  {
    var n := |sent| - |j.toR|;
    assert sent[n] == j.toR[0] && sent[n + 1..] == j.toR[1..];
    if n >= 1 {
      NothingBuffered(sent, n + 1);
    }
    if j.r.RVerify? {
      ReceiverReadsPin(t, sent, j);
    } else if j.r.RAwaitStatus? || j.r.RAwaitPinStatus? {
      OfferRead(t, sent, n, j.r);
    }
  }

  lemma ReceiverReadsPin(t: Setup, sent: seq<Msg>, j: Joint)
    requires ReceiverHeard(t, sent, j) && j.toR != [] && j.r.RVerify?
    ensures ReceiverHeard(t, sent, j.(r := ReceiverOn(t, j.r, j.toR[0]).0, toR := j.toR[1..]))
  {
    var n := |sent| - |j.toR|;
    assert sent[n] == j.toR[0] && sent[n + 1..] == j.toR[1..];
    NothingBuffered(sent, n + 1);
    if IsPin(sent, n, t.receiver.pin.value.pin) {
      assert PinSolved(t.receiver.pin.value, sent, 2);
    }
  }

  lemma OfferRead(t: Setup, sent: seq<Msg>, n: nat, pc: ReceiverPc)
    requires (pc.RAwaitStatus? || pc.RAwaitPinStatus?) && n < |sent| && Buffered(sent, n, pc.buffer)
    ensures OfferHeard(t, sent, n + 1, ReceiverOn(t, pc, sent[n]).0)
  {
    if sent[n].Binary? {
      BufferedNext(sent, n, pc.buffer);
    } else {
      assert Framed(sent, n + 1, pc.buffer);
    }
  }

  lemma ReceiverKeepsHeard(t: Setup, sent: seq<Msg>, j: Joint, step: JointStep)
    requires ReceiverHeard(t, sent, j) && IsReceiverStep(step) && !step.ReceiverRead?
    ensures ReceiverHeard(t, sent, JStep(t, j, step))
  {
    if j.r.RPrompt? {
      NothingBuffered(sent, |sent| - |j.toR|);
    }
  }

  lemma ReceiverMoveHeard(t: Setup, sent: seq<Msg>, j: Joint, move: Move)
    requires ReceiverHeard(t, sent, j)
    ensures ReceiverHeard(t, sent + if move.Sends? then [move.msg] else [], ReceiverMove(t, j, move))
  {
    match move
    case Sends(msg) => HeardMore(t, sent, j, msg);
    case Takes(step) =>
      assert sent + [] == sent;
      if step.ReceiverRead? {
        if j.rOut == [] && j.toR != [] && ReceiverReads(j.r) {
          ReceiverReadsOn(t, sent, j);
        }
      } else if IsReceiverStep(step) {
        ReceiverKeepsHeard(t, sent, j, step);
      }
  }

  lemma {:induction false} ReceiverAlwaysHeard(t: Setup, moves: seq<Move>)
    ensures ReceiverHeard(t, SentBy(moves), ReceiverAlone(t, moves))
  {
    if moves != [] {
      var front := moves[..|moves| - 1];
      ReceiverAlwaysHeard(t, front);
      ReceiverMoveHeard(t, SentBy(front), ReceiverAlone(t, front), moves[|moves| - 1]);
    }
  }

  /**
   Whatever a peer sends, and however the moves interleave: the receiver lets it in only after
   it sent a nonce of an allowed length, then a token of the expected key over that nonce and
   the receiver's own, and then the receiver's PIN, with nothing but wrong PINs before and
   fewer of them than tries. The files it shows are those the peer then offered.
   */
  lemma ReceiverLetsInOnlyProven(t: Setup, moves: seq<Move>)
    ensures var j, sent := ReceiverAlone(t, moves), SentBy(moves);
      && (LetIn(j.r) ==> RequestProven(t, sent, j.r.nonce) && ReceiverPinSolved(t, sent))
      && |j.toR| <= |sent|
      && (j.r.RSelecting? || j.r.RReceiving? ==> FilesHeard(t, sent, |sent| - |j.toR|, j.r.files))
  {
    ReceiverAlwaysHeard(t, moves);
  }

  // ---------------------------------------------------------------------------
  // The sender
  // ---------------------------------------------------------------------------

  predicate IsSenderStep(step: JointStep) {
    step.FlushSender? || step.SenderRead? || step.SenderEnters? || step.SenderAbandons?
  }

  function SenderMove(t: Setup, j: Joint, move: Move): Joint {
    match move
    case Sends(msg) => j.(toS := j.toS + [msg])
    case Takes(step) => if IsSenderStep(step) then JStep(t, j, step) else j
  }

  /** The sender of `t`, after moves of its own and of its peer. */
  function SenderAlone(t: Setup, moves: seq<Move>): Joint {
    if moves == [] then Begin(t) else SenderMove(t, SenderAlone(t, moves[..|moves| - 1]), moves[|moves| - 1])
  }

  /** The peer's second message accepts the sender's token, and its own token proves the expected key. */
  predicate AnswerProven(t: Setup, sent: seq<Msg>, nonce: Bytes) {
    && |sent| >= 2 && sent[0].Text? && sent[0].text.Nonce? && NonceHeard(sent, sent[0].text.nonce)
    && nonce == t.sender.nonce + sent[0].text.nonce
    && sent[1].Text? && sent[1].text.TokenAnswer? && !sent[1].text.response.TokenInvalidSignature?
    && Proves(t.sender.expects, sent[1].text.response.token, nonce)
  }

  ghost predicate SenderPinSolved(t: Setup, sent: seq<Msg>) {
    t.sender.pin.Some? && t.sender.pin.value.pin != "" ==>
      exists from: nat :: 2 <= from && PinSolved(t.sender.pin.value, sent, from)
  }

  /** The sender has offered its files. */
  predicate HasOffered(pc: SenderPc) {
    pc.SAwaitSelection? || pc.SSending?
  }

  ghost predicate TokensHeard(t: Setup, sent: seq<Msg>, n: nat, tokens: map<FileId, FileToken>) {
    exists payload :: Framed(sent, n, payload) && t.codec.parseSelection(payload) == Some(Selected(tokens))
  }

  ghost predicate SelectionHeard(t: Setup, sent: seq<Msg>, n: nat, pc: SenderPc) {
    match pc
    case SAwaitSelection(_, buffer) => Buffered(sent, n, buffer)
    case SSending(_, tokens) => TokensHeard(t, sent, n, tokens)
    case _ => true
  }

  ghost predicate SenderHeard(t: Setup, sent: seq<Msg>, j: Joint) {
    && InOrder(sent, j.toS)
    && var n := |sent| - |j.toS|;
    match j.s
    case SAwaitNonce => n == 0
    case SAwaitToken(nonce) => n == 1 && sent[0].Text? && sent[0].text.Nonce? && NonceHeard(sent, sent[0].text.nonce)
                               && nonce == t.sender.nonce + sent[0].text.nonce
    case SPrompt(nonce) => n >= 2 && AnswerProven(t, sent, nonce)
    case SAwaitPinReply(nonce) => n >= 2 && AnswerProven(t, sent, nonce)
    case SVerify(nonce, tries) =>
      && AnswerProven(t, sent, nonce) && t.sender.pin.Some? && tries < t.sender.pin.value.maxTries as int
      && n >= 2 + tries && WrongPins(t.sender.pin.value, sent, n - tries, tries)
    case SStopped(_) => true
    case _ => n >= 2 && AnswerProven(t, sent, j.s.nonce) && SenderPinSolved(t, sent) && SelectionHeard(t, sent, n, j.s)
  }

  lemma SelectionHeardMore(t: Setup, sent: seq<Msg>, n: nat, pc: SenderPc, msg: Msg)
    requires SelectionHeard(t, sent, n, pc)
    ensures SelectionHeard(t, sent + [msg], n, pc)
  {
    match pc
    case SAwaitSelection(_, buffer) => BufferedMore(sent, msg, n, buffer);
    case SSending(_, tokens) =>
      var payload :| Framed(sent, n, payload) && t.codec.parseSelection(payload) == Some(Selected(tokens));
      FramedMore(sent, msg, n, payload);
    case _ =>
  }

  lemma SenderHeardMore(t: Setup, sent: seq<Msg>, j: Joint, msg: Msg)
    requires SenderHeard(t, sent, j)
    ensures SenderHeard(t, sent + [msg], j.(toS := j.toS + [msg]))
  {
    if HasOffered(j.s) {
      SelectionHeardMore(t, sent, |sent| - |j.toS|, j.s, msg);
      if t.sender.pin.Some? && t.sender.pin.value.pin != "" {
        var from: nat :| 2 <= from && PinSolved(t.sender.pin.value, sent, from);
        SolvedMore(t.sender.pin.value, sent, from, msg);
      }
    }
  }

  lemma SenderReadsOn(t: Setup, sent: seq<Msg>, j: Joint)
    requires SenderHeard(t, sent, j) && j.toS != [] && SenderReads(j.s)
    ensures SenderHeard(t, sent, j.(s := SenderOn(t, j.s, j.toS[0]).0, toS := j.toS[1..]))
  {
    var n := |sent| - |j.toS|;
    assert sent[n] == j.toS[0] && sent[n + 1..] == j.toS[1..];
    if n >= 1 {
      NothingBuffered(sent, n + 1);
    }
    if j.s.SVerify? {
      SenderReadsPin(t, sent, j);
    } else if j.s.SAwaitSelection? {
      SelectionRead(t, sent, n, j.s);
    }
  }

  lemma SenderReadsPin(t: Setup, sent: seq<Msg>, j: Joint)
    requires SenderHeard(t, sent, j) && j.toS != [] && j.s.SVerify?
    ensures SenderHeard(t, sent, j.(s := SenderOn(t, j.s, j.toS[0]).0, toS := j.toS[1..]))
  {
    var n := |sent| - |j.toS|;
    assert sent[n] == j.toS[0] && sent[n + 1..] == j.toS[1..];
    NothingBuffered(sent, n + 1);
    if IsPin(sent, n, t.sender.pin.value.pin) {
      assert PinSolved(t.sender.pin.value, sent, n - j.s.tries);
    }
  }

  lemma SelectionRead(t: Setup, sent: seq<Msg>, n: nat, pc: SenderPc)
    requires pc.SAwaitSelection? && n < |sent| && Buffered(sent, n, pc.buffer)
    ensures SelectionHeard(t, sent, n + 1, SenderOn(t, pc, sent[n]).0)
  {
    if sent[n].Binary? {
      BufferedNext(sent, n, pc.buffer);
    } else {
      assert Framed(sent, n + 1, pc.buffer);
    }
  }

  lemma SenderKeepsHeard(t: Setup, sent: seq<Msg>, j: Joint, step: JointStep)
    requires SenderHeard(t, sent, j) && IsSenderStep(step) && !step.SenderRead?
    ensures SenderHeard(t, sent, JStep(t, j, step))
  {
  }

  lemma SenderMoveHeard(t: Setup, sent: seq<Msg>, j: Joint, move: Move)
    requires SenderHeard(t, sent, j)
    ensures SenderHeard(t, sent + if move.Sends? then [move.msg] else [], SenderMove(t, j, move))
  {
    match move
    case Sends(msg) => SenderHeardMore(t, sent, j, msg);
    case Takes(step) =>
      assert sent + [] == sent;
      if step.SenderRead? {
        if j.sOut == [] && j.toS != [] && SenderReads(j.s) {
          SenderReadsOn(t, sent, j);
        }
      } else if IsSenderStep(step) {
        SenderKeepsHeard(t, sent, j, step);
      }
  }

  lemma {:induction false} SenderAlwaysHeard(t: Setup, moves: seq<Move>)
    ensures SenderHeard(t, SentBy(moves), SenderAlone(t, moves))
  {
    if moves != [] {
      var front := moves[..|moves| - 1];
      SenderAlwaysHeard(t, front);
      SenderMoveHeard(t, SentBy(front), SenderAlone(t, front), moves[|moves| - 1]);
    }
  }

  /**
   The same for the sender: it offers its files only to a peer that accepted its token, whose
   own token is by the expected key over the sender's nonce and the peer's, and which knows
   the sender's PIN. It sends only what the peer then selected.
   */
  lemma SenderOffersOnlyToProven(t: Setup, moves: seq<Move>)
    ensures var j, sent := SenderAlone(t, moves), SentBy(moves);
      && (HasOffered(j.s) ==> AnswerProven(t, sent, j.s.nonce) && SenderPinSolved(t, sent))
      && |j.toS| <= |sent|
      && (j.s.SSending? ==> TokensHeard(t, sent, |sent| - |j.toS|, j.s.tokens))
  {
    SenderAlwaysHeard(t, moves);
  }
}
