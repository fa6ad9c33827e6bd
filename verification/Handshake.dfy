/**
 The two sides of a WebRTC session up to the file phase, as processes that share
 two FIFO channels (`packages/core/src/webrtc/webrtc.rs:234-409, 678-881`).

 A process sends in program order through its outbox, one message at a time, and
 reads one message at a time, so every interleaving of the two sides is a run.
 */
module Handshake {
  import opened Wrappers
  import opened Chunking
  import opened WebRtcMessages
  import opened PinChallenge

  /** How the two chunked JSON messages are written and parsed. */
  datatype Codec = Codec(
    writeStatus: PinStatus -> Bytes,
    parseStatus: Bytes -> Option<PinStatus>,
    writeSelection: Selection -> Bytes,
    parseSelection: Bytes -> Option<Selection>
  )

  /** Parsing undoes writing, and nothing parses as JSON when no byte arrived. */
  ghost predicate Faithful(codec: Codec) {
    && (forall s :: codec.parseStatus(codec.writeStatus(s)) == Some(s))
    && (forall s :: codec.parseSelection(codec.writeSelection(s)) == Some(s))
    && codec.parseStatus([]) == None
    && codec.parseSelection([]) == None
  }

  datatype Peer = Peer(key: Key, expects: Option<Key>, pin: Option<PinConfig>, nonce: Bytes)

  datatype Setup = Setup(sender: Peer, receiver: Peer, files: seq<FileDto>, codec: Codec)

  datatype Reason =
    | Unexpected         // a message of the wrong kind, or one that does not parse
    | UntrustedPeer      // the peer's token does not verify
    | UntrustedByPeer    // the peer said so
    | TooManyPins
    | WasDeclined
    | Abandoned          // the user did not answer

  datatype SenderPc =
    | SAwaitNonce
    | SAwaitToken(nonce: Bytes)
    | SPrompt(nonce: Bytes)
    | SAwaitPinReply(nonce: Bytes)
    | SVerify(nonce: Bytes, tries: nat)
    | SAwaitSelection(nonce: Bytes, buffer: Bytes)
    | SSending(nonce: Bytes, tokens: map<FileId, FileToken>)
    | SStopped(reason: Reason)

  datatype ReceiverPc =
    | RAwaitNonce
    | RAwaitToken(nonce: Bytes)
    | RVerify(nonce: Bytes, tries: nat)
    | RAwaitStatus(nonce: Bytes, buffer: Bytes)
    | RPrompt(nonce: Bytes)
    | RAwaitPinStatus(nonce: Bytes, buffer: Bytes)
    | RSelecting(nonce: Bytes, files: seq<FileDto>)
    | RReceiving(nonce: Bytes, tokens: map<FileId, FileToken>, files: seq<FileDto>)
    | RStopped(reason: Reason)

  /** Both processes, their outboxes, the channels, and the PINs each user has entered. */
  datatype Joint = Joint(
    s: SenderPc, sOut: seq<Msg>, sPins: seq<string>,
    r: ReceiverPc, rOut: seq<Msg>, rPins: seq<string>,
    toR: seq<Msg>, toS: seq<Msg>
  )

  function Begin(t: Setup): Joint {
    Joint(SAwaitNonce, [Text(Nonce(t.sender.nonce))], [], RAwaitNonce, [], [], [], [])
  }

  predicate ValidNonce(nonce: Bytes) {
    16 <= |nonce| <= 128
  }

  /** `verify_token_nonce`, when a key is expected at all. */
  predicate Trusts(peer: Peer, token: SignedToken, nonce: Bytes) {
    peer.expects.Some? ==> token == SignedToken(peer.expects.value, nonce)
  }

  function FrameOf(payload: Bytes): seq<Msg> {
    Frame(payload, Delimiter)
  }

  // ---------------------------------------------------------------------------
  // The sender
  // ---------------------------------------------------------------------------

  /** What the sender does once the receiver's challenge, if any, is passed. */
  function SenderChallenges(t: Setup, nonce: Bytes): (SenderPc, seq<Msg>) {
    match t.sender.pin
    case None => SenderOffers(t, nonce)
    case Some(cfg) =>
      if cfg.pin == "" then SenderOffers(t, nonce)
      else if cfg.maxTries == 0 then (SStopped(TooManyPins), FrameOf(t.codec.writeStatus(StatusTooManyAttempts)))
      else (SVerify(nonce, 0), FrameOf(t.codec.writeStatus(StatusPinRequired)))
  }

  function SenderOffers(t: Setup, nonce: Bytes): (SenderPc, seq<Msg>) {
    (SAwaitSelection(nonce, []), FrameOf(t.codec.writeStatus(FilesOffered(t.files))))
  }

  predicate SenderReads(pc: SenderPc) {
    pc.SAwaitNonce? || pc.SAwaitToken? || pc.SAwaitPinReply? || pc.SVerify? || pc.SAwaitSelection?
  }

  function SenderOn(t: Setup, pc: SenderPc, msg: Msg): (SenderPc, seq<Msg>)
    requires SenderReads(pc)
  {
    match pc
    case SAwaitNonce =>
      if msg.Text? && msg.text.Nonce? && ValidNonce(msg.text.nonce) then
        var nonce := t.sender.nonce + msg.text.nonce;
        (SAwaitToken(nonce), [Text(TokenRequest(SignedToken(t.sender.key, nonce)))])
      else (SStopped(Unexpected), [])
    case SAwaitToken(nonce) =>
      if msg.Text? && msg.text.TokenAnswer? then
        (match msg.text.response
         case TokenOk(token) =>
           if Trusts(t.sender, token, nonce) then SenderChallenges(t, nonce) else (SStopped(UntrustedPeer), [])
         case TokenPinRequired(token) =>
           if Trusts(t.sender, token, nonce) then (SPrompt(nonce), []) else (SStopped(UntrustedPeer), [])
         case TokenInvalidSignature => (SStopped(UntrustedByPeer), []))
      else (SStopped(Unexpected), [])
    case SAwaitPinReply(nonce) =>
      if msg.Text? && msg.text.PinAnswer? then
        (match msg.text.reply
         case PinOk => SenderChallenges(t, nonce)
         case PinRequired => (SPrompt(nonce), [])
         case PinTooManyAttempts => (SStopped(TooManyPins), []))
      else (SStopped(Unexpected), [])
    case SVerify(nonce, tries) =>
      if msg.Text? && msg.text.Pin? && t.sender.pin.Some? then
        if msg.text.pin == t.sender.pin.value.pin then SenderOffers(t, nonce)
        else if tries + 1 >= t.sender.pin.value.maxTries as int
        then (SStopped(TooManyPins), FrameOf(t.codec.writeStatus(StatusTooManyAttempts)))
        else (SVerify(nonce, tries + 1), FrameOf(t.codec.writeStatus(StatusPinRequired)))
      else (SStopped(Unexpected), [])
    case SAwaitSelection(nonce, buffer) =>
      if msg.Binary? then (SAwaitSelection(nonce, buffer + msg.data), [])
      else
        (match t.codec.parseSelection(buffer)
         case Some(Selected(tokens)) => (SSending(nonce, tokens), [])
         case Some(Declined) => (SStopped(WasDeclined), [])
         case _ => (SStopped(Unexpected), []))
  }

  // ---------------------------------------------------------------------------
  // The receiver
  // ---------------------------------------------------------------------------

  /** What the receiver does once it has accepted the sender's token. */
  function ReceiverChallenges(t: Setup, nonce: Bytes): (ReceiverPc, seq<Msg>) {
    var token := SignedToken(t.receiver.key, nonce);
    match t.receiver.pin
    case None => (RAwaitStatus(nonce, []), [Text(TokenAnswer(TokenOk(token)))])
    case Some(cfg) =>
      var ask: Msg := Text(TokenAnswer(TokenPinRequired(token)));
      if cfg.pin == "" then (RAwaitStatus(nonce, []), [ask, Text(PinAnswer(PinOk))])
      else if cfg.maxTries == 0 then (RStopped(TooManyPins), [ask, Text(PinAnswer(PinTooManyAttempts))])
      else (RVerify(nonce, 0), [ask])
  }

  predicate ReceiverReads(pc: ReceiverPc) {
    pc.RAwaitNonce? || pc.RAwaitToken? || pc.RVerify? || pc.RAwaitStatus? || pc.RAwaitPinStatus?
  }

  function ReceiverOn(t: Setup, pc: ReceiverPc, msg: Msg): (ReceiverPc, seq<Msg>)
    requires ReceiverReads(pc)
  {
    match pc
    case RAwaitNonce =>
      if msg.Text? && msg.text.Nonce? && ValidNonce(msg.text.nonce)
      then (RAwaitToken(msg.text.nonce + t.receiver.nonce), [Text(Nonce(t.receiver.nonce))])
      else (RStopped(Unexpected), [])
    case RAwaitToken(nonce) =>
      if msg.Text? && msg.text.TokenRequest? then
        if Trusts(t.receiver, msg.text.signed, nonce) then ReceiverChallenges(t, nonce)
        else (RStopped(UntrustedPeer), [Text(TokenAnswer(TokenInvalidSignature))])
      else (RStopped(Unexpected), [])
    case RVerify(nonce, tries) =>
      if msg.Text? && msg.text.Pin? && t.receiver.pin.Some? then
        if msg.text.pin == t.receiver.pin.value.pin then (RAwaitStatus(nonce, []), [Text(PinAnswer(PinOk))])
        else if tries + 1 >= t.receiver.pin.value.maxTries as int
        then (RStopped(TooManyPins), [Text(PinAnswer(PinTooManyAttempts))])
        else (RVerify(nonce, tries + 1), [Text(PinAnswer(PinRequired))])
      else (RStopped(Unexpected), [])
    case RAwaitStatus(nonce, buffer) =>
      if msg.Binary? then (RAwaitStatus(nonce, buffer + msg.data), [])
      else
        (match t.codec.parseStatus(buffer)
         case Some(FilesOffered(files)) => (RSelecting(nonce, files), [])
         case Some(StatusPinRequired) => (RPrompt(nonce), [])
         case _ => (RStopped(Unexpected), []))
    case RAwaitPinStatus(nonce, buffer) =>
      if msg.Binary? then (RAwaitPinStatus(nonce, buffer + msg.data), [])
      else
        (match t.codec.parseStatus(buffer)
         case Some(FilesOffered(files)) => (RSelecting(nonce, files), [])
         case Some(StatusPinRequired) => (RPrompt(nonce), [])
         case Some(StatusTooManyAttempts) => (RStopped(TooManyPins), [])
         case None => (RStopped(Unexpected), []))
  }

  // ---------------------------------------------------------------------------
  // Joint runs
  // ---------------------------------------------------------------------------

  datatype JointStep =
    | FlushSender
    | FlushReceiver
    | SenderRead
    | ReceiverRead
    | SenderEnters(pin: string)
    | ReceiverEnters(pin: string)
    | ReceiverSelects(tokens: map<FileId, FileToken>)
    | ReceiverDeclines
    | SenderAbandons
    | ReceiverAbandons

  function JStep(t: Setup, j: Joint, step: JointStep): Joint {
    match step
    case FlushSender => if j.sOut == [] then j else j.(sOut := j.sOut[1..], toR := j.toR + [j.sOut[0]])
    case FlushReceiver => if j.rOut == [] then j else j.(rOut := j.rOut[1..], toS := j.toS + [j.rOut[0]])
    case SenderRead =>
      if j.sOut != [] || j.toS == [] || !SenderReads(j.s) then j
      else
        var (pc, out) := SenderOn(t, j.s, j.toS[0]);
        j.(s := pc, sOut := out, toS := j.toS[1..])
    case ReceiverRead =>
      if j.rOut != [] || j.toR == [] || !ReceiverReads(j.r) then j
      else
        var (pc, out) := ReceiverOn(t, j.r, j.toR[0]);
        j.(r := pc, rOut := out, toR := j.toR[1..])
    case SenderEnters(pin) =>
      if j.sOut != [] || !j.s.SPrompt? then j
      else j.(s := SAwaitPinReply(j.s.nonce), sOut := [Text(Pin(pin))], sPins := j.sPins + [pin])
    case ReceiverEnters(pin) =>
      if j.rOut != [] || !j.r.RPrompt? then j
      else j.(r := RAwaitPinStatus(j.r.nonce, []), rOut := [Text(Pin(pin))], rPins := j.rPins + [pin])
    case ReceiverSelects(tokens) =>
      if j.rOut != [] || !j.r.RSelecting? then j
      else j.(r := RReceiving(j.r.nonce, tokens, j.r.files), rOut := FrameOf(t.codec.writeSelection(Selected(tokens))))
    case ReceiverDeclines =>
      if j.rOut != [] || !j.r.RSelecting? then j
      else j.(r := RStopped(WasDeclined), rOut := FrameOf(t.codec.writeSelection(Declined)))
    case SenderAbandons => if j.s.SPrompt? then j.(s := SStopped(Abandoned)) else j
    case ReceiverAbandons => if j.r.RPrompt? || j.r.RSelecting? then j.(r := RStopped(Abandoned)) else j
  }

  function JRunFrom(t: Setup, j: Joint, steps: seq<JointStep>): Joint {
    if steps == [] then j else JStep(t, JRunFrom(t, j, steps[..|steps| - 1]), steps[|steps| - 1])
  }

  function JRun(t: Setup, steps: seq<JointStep>): Joint {
    JRunFrom(t, Begin(t), steps)
  }
}
