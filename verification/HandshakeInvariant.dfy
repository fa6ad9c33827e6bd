/** Which states of the two WebRTC processes, and of the channels between them, are reachable. */
module HandshakeInvariant {
  import opened Chunking
  import opened WebRtcMessages
  import opened PinChallenge
  import opened Handshake

  /** Nonces as `generate_nonce` makes them are valid; JSON round-trips. */
  ghost predicate Proper(t: Setup) {
    ValidNonce(t.sender.nonce) && ValidNonce(t.receiver.nonce) && Faithful(t.codec)
  }

  /** The nonce both sides sign: the sender's part, then the receiver's. */
  function CommonNonce(t: Setup): Bytes {
    t.sender.nonce + t.receiver.nonce
  }

  predicate SenderTrusts(t: Setup) {
    t.sender.expects.Some? ==> t.sender.expects.value == t.receiver.key
  }

  predicate ReceiverTrusts(t: Setup) {
    t.receiver.expects.Some? ==> t.receiver.expects.value == t.sender.key
  }

  /**
   The configurations on which the two sides can lose step: an empty receiver PIN,
   which is accepted before the sender's first PIN message is read, and a sender
   PIN with no tries, which is refused before the receiver was ever asked.
   */
  predicate Troubled(t: Setup) {
    && SenderTrusts(t) && ReceiverTrusts(t)
    && ((t.receiver.pin.Some? && t.receiver.pin.value.pin == "")
        || (&& t.sender.pin.Some? && t.sender.pin.value.pin != "" && t.sender.pin.value.maxTries == 0
            && (t.receiver.pin.Some? ==> t.receiver.pin.value.maxTries > 0)))
  }

  /** What is still to be read by the receiver: sent or about to be sent. */
  function InR(j: Joint): seq<Msg> {
    j.toR + j.sOut
  }

  function InS(j: Joint): seq<Msg> {
    j.toS + j.rOut
  }

  /** A chunked string on its way: `buffer` has been read, `msgs` hold the rest and the delimiter. */
  predicate Arriving(buffer: Bytes, msgs: seq<Msg>, payload: Bytes) {
    && msgs != [] && msgs[|msgs| - 1].Text?
    && (forall i :: 0 <= i < |msgs| - 1 ==> msgs[i].Binary?)
    && buffer + ReadFrame(msgs).0 == payload
  }

  lemma FrameArrives(payload: Bytes)
    ensures Arriving([], FrameOf(payload), payload)
  {
    FrameRoundTrip(payload, Delimiter, []);
    assert FrameOf(payload) + [] == FrameOf(payload);
    assert [] + payload == payload;
  }

  /** Reading one message of it: a chunk moves to the buffer, the delimiter completes it. */
  lemma ArrivesFurther(buffer: Bytes, msgs: seq<Msg>, payload: Bytes)
    requires Arriving(buffer, msgs, payload)
    ensures if msgs[0].Binary? then Arriving(buffer + msgs[0].data, msgs[1..], payload)
            else msgs[1..] == [] && buffer == payload
  {
    if msgs[0].Binary? {
      assert buffer + (msgs[0].data + ReadFrame(msgs[1..]).0) == (buffer + msgs[0].data) + ReadFrame(msgs[1..]).0;
    }
  }

  // ---------------------------------------------------------------------------
  // The invariant
  // ---------------------------------------------------------------------------

  /** The sending user has passed the receiver's challenge, if there is one. */
  ghost predicate SenderPassed(t: Setup, sPins: seq<string>) {
    match t.receiver.pin
    case None => sPins == []
    case Some(cfg) => SolvedBy(cfg, sPins)
  }

  /** The sender challenges the receiver at all. */
  predicate SenderAsks(t: Setup) {
    t.sender.pin.Some? && t.sender.pin.value.pin != ""
  }

  ghost predicate ReceiverPassed(t: Setup, rPins: seq<string>) {
    if SenderAsks(t) then SolvedBy(t.sender.pin.value, rPins) else rPins == []
  }

  /** All allowed tries were wrong; with no tries at all, at most one PIN was sent in vain. */
  ghost predicate Exhausted(cfg: PinConfig, pins: seq<string>) {
    if cfg.maxTries == 0 then |pins| <= 1 else |pins| == cfg.maxTries as int && AllWrong(cfg, pins)
  }

  function LastPin(pins: seq<string>): Said
    requires pins != []
  {
    Pin(pins[|pins| - 1])
  }

  ghost predicate AtNonce(t: Setup, j: Joint) {
    && j.sPins == [] && j.rPins == []
    && (|| (j.r.RAwaitNonce? && InR(j) == [Text(Nonce(t.sender.nonce))] && InS(j) == [])
        || (j.r == RAwaitToken(CommonNonce(t)) && InR(j) == [] && InS(j) == [Text(Nonce(t.receiver.nonce))]))
  }

  ghost predicate AtToken(t: Setup, j: Joint) {
    var request := TokenRequest(SignedToken(t.sender.key, CommonNonce(t)));
    && j.sPins == [] && j.rPins == []
    && (|| (j.r == RAwaitToken(CommonNonce(t)) && InR(j) == [Text(request)] && InS(j) == [])
        || (!ReceiverTrusts(t) && j.r == RStopped(UntrustedPeer) && InR(j) == []
            && InS(j) == [Text(TokenAnswer(TokenInvalidSignature))])
        || (ReceiverTrusts(t) && InR(j) == [] && j.r == ReceiverChallenges(t, CommonNonce(t)).0
            && InS(j) == ReceiverChallenges(t, CommonNonce(t)).1))
  }

  /** Both tokens were accepted, and the receiver asks for a PIN. */
  ghost predicate SenderIsAsked(t: Setup, j: Joint) {
    SenderTrusts(t) && ReceiverTrusts(t) && t.receiver.pin.Some? && t.receiver.pin.value.pin != "" && j.rPins == []
  }

  ghost predicate AtPrompt(t: Setup, j: Joint) {
    && SenderIsAsked(t, j) && InR(j) == []
    && var cfg := t.receiver.pin.value;
       || (j.r == RVerify(CommonNonce(t), |j.sPins|) && InS(j) == [] && AllWrong(cfg, j.sPins) && |j.sPins| < cfg.maxTries as int)
       || (cfg.maxTries == 0 && j.r == RStopped(TooManyPins) && InS(j) == [Text(PinAnswer(PinTooManyAttempts))] && j.sPins == [])
  }

  ghost predicate AtPinReply(t: Setup, j: Joint) {
    && SenderIsAsked(t, j) && j.sPins != []
    && var cfg := t.receiver.pin.value;
       || (&& j.r == RVerify(CommonNonce(t), |j.sPins| - 1) && InR(j) == [Text(LastPin(j.sPins))] && InS(j) == []
           && AllWrong(cfg, j.sPins[..|j.sPins| - 1]) && |j.sPins| <= cfg.maxTries as int)
       || (&& j.r == RVerify(CommonNonce(t), |j.sPins|) && InR(j) == [] && InS(j) == [Text(PinAnswer(PinRequired))]
           && AllWrong(cfg, j.sPins) && |j.sPins| < cfg.maxTries as int)
       || (j.r == RAwaitStatus(CommonNonce(t), []) && InR(j) == [] && InS(j) == [Text(PinAnswer(PinOk))] && SolvedBy(cfg, j.sPins))
       || (&& j.r == RStopped(TooManyPins) && InS(j) == [Text(PinAnswer(PinTooManyAttempts))]
           && Exhausted(cfg, j.sPins) && (cfg.maxTries > 0 ==> InR(j) == []))
  }

  /** Everything before the sender's own challenge went well. */
  ghost predicate PastFirstChallenge(t: Setup, j: Joint) {
    SenderTrusts(t) && ReceiverTrusts(t) && SenderPassed(t, j.sPins)
  }

  ghost predicate AtVerify(t: Setup, j: Joint, tries: nat) {
    && PastFirstChallenge(t, j) && SenderAsks(t)
    && var cfg := t.sender.pin.value;
    var asking := t.codec.writeStatus(StatusPinRequired);
    && tries < cfg.maxTries as int
    && match j.r
       case RAwaitStatus(n, buffer) =>
         n == CommonNonce(t) && InS(j) == [] && tries == 0 && j.rPins == [] && Arriving(buffer, InR(j), asking)
       case RPrompt(n) =>
         n == CommonNonce(t) && InR(j) == [] && InS(j) == [] && |j.rPins| == tries && AllWrong(cfg, j.rPins)
       case RAwaitPinStatus(n, buffer) =>
         && n == CommonNonce(t)
         && (|| (&& InR(j) == [] && buffer == [] && |j.rPins| == tries + 1
                 && InS(j) == [Text(LastPin(j.rPins))] && AllWrong(cfg, j.rPins[..tries]))
             || (InS(j) == [] && |j.rPins| == tries && AllWrong(cfg, j.rPins) && Arriving(buffer, InR(j), asking)))
       case RStopped(reason) => reason.Abandoned? && InR(j) == [] && InS(j) == []
       case _ => false
  }

  ghost predicate AtSelection(t: Setup, j: Joint, buffer: Bytes) {
    && PastFirstChallenge(t, j) && ReceiverPassed(t, j.rPins)
    && match j.r
       case RAwaitStatus(n, b) =>
         && n == CommonNonce(t) && !SenderAsks(t) && InS(j) == [] && buffer == []
         && Arriving(b, InR(j), t.codec.writeStatus(FilesOffered(t.files)))
       case RAwaitPinStatus(n, b) =>
         && n == CommonNonce(t) && SenderAsks(t) && InS(j) == [] && buffer == []
         && Arriving(b, InR(j), t.codec.writeStatus(FilesOffered(t.files)))
       case RSelecting(n, files) =>
         n == CommonNonce(t) && files == t.files && InR(j) == [] && InS(j) == [] && buffer == []
       case RReceiving(n, tokens, files) =>
         && n == CommonNonce(t) && files == t.files && InR(j) == []
         && Arriving(buffer, InS(j), t.codec.writeSelection(Selected(tokens)))
       case RStopped(reason) =>
         && InR(j) == []
         && ((reason.WasDeclined? && Arriving(buffer, InS(j), t.codec.writeSelection(Declined)))
             || (reason.Abandoned? && InS(j) == [] && buffer == []))
       case _ => false
  }

  ghost predicate AtEnd(t: Setup, j: Joint, reason: Reason) {
    match reason
    case Unexpected => false
    case UntrustedPeer =>
      && !SenderTrusts(t) && ReceiverTrusts(t) && j.sPins == [] && j.rPins == [] && InR(j) == []
      && j.r == ReceiverChallenges(t, CommonNonce(t)).0
    case UntrustedByPeer => !ReceiverTrusts(t) && j.r == RStopped(UntrustedPeer) && InR(j) == [] && InS(j) == []
    case TooManyPins =>
      || (&& SenderIsAsked(t, j) && j.r == RStopped(TooManyPins) && InS(j) == [] && Exhausted(t.receiver.pin.value, j.sPins)
          && (t.receiver.pin.value.maxTries > 0 ==> InR(j) == []))
      || (&& PastFirstChallenge(t, j) && SenderAsks(t) && t.sender.pin.value.maxTries > 0
          && Exhausted(t.sender.pin.value, j.rPins) && InS(j) == []
          && (|| (j.r == RStopped(TooManyPins) && InR(j) == [])
              || (&& j.r.RAwaitPinStatus? && j.r.nonce == CommonNonce(t)
                  && Arriving(j.r.buffer, InR(j), t.codec.writeStatus(StatusTooManyAttempts)))))
    case WasDeclined =>
      PastFirstChallenge(t, j) && ReceiverPassed(t, j.rPins) && j.r == RStopped(WasDeclined) && InR(j) == [] && InS(j) == []
    case Abandoned =>
      && SenderIsAsked(t, j) && InR(j) == []
      && (|| j.r == RVerify(CommonNonce(t), |j.sPins|)
          || (t.receiver.pin.value.maxTries == 0 && j.r == RStopped(TooManyPins)))
  }

  ghost predicate Shape(t: Setup, j: Joint) {
    match j.s
    case SAwaitNonce => AtNonce(t, j)
    case SAwaitToken(n) => n == CommonNonce(t) && AtToken(t, j)
    case SPrompt(n) => n == CommonNonce(t) && AtPrompt(t, j)
    case SAwaitPinReply(n) => n == CommonNonce(t) && AtPinReply(t, j)
    case SVerify(n, tries) => n == CommonNonce(t) && AtVerify(t, j, tries)
    case SAwaitSelection(n, buffer) => n == CommonNonce(t) && AtSelection(t, j, buffer)
    case SSending(n, tokens) =>
      && n == CommonNonce(t) && PastFirstChallenge(t, j) && ReceiverPassed(t, j.rPins)
      && j.r == RReceiving(n, tokens, t.files) && InR(j) == [] && InS(j) == []
    case SStopped(reason) => AtEnd(t, j, reason)
  }

  // ---------------------------------------------------------------------------
  // Preservation
  // ---------------------------------------------------------------------------

  /** The shape depends on the channels only through what is still to be read. */
  lemma ShapeOfStreams(t: Setup, j: Joint, k: Joint)
    requires Shape(t, j)
    requires k.s == j.s && k.r == j.r && k.sPins == j.sPins && k.rPins == j.rPins && InR(k) == InR(j) && InS(k) == InS(j)
    ensures Shape(t, k)
  {
  }

  lemma FlushKeepsShape(t: Setup, j: Joint)
    requires Shape(t, j)
    ensures Shape(t, JStep(t, j, FlushSender)) && Shape(t, JStep(t, j, FlushReceiver))
  {
    if j.sOut != [] {
      assert (j.toR + [j.sOut[0]]) + j.sOut[1..] == j.toR + j.sOut;
      ShapeOfStreams(t, j, JStep(t, j, FlushSender));
    }
    if j.rOut != [] {
      assert (j.toS + [j.rOut[0]]) + j.rOut[1..] == j.toS + j.rOut;
      ShapeOfStreams(t, j, JStep(t, j, FlushReceiver));
    }
  }

  /** `more` queued behind `msgs`. */
  function Behind(msgs: seq<Msg>, more: seq<Msg>): (r: seq<Msg>)
    ensures r == msgs + more
  {
    if msgs == [] then more else if more == [] then msgs else msgs + more
  }

  /** The state after the sender has read the first message on its way to it. */
  ghost predicate SenderHasRead(t: Setup, j: Joint, k: Joint) {
    && InS(j) != [] && SenderReads(j.s)
    && k.s == SenderOn(t, j.s, InS(j)[0]).0
    && InS(k) == InS(j)[1..]
    && InR(k) == Behind(InR(j), SenderOn(t, j.s, InS(j)[0]).1)
    && k.r == j.r && k.sPins == j.sPins && k.rPins == j.rPins
  }

  lemma SenderReadView(t: Setup, j: Joint)
    requires j.sOut == [] && j.toS != [] && SenderReads(j.s)
    ensures SenderHasRead(t, j, JStep(t, j, SenderRead))
  {
  }

  /** Entering the sender's own challenge, or skipping it. */
  lemma SenderChallengesShape(t: Setup, k: Joint)
    requires Proper(t) && !Troubled(t) && PastFirstChallenge(t, k) && k.rPins == []
    requires k.r == RAwaitStatus(CommonNonce(t), []) && InS(k) == []
    requires k.s == SenderChallenges(t, CommonNonce(t)).0 && InR(k) == SenderChallenges(t, CommonNonce(t)).1
    ensures Shape(t, k)
  {
    FrameArrives(t.codec.writeStatus(FilesOffered(t.files)));
    FrameArrives(t.codec.writeStatus(StatusPinRequired));
  }

  lemma SenderReadsNonce(t: Setup, j: Joint, k: Joint)
    requires Proper(t) && AtNonce(t, j) && SenderHasRead(t, j, k) && j.s.SAwaitNonce?
    ensures Shape(t, k)
  {
  }

  lemma SenderIsRejected(t: Setup, j: Joint, k: Joint)
    requires AtToken(t, j) && SenderHasRead(t, j, k) && j.s == SAwaitToken(CommonNonce(t)) && !ReceiverTrusts(t)
    ensures Shape(t, k)
  {
  }

  lemma SenderRejects(t: Setup, j: Joint, k: Joint)
    requires AtToken(t, j) && SenderHasRead(t, j, k) && j.s == SAwaitToken(CommonNonce(t))
    requires ReceiverTrusts(t) && !SenderTrusts(t)
    ensures Shape(t, k)
  {
  }

  lemma SenderReadsToken(t: Setup, j: Joint, k: Joint)
    requires Proper(t) && !Troubled(t) && AtToken(t, j) && SenderHasRead(t, j, k)
    requires j.s == SAwaitToken(CommonNonce(t)) && ReceiverTrusts(t) && SenderTrusts(t)
    ensures Shape(t, k)
  {
    if t.receiver.pin.None? {
      SenderChallengesShape(t, k);
    }
  }

  lemma SenderReadsEarly(t: Setup, j: Joint, k: Joint)
    requires Proper(t) && !Troubled(t) && Shape(t, j) && SenderHasRead(t, j, k)
    requires j.s.SAwaitNonce? || j.s.SAwaitToken?
    ensures Shape(t, k)
  {
    if j.s.SAwaitNonce? {
      SenderReadsNonce(t, j, k);
    } else if !ReceiverTrusts(t) {
      SenderIsRejected(t, j, k);
    } else if !SenderTrusts(t) {
      SenderRejects(t, j, k);
    } else {
      SenderReadsToken(t, j, k);
    }
  }

  lemma SenderReadsReply(t: Setup, j: Joint, k: Joint)
    requires Proper(t) && !Troubled(t) && Shape(t, j) && SenderHasRead(t, j, k) && j.s.SAwaitPinReply?
    ensures Shape(t, k)
  {
    if InS(j)[0] == Text(PinAnswer(PinOk)) {
      SenderChallengesShape(t, k);
    }
  }

  /** A PIN is on its way to the verifying sender. */
  ghost predicate PinArrives(t: Setup, j: Joint) {
    && PastFirstChallenge(t, j) && SenderAsks(t) && j.s.SVerify? && j.s.nonce == CommonNonce(t)
    && j.s.tries < t.sender.pin.value.maxTries as int
    && j.r == RAwaitPinStatus(CommonNonce(t), []) && InR(j) == []
    && |j.rPins| == j.s.tries + 1 && InS(j) == [Text(LastPin(j.rPins))]
    && AllWrong(t.sender.pin.value, j.rPins[..j.s.tries])
  }

  lemma VerifierIsSentAPin(t: Setup, j: Joint)
    requires Shape(t, j) && j.s.SVerify? && InS(j) != []
    ensures PinArrives(t, j)
  {
  }

  lemma RightPin(t: Setup, j: Joint, k: Joint)
    requires PinArrives(t, j) && SenderHasRead(t, j, k) && j.rPins[j.s.tries] == t.sender.pin.value.pin
    ensures Shape(t, k)
  {
    FrameArrives(t.codec.writeStatus(FilesOffered(t.files)));
    assert j.rPins[..|j.rPins| - 1] == j.rPins[..j.s.tries];
  }

  lemma WrongPin(t: Setup, j: Joint, k: Joint)
    requires PinArrives(t, j) && SenderHasRead(t, j, k) && j.rPins[j.s.tries] != t.sender.pin.value.pin
    ensures Shape(t, k)
  {
    assert AllWrong(t.sender.pin.value, j.rPins) by {
      assert j.rPins == j.rPins[..j.s.tries] + [j.rPins[j.s.tries]];
    }
    if j.s.tries + 1 >= t.sender.pin.value.maxTries as int {
      LastPinIsWrong(t, j, k);
    } else {
      NextPinIsAskedFor(t, j, k);
    }
  }

  lemma LastPinIsWrong(t: Setup, j: Joint, k: Joint)
    requires PinArrives(t, j) && SenderHasRead(t, j, k) && AllWrong(t.sender.pin.value, j.rPins)
    requires j.rPins[j.s.tries] != t.sender.pin.value.pin && j.s.tries + 1 >= t.sender.pin.value.maxTries as int
    ensures Shape(t, k)
  {
    FrameArrives(t.codec.writeStatus(StatusTooManyAttempts));
  }

  lemma NextPinIsAskedFor(t: Setup, j: Joint, k: Joint)
    requires PinArrives(t, j) && SenderHasRead(t, j, k) && AllWrong(t.sender.pin.value, j.rPins)
    requires j.rPins[j.s.tries] != t.sender.pin.value.pin && j.s.tries + 1 < t.sender.pin.value.maxTries as int
    ensures Shape(t, k)
  {
    FrameArrives(t.codec.writeStatus(StatusPinRequired));
  }

  lemma SenderReadsPin(t: Setup, j: Joint, k: Joint)
    requires Shape(t, j) && SenderHasRead(t, j, k) && j.s.SVerify?
    ensures Shape(t, k)
  {
    VerifierIsSentAPin(t, j);
    if j.rPins[j.s.tries] == t.sender.pin.value.pin {
      RightPin(t, j, k);
    } else {
      WrongPin(t, j, k);
    }
  }

  lemma SenderReadsSelection(t: Setup, j: Joint, k: Joint)
    requires Proper(t) && !Troubled(t) && Shape(t, j) && SenderHasRead(t, j, k) && j.s.SAwaitSelection?
    ensures Shape(t, k)
  {
    if j.r.RReceiving? {
      ArrivesFurther(j.s.buffer, InS(j), t.codec.writeSelection(Selected(j.r.tokens)));
    } else {
      ArrivesFurther(j.s.buffer, InS(j), t.codec.writeSelection(Declined));
    }
  }

  ghost predicate ReceiverHasRead(t: Setup, j: Joint, k: Joint) {
    && InR(j) != [] && ReceiverReads(j.r)
    && k.r == ReceiverOn(t, j.r, InR(j)[0]).0
    && InR(k) == InR(j)[1..]
    && InS(k) == Behind(InS(j), ReceiverOn(t, j.r, InR(j)[0]).1)
    && k.s == j.s && k.sPins == j.sPins && k.rPins == j.rPins
  }

  lemma ReceiverReadView(t: Setup, j: Joint)
    requires j.rOut == [] && j.toR != [] && ReceiverReads(j.r)
    ensures ReceiverHasRead(t, j, JStep(t, j, ReceiverRead))
  {
  }

  lemma ReceiverReadsEarly(t: Setup, j: Joint, k: Joint)
    requires Proper(t) && Shape(t, j) && ReceiverHasRead(t, j, k)
    requires j.s.SAwaitNonce? || j.s.SAwaitToken?
    ensures Shape(t, k)
  {
  }

  /** A PIN is on its way to the verifying receiver. */
  lemma ReceiverIsSentAPin(t: Setup, j: Joint)
    requires Shape(t, j) && InR(j) != [] && ReceiverReads(j.r) && (j.s.SPrompt? || j.s.SAwaitPinReply?)
    ensures j.s == SAwaitPinReply(CommonNonce(t)) && SenderIsAsked(t, j) && j.sPins != []
    ensures j.r == RVerify(CommonNonce(t), |j.sPins| - 1) && InR(j) == [Text(LastPin(j.sPins))] && InS(j) == []
    ensures AllWrong(t.receiver.pin.value, j.sPins[..|j.sPins| - 1]) && |j.sPins| <= t.receiver.pin.value.maxTries as int
  {
  }

  lemma ReceiverReadsPin(t: Setup, j: Joint, k: Joint)
    requires Shape(t, j) && ReceiverHasRead(t, j, k)
    requires j.s.SPrompt? || j.s.SAwaitPinReply?
    ensures Shape(t, k)
  {
    ReceiverIsSentAPin(t, j);
    ReceiverVerifies(t, j, k);
  }

  lemma ReceiverVerifies(t: Setup, j: Joint, k: Joint)
    requires ReceiverHasRead(t, j, k) && j.s == SAwaitPinReply(CommonNonce(t)) && SenderIsAsked(t, j) && j.sPins != []
    requires j.r == RVerify(CommonNonce(t), |j.sPins| - 1) && InR(j) == [Text(LastPin(j.sPins))] && InS(j) == []
    requires AllWrong(t.receiver.pin.value, j.sPins[..|j.sPins| - 1]) && |j.sPins| <= t.receiver.pin.value.maxTries as int
    ensures Shape(t, k)
  {
    var n := |j.sPins|;
    assert j.sPins == j.sPins[..n - 1] + [j.sPins[n - 1]];
  }

  lemma ReceiverReadsStatus(t: Setup, j: Joint, k: Joint)
    requires Proper(t) && !Troubled(t) && Shape(t, j) && ReceiverHasRead(t, j, k)
    requires j.s.SVerify? || j.s.SAwaitSelection? || j.s.SSending?
    ensures Shape(t, k)
  {
    var payload := t.codec.writeStatus(if j.s.SVerify? then StatusPinRequired else FilesOffered(t.files));
    ArrivesFurther(j.r.buffer, InR(j), payload);
  }

  lemma ReceiverReadsEnd(t: Setup, j: Joint, k: Joint)
    requires Proper(t) && !Troubled(t) && Shape(t, j) && ReceiverHasRead(t, j, k) && j.s.SStopped?
    ensures Shape(t, k)
  {
    ArrivesFurther(j.r.buffer, InR(j), t.codec.writeStatus(StatusTooManyAttempts));
  }

  /** A user answers a prompt: the entered PIN is on its way. */
  lemma SenderEntersKeepsShape(t: Setup, j: Joint, pin: string)
    requires Shape(t, j) && j.s.SPrompt? && j.sOut == []
    ensures Shape(t, JStep(t, j, SenderEnters(pin)))
  {
    var k := JStep(t, j, SenderEnters(pin));
    assert k.sPins[..|k.sPins| - 1] == j.sPins;
    assert InR(k) == [Text(Pin(pin))];
  }

  /** The receiving user is only asked while the sender verifies. */
  lemma PromptShape(t: Setup, j: Joint)
    requires Shape(t, j) && j.r.RPrompt?
    ensures j.s.SVerify? && j.s.nonce == CommonNonce(t) && AtVerify(t, j, j.s.tries)
  {
  }

  lemma ReceiverEntersKeepsShape(t: Setup, j: Joint, pin: string)
    requires Shape(t, j) && j.r.RPrompt? && j.rOut == []
    ensures Shape(t, JStep(t, j, ReceiverEnters(pin)))
  {
    PromptShape(t, j);
    var k := JStep(t, j, ReceiverEnters(pin));
    assert InS(k) == [Text(Pin(pin))] && InR(k) == InR(j);
    PinIsEntered(t, j, k, pin);
  }

  lemma PinIsEntered(t: Setup, j: Joint, k: Joint, pin: string)
    requires j.s.SVerify? && j.s.nonce == CommonNonce(t) && AtVerify(t, j, j.s.tries) && j.r.RPrompt?
    requires k.s == j.s && k.sPins == j.sPins && k.rPins == j.rPins + [pin]
    requires k.r == RAwaitPinStatus(j.r.nonce, []) && InS(k) == [Text(Pin(pin))] && InR(k) == InR(j)
    ensures Shape(t, k)
  {
    assert k.rPins[..|k.rPins| - 1] == j.rPins;
  }

  lemma AbandonKeepsShape(t: Setup, j: Joint)
    requires Shape(t, j)
    ensures Shape(t, JStep(t, j, SenderAbandons)) && Shape(t, JStep(t, j, ReceiverAbandons))
  {
    var k := JStep(t, j, SenderAbandons);
    var l := JStep(t, j, ReceiverAbandons);
    assert InR(k) == InR(j) && InS(k) == InS(j) && InR(l) == InR(j) && InS(l) == InS(j);
  }

  /** The receiving user chooses. */
  lemma SelectingShape(t: Setup, j: Joint)
    requires Shape(t, j) && j.r.RSelecting?
    ensures j.s == SAwaitSelection(CommonNonce(t), []) && j.r == RSelecting(CommonNonce(t), t.files)
    ensures PastFirstChallenge(t, j) && ReceiverPassed(t, j.rPins) && InR(j) == [] && InS(j) == []
  {
  }

  lemma ChoiceKeepsShape(t: Setup, j: Joint, step: JointStep)
    requires Shape(t, j) && j.r.RSelecting? && j.rOut == [] && (step.ReceiverSelects? || step.ReceiverDeclines?)
    ensures Shape(t, JStep(t, j, step))
  {
    SelectingShape(t, j);
    ChoiceIsSent(t, j, step);
  }

  lemma ChoiceIsSent(t: Setup, j: Joint, step: JointStep)
    requires j.rOut == [] && (step.ReceiverSelects? || step.ReceiverDeclines?)
    requires j.s == SAwaitSelection(CommonNonce(t), []) && j.r == RSelecting(CommonNonce(t), t.files)
    requires PastFirstChallenge(t, j) && ReceiverPassed(t, j.rPins) && InR(j) == [] && InS(j) == []
    ensures Shape(t, JStep(t, j, step))
  {
    var k := JStep(t, j, step);
    var choice := if step.ReceiverSelects? then Selected(step.tokens) else Declined;
    FrameArrives(t.codec.writeSelection(choice));
    assert InS(k) == FrameOf(t.codec.writeSelection(choice)) && InR(k) == [];
    ChosenShape(t, k, choice);
  }

  lemma ChosenShape(t: Setup, k: Joint, choice: Selection)
    requires k.s == SAwaitSelection(CommonNonce(t), []) && PastFirstChallenge(t, k) && ReceiverPassed(t, k.rPins)
    requires choice.Selected? || choice.Declined?
    requires k.r == if choice.Selected? then RReceiving(CommonNonce(t), choice.tokens, t.files) else RStopped(WasDeclined)
    requires InR(k) == [] && Arriving([], InS(k), t.codec.writeSelection(choice))
    ensures Shape(t, k)
  {
    assert AtSelection(t, k, []);
  }

  lemma ReadKeepsShape(t: Setup, j: Joint)
    requires Proper(t) && !Troubled(t) && Shape(t, j)
    ensures Shape(t, JStep(t, j, SenderRead)) && Shape(t, JStep(t, j, ReceiverRead))
  {
    if j.sOut == [] && j.toS != [] && SenderReads(j.s) {
      SenderReadView(t, j);
      SenderReadKeepsShape(t, j, JStep(t, j, SenderRead));
    }
    if j.rOut == [] && j.toR != [] && ReceiverReads(j.r) {
      ReceiverReadView(t, j);
      ReceiverReadKeepsShape(t, j, JStep(t, j, ReceiverRead));
    }
  }

  lemma SenderReadKeepsShape(t: Setup, j: Joint, k: Joint)
    requires Proper(t) && !Troubled(t) && Shape(t, j) && SenderHasRead(t, j, k)
    ensures Shape(t, k)
  {
    match j.s
    case SAwaitNonce => SenderReadsEarly(t, j, k);
    case SAwaitToken(_) => SenderReadsEarly(t, j, k);
    case SAwaitPinReply(_) => SenderReadsReply(t, j, k);
    case SVerify(_, _) => SenderReadsPin(t, j, k);
    case SAwaitSelection(_, _) => SenderReadsSelection(t, j, k);
  }

  lemma ReceiverReadKeepsShape(t: Setup, j: Joint, k: Joint)
    requires Proper(t) && !Troubled(t) && Shape(t, j) && ReceiverHasRead(t, j, k)
    ensures Shape(t, k)
  {
    match j.s
    case SAwaitNonce => ReceiverReadsEarly(t, j, k);
    case SAwaitToken(_) => ReceiverReadsEarly(t, j, k);
    case SPrompt(_) => ReceiverReadsPin(t, j, k);
    case SAwaitPinReply(_) => ReceiverReadsPin(t, j, k);
    case SVerify(_, _) => ReceiverReadsStatus(t, j, k);
    case SAwaitSelection(_, _) => ReceiverReadsStatus(t, j, k);
    case SSending(_, _) => ReceiverReadsStatus(t, j, k);
    case SStopped(_) => ReceiverReadsEnd(t, j, k);
  }

  lemma JointStepKeepsShape(t: Setup, j: Joint, step: JointStep)
    requires Proper(t) && !Troubled(t) && Shape(t, j)
    ensures Shape(t, JStep(t, j, step))
  {
    match step
    case FlushSender => FlushKeepsShape(t, j);
    case FlushReceiver => FlushKeepsShape(t, j);
    case SenderRead => ReadKeepsShape(t, j);
    case ReceiverRead => ReadKeepsShape(t, j);
    case SenderEnters(pin) => if j.s.SPrompt? && j.sOut == [] { SenderEntersKeepsShape(t, j, pin); }
    case ReceiverEnters(pin) => if j.r.RPrompt? && j.rOut == [] { ReceiverEntersKeepsShape(t, j, pin); }
    case ReceiverSelects(_) => if j.r.RSelecting? && j.rOut == [] { ChoiceKeepsShape(t, j, step); }
    case ReceiverDeclines => if j.r.RSelecting? && j.rOut == [] { ChoiceKeepsShape(t, j, step); }
    case SenderAbandons => AbandonKeepsShape(t, j);
    case ReceiverAbandons => AbandonKeepsShape(t, j);
  }

  lemma {:induction false} ReachableShape(t: Setup, steps: seq<JointStep>)
    requires Proper(t) && !Troubled(t)
    ensures Shape(t, JRun(t, steps))
  {
    if steps != [] {
      ReachableShape(t, steps[..|steps| - 1]);
      JointStepKeepsShape(t, JRun(t, steps[..|steps| - 1]), steps[|steps| - 1]);
    }
  }
}
