/** Which joint states are reachable on the configurations on which the two sides can lose step. */
module HandshakeTroubles {
  import opened Chunking
  import opened WebRtcMessages
  import opened Handshake
  import opened HandshakeInvariant

  /** The receiver's PIN is accepted before it is read. */
  predicate AcceptsUnread(t: Setup) {
    SenderTrusts(t) && ReceiverTrusts(t) && t.receiver.pin.Some? && t.receiver.pin.value.pin == ""
  }

  /** The sender refuses before it asked. */
  predicate RefusesUnasked(t: Setup) {
    && SenderTrusts(t) && ReceiverTrusts(t) && !AcceptsUnread(t)
    && SenderAsks(t) && t.sender.pin.value.maxTries == 0
  }

  /** The two sides have not lost step yet, or never will: one of the receiver's challenge's ends is reached. */
  ghost predicate InStep(t: Setup, j: Joint) {
    && Shape(t, j)
    && (|| j.s.SAwaitNonce? || j.s.SAwaitToken? || j.s.SPrompt? || j.s.SAwaitPinReply? || j.s == SStopped(Abandoned)
        || (j.s == SStopped(TooManyPins) && SenderIsAsked(t, j) && j.r == RStopped(TooManyPins)))
  }

  /** The receiver is about to read a PIN where it expects a string, or has done so. */
  predicate PinIsNext(t: Setup, j: Joint) {
    || j.r == RStopped(Unexpected)
    || (j.r == RAwaitStatus(CommonNonce(t), []) && InR(j) != [] && InR(j)[0].Text?)
  }

  const ACCEPTED: Msg := Text(PinAnswer(PinOk))

  ghost predicate LostOverPin(t: Setup, j: Joint) {
    && AcceptsUnread(t)
    && match j.s
       case SPrompt(n) => n == CommonNonce(t) && j.r == RAwaitStatus(n, []) && InR(j) == [] && InS(j) == [ACCEPTED]
       case SAwaitPinReply(n) => n == CommonNonce(t) && PinIsNext(t, j) && InS(j) == [ACCEPTED]
       case SVerify(n, tries) => n == CommonNonce(t) && PinIsNext(t, j) && InS(j) == []
       case SAwaitSelection(n, buffer) => n == CommonNonce(t) && PinIsNext(t, j) && InS(j) == []
       case SStopped(reason) =>
         if reason.Abandoned? then j.r == RAwaitStatus(CommonNonce(t), []) && InR(j) == []
         else reason.TooManyPins? && PinIsNext(t, j) && InS(j) == [] && SenderAsks(t) && t.sender.pin.value.maxTries == 0
       case _ => false
  }

  ghost predicate LostOverRefusal(t: Setup, j: Joint) {
    && RefusesUnasked(t) && SenderPassed(t, j.sPins)
    && j.s == SStopped(TooManyPins) && InS(j) == []
    && (|| j.r == RStopped(Unexpected)
        || (&& j.r.RAwaitStatus? && j.r.nonce == CommonNonce(t)
            && Arriving(j.r.buffer, InR(j), t.codec.writeStatus(StatusTooManyAttempts))))
  }

  ghost predicate TroubledShape(t: Setup, j: Joint) {
    InStep(t, j) || LostOverPin(t, j) || LostOverRefusal(t, j)
  }

  // ---------------------------------------------------------------------------
  // In step
  // ---------------------------------------------------------------------------

  lemma TokenIsRead(t: Setup, j: Joint, k: Joint)
    requires Proper(t) && Troubled(t) && AtToken(t, j) && j.s == SAwaitToken(CommonNonce(t)) && SenderHasRead(t, j, k)
    ensures TroubledShape(t, k)
  {
    if t.receiver.pin.None? {
      FrameArrives(t.codec.writeStatus(StatusTooManyAttempts));
    }
  }

  lemma ReplyIsRead(t: Setup, j: Joint, k: Joint)
    requires Proper(t) && Troubled(t) && AtPinReply(t, j) && j.s == SAwaitPinReply(CommonNonce(t)) && SenderHasRead(t, j, k)
    ensures TroubledShape(t, k)
  {
    FrameArrives(t.codec.writeStatus(StatusTooManyAttempts));
  }

  lemma InStepReads(t: Setup, j: Joint, k: Joint)
    requires Proper(t) && Troubled(t) && InStep(t, j) && SenderHasRead(t, j, k)
    ensures TroubledShape(t, k)
  {
    match j.s
    case SAwaitNonce => SenderReadsNonce(t, j, k);
    case SAwaitToken(_) => TokenIsRead(t, j, k);
    case SAwaitPinReply(_) => ReplyIsRead(t, j, k);
  }

  lemma InStepIsRead(t: Setup, j: Joint, k: Joint)
    requires Proper(t) && Troubled(t) && InStep(t, j) && ReceiverHasRead(t, j, k)
    ensures InStep(t, k)
  {
    if j.s.SAwaitNonce? || j.s.SAwaitToken? {
      ReceiverReadsEarly(t, j, k);
    } else if j.s.SPrompt? || j.s.SAwaitPinReply? {
      ReceiverReadsPin(t, j, k);
    }
  }

  /** The receiving user has nothing to do. */
  lemma ReceiverIsBusy(t: Setup, j: Joint)
    requires InStep(t, j)
    ensures !j.r.RPrompt? && !j.r.RSelecting?
  {
    if j.r.RPrompt? {
      PromptShape(t, j);
    } else if j.r.RSelecting? {
      SelectingShape(t, j);
    }
  }

  lemma InStepStep(t: Setup, j: Joint, step: JointStep)
    requires Proper(t) && Troubled(t) && InStep(t, j)
    ensures TroubledShape(t, JStep(t, j, step))
  {
    var k := JStep(t, j, step);
    ReceiverIsBusy(t, j);
    match step
    case FlushSender => FlushKeepsShape(t, j);
    case FlushReceiver => FlushKeepsShape(t, j);
    case SenderRead =>
      if j.sOut == [] && j.toS != [] && SenderReads(j.s) {
        SenderReadView(t, j);
        InStepReads(t, j, k);
      }
    case ReceiverRead =>
      if j.rOut == [] && j.toR != [] && ReceiverReads(j.r) {
        ReceiverReadView(t, j);
        InStepIsRead(t, j, k);
      }
    case SenderEnters(pin) => if j.s.SPrompt? && j.sOut == [] { SenderEntersKeepsShape(t, j, pin); }
    case ReceiverEnters(_) =>
    case ReceiverSelects(_) =>
    case ReceiverDeclines =>
    case SenderAbandons => AbandonKeepsShape(t, j);
    case ReceiverAbandons => AbandonKeepsShape(t, j);
  }

  // ---------------------------------------------------------------------------
  // Out of step
  // ---------------------------------------------------------------------------

  lemma LostOverPinReads(t: Setup, j: Joint, k: Joint)
    requires Proper(t) && LostOverPin(t, j) && SenderHasRead(t, j, k)
    ensures LostOverPin(t, k)
  {
  }

  lemma LostOverPinIsRead(t: Setup, j: Joint, k: Joint)
    requires Proper(t) && LostOverPin(t, j) && ReceiverHasRead(t, j, k)
    ensures LostOverPin(t, k)
  {
  }

  lemma RefusalIsRead(t: Setup, j: Joint, k: Joint)
    requires Proper(t) && LostOverRefusal(t, j) && ReceiverHasRead(t, j, k)
    ensures LostOverRefusal(t, k)
  {
    ArrivesFurther(j.r.buffer, InR(j), t.codec.writeStatus(StatusTooManyAttempts));
  }

  /** What is lost depends on the channels only through what is still to be read. */
  lemma LostOfStreams(t: Setup, j: Joint, k: Joint)
    requires LostOverPin(t, j) || LostOverRefusal(t, j)
    requires k.s == j.s && k.r == j.r && k.sPins == j.sPins && k.rPins == j.rPins && InR(k) == InR(j) && InS(k) == InS(j)
    ensures LostOverPin(t, k) || LostOverRefusal(t, k)
  {
  }

  lemma LostFlush(t: Setup, j: Joint)
    requires LostOverPin(t, j) || LostOverRefusal(t, j)
    ensures var k := JStep(t, j, FlushSender); LostOverPin(t, k) || LostOverRefusal(t, k)
    ensures var k := JStep(t, j, FlushReceiver); LostOverPin(t, k) || LostOverRefusal(t, k)
  {
    if j.sOut != [] {
      assert (j.toR + [j.sOut[0]]) + j.sOut[1..] == j.toR + j.sOut;
      LostOfStreams(t, j, JStep(t, j, FlushSender));
    }
    if j.rOut != [] {
      assert (j.toS + [j.rOut[0]]) + j.rOut[1..] == j.toS + j.rOut;
      LostOfStreams(t, j, JStep(t, j, FlushReceiver));
    }
  }

  lemma LostRead(t: Setup, j: Joint)
    requires Proper(t) && (LostOverPin(t, j) || LostOverRefusal(t, j))
    ensures var k := JStep(t, j, SenderRead); LostOverPin(t, k) || LostOverRefusal(t, k)
    ensures var k := JStep(t, j, ReceiverRead); LostOverPin(t, k) || LostOverRefusal(t, k)
  {
    if j.sOut == [] && j.toS != [] && SenderReads(j.s) {
      SenderReadView(t, j);
      LostOverPinReads(t, j, JStep(t, j, SenderRead));
    }
    if j.rOut == [] && j.toR != [] && ReceiverReads(j.r) {
      ReceiverReadView(t, j);
      if LostOverPin(t, j) {
        LostOverPinIsRead(t, j, JStep(t, j, ReceiverRead));
      } else {
        RefusalIsRead(t, j, JStep(t, j, ReceiverRead));
      }
    }
  }

  lemma LostUsers(t: Setup, j: Joint, step: JointStep)
    requires LostOverPin(t, j) || LostOverRefusal(t, j)
    requires !step.FlushSender? && !step.FlushReceiver? && !step.SenderRead? && !step.ReceiverRead?
    ensures var k := JStep(t, j, step); LostOverPin(t, k) || LostOverRefusal(t, k)
  {
    if step.SenderEnters? && j.s.SPrompt? && j.sOut == [] {
      assert InR(JStep(t, j, step)) == [Text(Pin(step.pin))];
    }
  }

  lemma TroubledStep(t: Setup, j: Joint, step: JointStep)
    requires Proper(t) && Troubled(t) && TroubledShape(t, j)
    ensures TroubledShape(t, JStep(t, j, step))
  {
    if InStep(t, j) {
      InStepStep(t, j, step);
    } else if step.FlushSender? || step.FlushReceiver? {
      LostFlush(t, j);
    } else if step.SenderRead? || step.ReceiverRead? {
      LostRead(t, j);
    } else {
      LostUsers(t, j, step);
    }
  }

  lemma {:induction false} ReachableTroubled(t: Setup, steps: seq<JointStep>)
    requires Proper(t) && Troubled(t)
    ensures TroubledShape(t, JRun(t, steps))
  {
    if steps != [] {
      ReachableTroubled(t, steps[..|steps| - 1]);
      TroubledStep(t, JRun(t, steps[..|steps| - 1]), steps[|steps| - 1]);
    }
  }
}
