/** What holds in every joint run of a WebRTC sender and receiver. */
module HandshakeTheorems {
  import opened Chunking
  import opened WebRtcMessages
  import opened PinChallenge
  import opened Handshake
  import opened HandshakeInvariant
  import opened HandshakeTroubles

  predicate ProtocolError(j: Joint) {
    j.s == SStopped(Unexpected) || j.r == RStopped(Unexpected)
  }

  ghost predicate Reaches(t: Setup, j: Joint, k: Joint) {
    exists steps: seq<JointStep> :: JRunFrom(t, j, steps) == k
  }

  // ---------------------------------------------------------------------------
  // Safety
  // ---------------------------------------------------------------------------

  lemma ReachableStates(t: Setup, steps: seq<JointStep>)
    requires Proper(t)
    ensures if Troubled(t) then TroubledShape(t, JRun(t, steps)) else Shape(t, JRun(t, steps))
  {
    if Troubled(t) {
      ReachableTroubled(t, steps);
    } else {
      ReachableShape(t, steps);
    }
  }

  /** In every joint run both sides sign the same nonce: the sender's part, then the receiver's. */
  lemma SenderNoncesAgree(t: Setup, steps: seq<JointStep>)
    requires Proper(t)
    ensures !JRun(t, steps).s.SAwaitNonce? && !JRun(t, steps).s.SStopped? ==> JRun(t, steps).s.nonce == CommonNonce(t)
    ensures !JRun(t, steps).r.RAwaitNonce? && !JRun(t, steps).r.RStopped? ==> JRun(t, steps).r.nonce == CommonNonce(t)
  {
    ReachableStates(t, steps);
  }

  /** Nothing is left to do: no message can be sent or read, no user is asked. */
  predicate Idle(j: Joint) {
    && j.sOut == [] && j.rOut == []
    && (j.toS == [] || !SenderReads(j.s)) && (j.toR == [] || !ReceiverReads(j.r))
    && !j.s.SPrompt? && !j.r.RPrompt? && !j.r.RSelecting?
  }

  /** From there on nothing happens: a side that still waits does so for as long as the channel is open. */
  lemma {:induction false} IdleForGood(t: Setup, j: Joint, more: seq<JointStep>)
    requires Idle(j)
    ensures JRunFrom(t, j, more) == j
  {
    if more != [] {
      IdleForGood(t, j, more[..|more| - 1]);
    }
  }

  /** Both are in the file phase with the same terms, or both stopped for the same reason. */
  predicate EndAlike(t: Setup, j: Joint) {
    || (j.s.SSending? && j.r == RReceiving(CommonNonce(t), j.s.tokens, t.files))
    || (j.s == SStopped(TooManyPins) && j.r == RStopped(TooManyPins))
    || (j.s == SStopped(WasDeclined) && j.r == RStopped(WasDeclined))
    || (j.s == SStopped(UntrustedByPeer) && j.r == RStopped(UntrustedPeer))
  }

  /** The sender accepts the receiver's token, unless it never gets to see it. */
  predicate TokensSuit(t: Setup) {
    SenderTrusts(t) || !ReceiverTrusts(t)
  }

  /** A user who was asked for a PIN or a selection walked away. */
  predicate WalksAway(j: Joint, step: JointStep) {
    (step.SenderAbandons? && j.s.SPrompt?) || (step.ReceiverAbandons? && (j.r.RPrompt? || j.r.RSelecting?))
  }

  ghost predicate SomeoneWalkedAway(t: Setup, steps: seq<JointStep>) {
    exists i :: 0 <= i < |steps| && WalksAway(JRun(t, steps[..i]), steps[i])
  }

  /** The sender is let past the receiver's challenge in a troubled configuration. */
  ghost predicate LosesStep(t: Setup, entries: seq<string>) {
    Troubled(t) && (AcceptsUnread(t) || SenderPassed(t, entries))
  }

  predicate HasAbandoned(j: Joint) {
    j.s == SStopped(Abandoned) || j.r == RStopped(Abandoned)
  }

  lemma AbandonStep(t: Setup, j: Joint, step: JointStep)
    ensures HasAbandoned(JStep(t, j, step)) <==> HasAbandoned(j) || WalksAway(j, step)
  {
  }

  lemma AbandonLast(t: Setup, steps: seq<JointStep>, front: seq<JointStep>, last: JointStep)
    requires steps == front + [last]
    ensures HasAbandoned(JRun(t, steps)) <==> HasAbandoned(JRun(t, front)) || WalksAway(JRun(t, front), last)
  {
    assert steps[..|steps| - 1] == front;
    AbandonStep(t, JRun(t, front), last);
  }

  lemma WalkedAwayEarlierOrNow(t: Setup, steps: seq<JointStep>, front: seq<JointStep>, last: JointStep)
    requires steps == front + [last]
    ensures SomeoneWalkedAway(t, steps) <==> SomeoneWalkedAway(t, front) || WalksAway(JRun(t, front), last)
  {
    forall i | 0 <= i < |front| ensures steps[..i] == front[..i] && steps[i] == front[i] {
    }
    assert steps[..|front|] == front;
    if SomeoneWalkedAway(t, front) {
      var i :| 0 <= i < |front| && WalksAway(JRun(t, front[..i]), front[i]);
      assert WalksAway(JRun(t, steps[..i]), steps[i]);
    }
    if WalksAway(JRun(t, front), last) {
      assert WalksAway(JRun(t, steps[..|front|]), steps[|front|]);
    }
    if SomeoneWalkedAway(t, steps) {
      var i :| 0 <= i < |steps| && WalksAway(JRun(t, steps[..i]), steps[i]);
      assert i < |front| ==> WalksAway(JRun(t, front[..i]), front[i]);
    }
  }

  lemma {:induction false} AbandonedIffWalkedAway(t: Setup, steps: seq<JointStep>)
    ensures HasAbandoned(JRun(t, steps)) <==> SomeoneWalkedAway(t, steps)
  {
    if steps != [] {
      var front, last := steps[..|steps| - 1], steps[|steps| - 1];
      AbandonedIffWalkedAway(t, front);
      assert steps == front + [last];
      AbandonLast(t, steps, front, last);
      WalkedAwayEarlierOrNow(t, steps, front, last);
    }
  }

  /**
   When nothing is left to do, both sides ended alike if and only if the tokens suit, no
   user walked away, and the two did not lose step. Otherwise one side has stopped without
   the other being told, which waits or has met a message it did not expect.
   When they ended alike every message has been read, each PIN and each reply to one among
   them. Only a receiver that allows no tries at all gives up without reading the PIN it
   asked for.
   */
  lemma RunsEndAlikeIff(t: Setup, steps: seq<JointStep>)
    requires Proper(t) && Idle(JRun(t, steps))
    ensures EndAlike(t, JRun(t, steps)) <==>
      TokensSuit(t) && !SomeoneWalkedAway(t, steps) && !LosesStep(t, JRun(t, steps).sPins)
    ensures EndAlike(t, JRun(t, steps)) ==>
      JRun(t, steps).toS == [] && (JRun(t, steps).toR == [] || (t.receiver.pin.Some? && t.receiver.pin.value.maxTries == 0))
    ensures JRun(t, steps).s.SSending? ==> EndAlike(t, JRun(t, steps))
  {
    ReachableStates(t, steps);
    AbandonedIffWalkedAway(t, steps);
    if Troubled(t) {
      IdleTroubled(t, JRun(t, steps));
    } else {
      IdleShape(t, JRun(t, steps));
    }
  }

  lemma IdleShape(t: Setup, j: Joint)
    requires Shape(t, j) && Idle(j)
    ensures EndAlike(t, j) <==> TokensSuit(t) && !HasAbandoned(j)
    ensures EndAlike(t, j) ==> j.toS == [] && (j.toR == [] || (t.receiver.pin.Some? && t.receiver.pin.value.maxTries == 0))
    ensures j.s.SSending? ==> EndAlike(t, j)
  {
    assert InR(j) == j.toR && InS(j) == j.toS;
  }

  lemma IdleTroubled(t: Setup, j: Joint)
    requires Proper(t) && Troubled(t) && TroubledShape(t, j) && Idle(j)
    ensures EndAlike(t, j) <==> !HasAbandoned(j) && !LosesStep(t, j.sPins)
    ensures EndAlike(t, j) ==> j.toS == [] && j.toR == []
    ensures !j.s.SSending?
  {
    assert InR(j) == j.toR && InS(j) == j.toS;
    if InStep(t, j) {
      IdleShape(t, j);
      IdleInStep(t, j);
    }
  }

  lemma IdleInStep(t: Setup, j: Joint)
    requires Troubled(t) && InStep(t, j) && Idle(j)
    ensures LosesStep(t, j.sPins) ==> HasAbandoned(j)
    ensures j.toS == [] || HasAbandoned(j)
    ensures j.toR == [] || HasAbandoned(j)
  {
    assert InR(j) == j.toR && InS(j) == j.toS;
  }

  /**
   A sender that rejects the receiver's token stops without a word: whatever the
   receiver's PIN, a run ends with it as it was after it sent the token.
   */
  lemma RejectionIsSilent(t: Setup)
    requires Proper(t) && !SenderTrusts(t) && ReceiverTrusts(t)
    ensures exists steps: seq<JointStep> ::
      && Idle(JRun(t, steps)) && JRun(t, steps).s == SStopped(UntrustedPeer)
      && JRun(t, steps).r == ReceiverChallenges(t, CommonNonce(t)).0
  {
    var k := TokensExchanged(t);
    k := ReceiverTells(t, Begin(t), k);
    if k.rOut != [] {
      ReachesThen(t, Begin(t), k, FlushReceiver);
      k := JStep(t, k, FlushReceiver);
    }
    var steps: seq<JointStep> :| JRunFrom(t, Begin(t), steps) == k;
    assert JRun(t, steps) == k;
  }

  // ---------------------------------------------------------------------------
  // PIN verdicts
  // ---------------------------------------------------------------------------

  /** One of the first `maxTries` entries is the PIN. */
  ghost predicate SolvedInTime(cfg: PinConfig, entries: seq<string>) {
    exists i :: 0 <= i < |entries| && i < cfg.maxTries as int && entries[i] == cfg.pin
  }

  lemma SolvedIsInTime(cfg: PinConfig, entries: seq<string>)
    ensures SolvedBy(cfg, entries) ==> SolvedInTime(cfg, entries)
    ensures Exhausted(cfg, entries) ==> !SolvedInTime(cfg, entries)
  {
    if SolvedBy(cfg, entries) {
      assert entries[|entries| - 1] == cfg.pin;
    }
  }

  /**
   A session that gets to the file phase, or is declined there, has passed both
   challenges with one of the allowed entries; two sides that stop over a PIN have
   used up all of them without the right one.
   */
  lemma PinVerdicts(t: Setup, steps: seq<JointStep>)
    requires Proper(t)
    ensures var j := JRun(t, steps);
      && (j.s.SSending? || j.s == SStopped(WasDeclined) ==>
            && (t.receiver.pin.Some? ==> SolvedInTime(t.receiver.pin.value, j.sPins))
            && (SenderAsks(t) ==> SolvedInTime(t.sender.pin.value, j.rPins)))
      && (j.s == SStopped(TooManyPins) ==>
            || (t.receiver.pin.Some? && !SolvedInTime(t.receiver.pin.value, j.sPins))
            || (SenderAsks(t) && !SolvedInTime(t.sender.pin.value, j.rPins)))
  {
    ReachableStates(t, steps);
    var j := JRun(t, steps);
    if t.receiver.pin.Some? {
      SolvedIsInTime(t.receiver.pin.value, j.sPins);
    }
    if t.sender.pin.Some? {
      SolvedIsInTime(t.sender.pin.value, j.rPins);
    }
  }

  // ---------------------------------------------------------------------------
  // The challenges of the processes and the loop of `PinChallenge.VerifyPin`
  // ---------------------------------------------------------------------------

  /** The receiver reads PINs for as long as it verifies: its state, its replies, the PINs left. */
  function ReceiverFed(t: Setup, pc: ReceiverPc, pins: seq<string>): (ReceiverPc, seq<Msg>, seq<string>)
    decreases |pins|
  {
    if pins == [] || !pc.RVerify? then (pc, [], pins)
    else
      var (next, out) := ReceiverOn(t, pc, Text(Pin(pins[0])));
      var (last, more, unread) := ReceiverFed(t, next, pins[1..]);
      (last, out + more, unread)
  }

  /** The same for the sender, which replies with chunked strings. */
  function SenderFed(t: Setup, pc: SenderPc, pins: seq<string>): (SenderPc, seq<Msg>, seq<string>)
    decreases |pins|
  {
    if pins == [] || !pc.SVerify? then (pc, [], pins)
    else
      var (next, out) := SenderOn(t, pc, Text(Pin(pins[0])));
      var (last, more, unread) := SenderFed(t, next, pins[1..]);
      (last, out + more, unread)
  }

  /** How many delimited strings `msgs` hold. */
  function Frames(msgs: seq<Msg>): nat {
    if msgs == [] then 0 else Frames(msgs[1..]) + if msgs[0].Text? then 1 else 0
  }

  lemma {:induction false} FramesAppend(a: seq<Msg>, b: seq<Msg>)
    ensures Frames(a + b) == Frames(a) + Frames(b)
  {
    if a == [] {
      assert a + b == b;
    } else {
      assert (a + b)[1..] == a[1..] + b;
      FramesAppend(a[1..], b);
    }
  }

  lemma {:induction false} NoFrames(msgs: seq<Msg>)
    requires forall i :: 0 <= i < |msgs| ==> msgs[i].Binary?
    ensures Frames(msgs) == 0
  {
    if msgs != [] {
      NoFrames(msgs[1..]);
    }
  }

  lemma OneFrame(payload: Bytes)
    ensures Frames(FrameOf(payload)) == 1
  {
    var chunks: seq<Msg> := Binaries(Chunks(payload));
    var end: seq<Msg> := [Text(Delimiter)];
    NoFrames(chunks);
    FramesAppend(chunks, end);
    assert end[1..] == [];
  }

  lemma OneReply(t: Setup, nonce: Bytes, tries: nat, pin: string)
    requires t.sender.pin.Some?
    ensures Frames(SenderOn(t, SVerify(nonce, tries), Text(Pin(pin))).1) == 1
  {
    OneFrame(t.codec.writeStatus(FilesOffered(t.files)));
    OneFrame(t.codec.writeStatus(StatusTooManyAttempts));
    OneFrame(t.codec.writeStatus(StatusPinRequired));
  }

  /** The PIN is among the first `budget` entries. */
  ghost predicate Found(pin: string, entries: seq<string>, budget: int) {
    exists i :: 0 <= i < |entries| && i < budget && entries[i] == pin
  }

  lemma FoundLater(pin: string, entries: seq<string>, budget: int)
    requires entries != [] && budget > 0
    ensures Found(pin, entries, budget) <==> entries[0] == pin || Found(pin, entries[1..], budget - 1)
  {
    if Found(pin, entries[1..], budget - 1) {
      var i :| 0 <= i < |entries[1..]| && i < budget - 1 && entries[1..][i] == pin;
      assert entries[i + 1] == pin;
    }
    if i :| 0 <= i < |entries| && i < budget && entries[i] == pin {
      assert i > 0 ==> entries[1..][i - 1] == pin;
    }
  }

  /**
   Fed with any PINs, the receiver ends as the loop does: passed if one of the allowed
   entries is right, else stopped once they are used up, else waiting for the next. Every
   PIN that it reads gets one reply.
   */
  lemma {:induction false} ReceiverFollowsLoop(t: Setup, nonce: Bytes, tries: nat, pins: seq<string>)
    requires t.receiver.pin.Some? && tries < t.receiver.pin.value.maxTries as int
    ensures var cfg := t.receiver.pin.value; var left := cfg.maxTries as int - tries;
      ReceiverFed(t, RVerify(nonce, tries), pins).0 ==
        if Found(cfg.pin, pins, left) then RAwaitStatus(nonce, [])
        else if |pins| >= left then RStopped(TooManyPins)
        else RVerify(nonce, tries + |pins|)
    ensures var (_, replies, unread) := ReceiverFed(t, RVerify(nonce, tries), pins); |replies| + |unread| == |pins|
    decreases |pins|
  {
    var cfg := t.receiver.pin.value;
    if pins != [] {
      FoundLater(cfg.pin, pins, cfg.maxTries as int - tries);
      if pins[0] != cfg.pin && tries + 1 < cfg.maxTries as int {
        ReceiverFollowsLoop(t, nonce, tries + 1, pins[1..]);
      }
    }
  }

  /** The same for the sender's challenge, whose replies are delimited strings. */
  lemma {:induction false} SenderFollowsLoop(t: Setup, nonce: Bytes, tries: nat, pins: seq<string>)
    requires t.sender.pin.Some? && tries < t.sender.pin.value.maxTries as int
    ensures var cfg := t.sender.pin.value; var left := cfg.maxTries as int - tries;
      SenderFed(t, SVerify(nonce, tries), pins).0 ==
        if Found(cfg.pin, pins, left) then SAwaitSelection(nonce, [])
        else if |pins| >= left then SStopped(TooManyPins)
        else SVerify(nonce, tries + |pins|)
    ensures var (_, replies, unread) := SenderFed(t, SVerify(nonce, tries), pins); Frames(replies) + |unread| == |pins|
    decreases |pins|
  {
    var cfg := t.sender.pin.value;
    if pins != [] {
      var (next, out) := SenderOn(t, SVerify(nonce, tries), Text(Pin(pins[0])));
      OneReply(t, nonce, tries, pins[0]);
      FramesAppend(out, SenderFed(t, next, pins[1..]).1);
      FoundLater(cfg.pin, pins, cfg.maxTries as int - tries);
      if pins[0] != cfg.pin && tries + 1 < cfg.maxTries as int {
        SenderFollowsLoop(t, nonce, tries + 1, pins[1..]);
      }
    }
  }

  // ---------------------------------------------------------------------------
  // Where the two sides lose step
  // ---------------------------------------------------------------------------

  lemma ReachesNow(t: Setup, j: Joint)
    ensures Reaches(t, j, j)
  {
    assert JRunFrom(t, j, []) == j;
  }

  lemma ReachesThen(t: Setup, j: Joint, k: Joint, step: JointStep)
    requires Reaches(t, j, k)
    ensures Reaches(t, j, JStep(t, k, step))
  {
    var steps: seq<JointStep> :| JRunFrom(t, j, steps) == k;
    assert (steps + [step])[..|steps|] == steps;
    assert JRunFrom(t, j, steps + [step]) == JStep(t, k, step);
  }

  /** A single message sent by one side and read by the other. */
  lemma SenderTells(t: Setup, j: Joint, k: Joint, msg: Msg) returns (next: Joint)
    requires Reaches(t, j, k) && k.sOut == [msg] && k.toR == [] && k.rOut == [] && ReceiverReads(k.r)
    ensures Reaches(t, j, next)
    ensures next == k.(sOut := [], r := ReceiverOn(t, k.r, msg).0, rOut := ReceiverOn(t, k.r, msg).1)
  {
    var sent := JStep(t, k, FlushSender);
    ReachesThen(t, j, k, FlushSender);
    assert sent == k.(sOut := [], toR := [msg]);
    ReachesThen(t, j, sent, ReceiverRead);
    next := JStep(t, sent, ReceiverRead);
  }

  lemma ReceiverTells(t: Setup, j: Joint, k: Joint) returns (next: Joint)
    requires Reaches(t, j, k) && k.rOut != [] && k.toS == [] && k.sOut == [] && SenderReads(k.s)
    ensures Reaches(t, j, next)
    ensures next == k.(rOut := k.rOut[1..], s := SenderOn(t, k.s, k.rOut[0]).0, sOut := SenderOn(t, k.s, k.rOut[0]).1)
  {
    var sent := JStep(t, k, FlushReceiver);
    ReachesThen(t, j, k, FlushReceiver);
    assert sent == k.(rOut := k.rOut[1..], toS := [k.rOut[0]]);
    ReachesThen(t, j, sent, SenderRead);
    next := JStep(t, sent, SenderRead);
  }

  /** When the sender's token verifies, the receiver gets to its PIN decision. */
  lemma TokensExchanged(t: Setup) returns (k: Joint)
    requires Proper(t) && ReceiverTrusts(t)
    ensures Reaches(t, Begin(t), k)
    ensures k == Joint(SAwaitToken(CommonNonce(t)), [], [],
                       ReceiverChallenges(t, CommonNonce(t)).0, ReceiverChallenges(t, CommonNonce(t)).1, [], [], [])
  {
    ReachesNow(t, Begin(t));
    k := SenderTells(t, Begin(t), Begin(t), Text(Nonce(t.sender.nonce)));
    k := ReceiverTells(t, Begin(t), k);
    k := SenderTells(t, Begin(t), k, k.sOut[0]);
  }

  /** An empty receiver PIN: the receiver reads the sender's PIN where it expects the file list. */
  lemma EmptyPinLosesStep(t: Setup) returns (k: Joint)
    requires Proper(t) && SenderTrusts(t) && ReceiverTrusts(t)
    requires t.receiver.pin.Some? && t.receiver.pin.value.pin == ""
    ensures Reaches(t, Begin(t), k) && k.r == RStopped(Unexpected)
  {
    k := TokensExchanged(t);
    k := ReceiverTells(t, Begin(t), k);
    ReachesThen(t, Begin(t), k, SenderEnters("1234"));
    k := JStep(t, k, SenderEnters("1234"));
    // the premature `PinOk` goes out before the receiver reads on
    ReachesThen(t, Begin(t), k, FlushReceiver);
    k := JStep(t, k, FlushReceiver);
    k := SenderTells(t, Begin(t), k, Text(Pin("1234")));
  }

  /** A refusal before any challenge, chunk by chunk. */
  lemma {:induction false} UnaskedRefusal(t: Setup, j: Joint, k: Joint) returns (last: Joint)
    requires Faithful(t.codec) && Reaches(t, j, k)
    requires k.toR == [] && k.rOut == [] && k.r.RAwaitStatus?
    requires Arriving(k.r.buffer, k.sOut, t.codec.writeStatus(StatusTooManyAttempts))
    ensures Reaches(t, j, last) && last.r == RStopped(Unexpected)
    decreases |k.sOut|
  {
    ArrivesFurther(k.r.buffer, k.sOut, t.codec.writeStatus(StatusTooManyAttempts));
    var sent := JStep(t, k, FlushSender);
    ReachesThen(t, j, k, FlushSender);
    assert sent == k.(sOut := k.sOut[1..], toR := [k.sOut[0]]);
    var read := JStep(t, sent, ReceiverRead);
    ReachesThen(t, j, sent, ReceiverRead);
    if k.sOut[0].Binary? {
      last := UnaskedRefusal(t, j, read);
    } else {
      last := read;
    }
  }

  /** A sender PIN without tries: the sender refuses before it asked. */
  lemma NoTriesLosesStep(t: Setup) returns (k: Joint)
    requires Proper(t) && SenderTrusts(t) && ReceiverTrusts(t)
    requires SenderAsks(t) && t.sender.pin.value.maxTries == 0
    requires t.receiver.pin.Some? ==> t.receiver.pin.value.pin != "" && t.receiver.pin.value.maxTries > 0
    ensures Reaches(t, Begin(t), k) && k.r == RStopped(Unexpected)
  {
    k := TokensExchanged(t);
    k := ReceiverTells(t, Begin(t), k);
    if t.receiver.pin.Some? {
      var pin := t.receiver.pin.value.pin;
      ReachesThen(t, Begin(t), k, SenderEnters(pin));
      k := JStep(t, k, SenderEnters(pin));
      k := SenderTells(t, Begin(t), k, Text(Pin(pin)));
      k := ReceiverTells(t, Begin(t), k);
    }
    FrameArrives(t.codec.writeStatus(StatusTooManyAttempts));
    k := UnaskedRefusal(t, Begin(t), k);
  }

  /**
   Some joint run makes one side read a message of the wrong kind if and only if
   the configuration is one of the two troubled ones; on every other configuration
   each side only ever reads what it expects, whatever PINs are entered.
   */
  lemma ProtocolErrorIffTroubled(t: Setup)
    requires Proper(t)
    ensures (exists steps: seq<JointStep> :: ProtocolError(JRun(t, steps))) <==> Troubled(t)
  {
    if Troubled(t) {
      var k;
      if t.receiver.pin.Some? && t.receiver.pin.value.pin == "" {
        k := EmptyPinLosesStep(t);
      } else {
        k := NoTriesLosesStep(t);
      }
      var steps: seq<JointStep> :| JRunFrom(t, Begin(t), steps) == k;
      assert ProtocolError(JRun(t, steps));
    } else {
      forall steps: seq<JointStep> ensures !ProtocolError(JRun(t, steps)) {
        ReachableShape(t, steps);
        NoErrorInShape(t, JRun(t, steps));
      }
    }
  }

  lemma NoErrorInShape(t: Setup, j: Joint)
    requires Shape(t, j)
    ensures !ProtocolError(j)
  {
  }
}
