/** That joint runs of a WebRTC sender and receiver come to rest, and when they get to the file phase. */
module HandshakeProgress {
  import opened Chunking
  import opened WebRtcMessages
  import opened Handshake
  import opened HandshakeInvariant
  import opened HandshakeTroubles
  import opened HandshakeTheorems

  // ---------------------------------------------------------------------------
  // A measure of what is still to come
  // ---------------------------------------------------------------------------

  function TriesLeft(peer: Peer, tries: nat): nat {
    match peer.pin
    case None => 0
    case Some(cfg) => if tries < cfg.maxTries as int then cfg.maxTries as int - tries else 0
  }

  /** How far the sender is from its end; entering a PIN and reading the reply change nothing. */
  function SenderStage(t: Setup, pc: SenderPc): nat {
    match pc
    case SAwaitNonce => TriesLeft(t.sender, 0) + 5
    case SAwaitToken(_) => TriesLeft(t.sender, 0) + 4
    case SPrompt(_) => TriesLeft(t.sender, 0) + 3
    case SAwaitPinReply(_) => TriesLeft(t.sender, 0) + 3
    case SVerify(_, tries) => TriesLeft(t.sender, tries) + 2
    case SAwaitSelection(_, _) => 1
    case SSending(_, _) => 0
    case SStopped(_) => 0
  }

  function ReceiverStage(t: Setup, pc: ReceiverPc): nat {
    match pc
    case RAwaitNonce => TriesLeft(t.receiver, 0) + 5
    case RAwaitToken(_) => TriesLeft(t.receiver, 0) + 4
    case RVerify(_, tries) => TriesLeft(t.receiver, tries) + 3
    case RAwaitStatus(_, _) => 2
    case RPrompt(_) => 2
    case RAwaitPinStatus(_, _) => 2
    case RSelecting(_, _) => 1
    case RReceiving(_, _, _) => 0
    case RStopped(_) => 0
  }

  /** A text message can make its reader ask the user for a PIN, which makes one more message. */
  function WeightToReceiver(msg: Msg): nat {
    if msg.Text? then 4 else 1
  }

  function WeightToSender(msg: Msg): nat {
    if msg.Text? && !msg.text.Pin? then 7 else 1
  }

  function Load(weight: Msg -> nat, msgs: seq<Msg>): nat {
    if msgs == [] then 0 else weight(msgs[0]) + Load(weight, msgs[1..])
  }

  lemma {:induction false} LoadAppend(weight: Msg -> nat, msgs: seq<Msg>, msg: Msg)
    ensures Load(weight, msgs + [msg]) == Load(weight, msgs) + weight(msg)
  {
    if msgs == [] {
      assert [msg][1..] == [];
    } else {
      assert (msgs + [msg])[1..] == msgs[1..] + [msg];
      LoadAppend(weight, msgs[1..], msg);
    }
  }

  function Stages(t: Setup, j: Joint): nat {
    SenderStage(t, j.s) + ReceiverStage(t, j.r)
  }

  /** Messages on their way, those not sent yet once more, and prompts that wait for an entry. */
  function Waiting(j: Joint): nat {
    Load(WeightToReceiver, j.sOut) + |j.sOut| + Load(WeightToReceiver, j.toR) + (if j.s.SPrompt? then 6 else 0)
    + Load(WeightToSender, j.rOut) + |j.rOut| + Load(WeightToSender, j.toS) + (if j.r.RPrompt? then 3 else 0)
  }

  predicate Lower(t: Setup, k: Joint, j: Joint) {
    Stages(t, k) < Stages(t, j) || (Stages(t, k) == Stages(t, j) && Waiting(k) < Waiting(j))
  }

  lemma FlushLowers(t: Setup, j: Joint)
    ensures j.sOut != [] ==> Lower(t, JStep(t, j, FlushSender), j)
    ensures j.rOut != [] ==> Lower(t, JStep(t, j, FlushReceiver), j)
  {
    if j.sOut != [] {
      LoadAppend(WeightToReceiver, j.toR, j.sOut[0]);
    }
    if j.rOut != [] {
      LoadAppend(WeightToSender, j.toS, j.rOut[0]);
    }
  }

  /** A message brings its reader nearer to the end, or makes it ask, or is only taken away. */
  lemma SenderOnLowers(t: Setup, pc: SenderPc, msg: Msg)
    requires SenderReads(pc)
    ensures var (next, out) := SenderOn(t, pc, msg);
      || SenderStage(t, next) < SenderStage(t, pc)
      || (SenderStage(t, next) == SenderStage(t, pc) && out == [] && (next.SPrompt? ==> WeightToSender(msg) == 7))
  {
  }

  lemma ReceiverOnLowers(t: Setup, pc: ReceiverPc, msg: Msg)
    requires ReceiverReads(pc)
    ensures var (next, out) := ReceiverOn(t, pc, msg);
      || ReceiverStage(t, next) < ReceiverStage(t, pc)
      || (ReceiverStage(t, next) == ReceiverStage(t, pc) && out == [] && (next.RPrompt? ==> WeightToReceiver(msg) == 4))
  {
  }

  lemma ReadLowers(t: Setup, j: Joint)
    ensures j.sOut == [] && j.toS != [] && SenderReads(j.s) ==> Lower(t, JStep(t, j, SenderRead), j)
    ensures j.rOut == [] && j.toR != [] && ReceiverReads(j.r) ==> Lower(t, JStep(t, j, ReceiverRead), j)
  {
    if j.sOut == [] && j.toS != [] && SenderReads(j.s) {
      SenderOnLowers(t, j.s, j.toS[0]);
    }
    if j.rOut == [] && j.toR != [] && ReceiverReads(j.r) {
      ReceiverOnLowers(t, j.r, j.toR[0]);
    }
  }

  lemma UserLowers(t: Setup, j: Joint, step: JointStep)
    requires !step.FlushSender? && !step.FlushReceiver? && !step.SenderRead? && !step.ReceiverRead?
    requires JStep(t, j, step) != j
    ensures Lower(t, JStep(t, j, step), j)
  {
    if step.SenderEnters? {
      assert Load(WeightToReceiver, [Text(Pin(step.pin))]) == 4 + Load(WeightToReceiver, [Text(Pin(step.pin))][1..]);
    } else if step.ReceiverEnters? {
      assert Load(WeightToSender, [Text(Pin(step.pin))]) == 1 + Load(WeightToSender, [Text(Pin(step.pin))][1..]);
    }
  }

  /**
   Every step that changes anything, of whatever state and configuration, strictly lowers a
   lexicographic measure: so no joint run goes on for ever, however users answer.
   */
  lemma StepsLower(t: Setup, j: Joint, step: JointStep)
    requires JStep(t, j, step) != j
    ensures Lower(t, JStep(t, j, step), j)
  {
    if step.FlushSender? || step.FlushReceiver? {
      FlushLowers(t, j);
    } else if step.SenderRead? || step.ReceiverRead? {
      ReadLowers(t, j);
    } else {
      UserLowers(t, j, step);
    }
  }

  /** Something can happen exactly if the state is not idle. */
  lemma IdleIffStuck(t: Setup, j: Joint)
    ensures Idle(j) <==> forall step :: JStep(t, j, step) == j
  {
    if Idle(j) {
      forall step ensures JStep(t, j, step) == j {
        IdleForGood(t, j, [step]);
        OneJointStep(t, j, step);
      }
    } else {
      var step := SomeStep(t, j);
    }
  }

  lemma OneJointStep(t: Setup, j: Joint, step: JointStep)
    ensures JRunFrom(t, j, [step]) == JStep(t, j, step)
  {
    assert [step][..0] == [];
    assert JRunFrom(t, j, [step][..0]) == j;
  }

  lemma SomeStep(t: Setup, j: Joint) returns (step: JointStep)
    requires !Idle(j)
    ensures JStep(t, j, step) != j
  {
    step :=
      if j.sOut != [] then FlushSender
      else if j.rOut != [] then FlushReceiver
      else if j.toS != [] && SenderReads(j.s) then SenderRead
      else if j.toR != [] && ReceiverReads(j.r) then ReceiverRead
      else if j.s.SPrompt? then SenderAbandons
      else ReceiverAbandons;
  }

  lemma {:induction false} StepFirst(t: Setup, j: Joint, step: JointStep, more: seq<JointStep>)
    ensures JRunFrom(t, j, [step] + more) == JRunFrom(t, JStep(t, j, step), more)
  {
    if more == [] {
      assert [step] + more == [step];
      OneJointStep(t, j, step);
    } else {
      var all := [step] + more;
      assert all[..|all| - 1] == [step] + more[..|more| - 1];
      StepFirst(t, j, step, more[..|more| - 1]);
    }
  }

  /** From every state, one effective step after the other leads to an idle one. */
  lemma {:induction false} RunsComeToRest(t: Setup, j: Joint) returns (more: seq<JointStep>)
    ensures Idle(JRunFrom(t, j, more))
    decreases Stages(t, j), Waiting(j)
  {
    if Idle(j) {
      more := [];
    } else {
      var step := SomeStep(t, j);
      StepsLower(t, j, step);
      var rest := RunsComeToRest(t, JStep(t, j, step));
      more := [step] + rest;
      StepFirst(t, j, step, rest);
    }
  }

  // ---------------------------------------------------------------------------
  // Reaching the file phase
  // ---------------------------------------------------------------------------

  /** The sender's next message is sent and read. */
  lemma ReceiverTakesOne(t: Setup, j: Joint, k: Joint) returns (read: Joint)
    requires Reaches(t, j, k) && k.toR == [] && k.rOut == [] && k.sOut != [] && ReceiverReads(k.r)
    ensures Reaches(t, j, read)
    ensures read == k.(sOut := k.sOut[1..], r := ReceiverOn(t, k.r, k.sOut[0]).0, rOut := ReceiverOn(t, k.r, k.sOut[0]).1)
  {
    var sent := JStep(t, k, FlushSender);
    ReachesThen(t, j, k, FlushSender);
    assert sent == k.(sOut := k.sOut[1..], toR := [k.sOut[0]]);
    read := JStep(t, sent, ReceiverRead);
    ReachesThen(t, j, sent, ReceiverRead);
  }

  /** A string that is on its way to the receiver is read, chunk by chunk. */
  lemma {:induction false} StringToReceiver(t: Setup, j: Joint, k: Joint, payload: Bytes) returns (last: Joint)
    requires Reaches(t, j, k) && k.toR == [] && k.rOut == [] && (k.r.RAwaitStatus? || k.r.RAwaitPinStatus?)
    requires Arriving(k.r.buffer, k.sOut, payload)
    ensures Reaches(t, j, last)
    ensures last == k.(sOut := [], r := ReceiverOn(t, k.r.(buffer := payload), Text(Delimiter)).0)
    decreases |k.sOut|
  {
    ArrivesFurther(k.r.buffer, k.sOut, payload);
    var read := ReceiverTakesOne(t, j, k);
    if k.sOut[0].Binary? {
      last := StringToReceiver(t, j, read, payload);
    } else {
      last := read;
    }
  }

  lemma {:induction false} StringToSender(t: Setup, j: Joint, k: Joint, payload: Bytes) returns (last: Joint)
    requires Reaches(t, j, k) && k.toS == [] && k.sOut == [] && k.s.SAwaitSelection?
    requires Arriving(k.s.buffer, k.rOut, payload)
    ensures Reaches(t, j, last)
    ensures last == k.(rOut := [], s := SenderOn(t, k.s.(buffer := payload), Text(Delimiter)).0)
    decreases |k.rOut|
  {
    ArrivesFurther(k.s.buffer, k.rOut, payload);
    var read := ReceiverTells(t, j, k);
    if k.rOut[0].Binary? {
      last := StringToSender(t, j, read, payload);
    } else {
      last := read;
    }
  }

  /** Both accept each other's token, they cannot lose step, and the receiver allows a try if it asks. */
  predicate CanPass(t: Setup) {
    && SenderTrusts(t) && ReceiverTrusts(t) && !Troubled(t)
    && (t.receiver.pin.Some? ==> t.receiver.pin.value.maxTries > 0)
  }

  /** Nothing is on its way but what the sender is about to send. */
  predicate SenderSpeaks(j: Joint) {
    j.rOut == [] && j.toR == [] && j.toS == []
  }

  /** The sending user enters the receiver's PIN, if one is asked for. */
  lemma PassReceiver(t: Setup) returns (k: Joint)
    requires Proper(t) && CanPass(t)
    ensures Reaches(t, Begin(t), k) && SenderSpeaks(k) && k.r == RAwaitStatus(CommonNonce(t), [])
    ensures k.s == SenderChallenges(t, CommonNonce(t)).0 && k.sOut == SenderChallenges(t, CommonNonce(t)).1
  {
    k := TokensExchanged(t);
    k := ReceiverTells(t, Begin(t), k);
    if t.receiver.pin.Some? {
      var pin := t.receiver.pin.value.pin;
      ReachesThen(t, Begin(t), k, SenderEnters(pin));
      k := JStep(t, k, SenderEnters(pin));
      k := SenderTells(t, Begin(t), k, Text(Pin(pin)));
      k := ReceiverTells(t, Begin(t), k);
    }
  }

  /** The receiving user enters the sender's PIN, if one is asked for, and sees the files. */
  lemma PassSender(t: Setup) returns (k: Joint)
    requires Proper(t) && CanPass(t)
    ensures Reaches(t, Begin(t), k) && SenderSpeaks(k) && k.sOut == []
    ensures k.s == SAwaitSelection(CommonNonce(t), []) && k.r == RSelecting(CommonNonce(t), t.files)
  {
    k := PassReceiver(t);
    if SenderAsks(t) {
      FrameArrives(t.codec.writeStatus(StatusPinRequired));
      k := StringToReceiver(t, Begin(t), k, t.codec.writeStatus(StatusPinRequired));
      var pin := t.sender.pin.value.pin;
      ReachesThen(t, Begin(t), k, ReceiverEnters(pin));
      k := JStep(t, k, ReceiverEnters(pin));
      k := ReceiverTells(t, Begin(t), k);
    }
    FrameArrives(t.codec.writeStatus(FilesOffered(t.files)));
    k := StringToReceiver(t, Begin(t), k, t.codec.writeStatus(FilesOffered(t.files)));
  }

  /** Whatever the receiving user selects, a run gets both sides to the file phase with it. */
  lemma FilePhaseIsReached(t: Setup, tokens: map<FileId, FileToken>)
    requires Proper(t) && CanPass(t)
    ensures exists steps: seq<JointStep> ::
      && Idle(JRun(t, steps)) && JRun(t, steps).s == SSending(CommonNonce(t), tokens)
      && JRun(t, steps).r == RReceiving(CommonNonce(t), tokens, t.files)
  {
    var k := PassSender(t);
    ReachesThen(t, Begin(t), k, ReceiverSelects(tokens));
    k := JStep(t, k, ReceiverSelects(tokens));
    FrameArrives(t.codec.writeSelection(Selected(tokens)));
    k := StringToSender(t, Begin(t), k, t.codec.writeSelection(Selected(tokens)));
    var steps: seq<JointStep> :| JRunFrom(t, Begin(t), steps) == k;
    assert JRun(t, steps) == k;
  }

  /**
   Some run gets to the file phase if and only if both sides accept the other's token, they
   cannot lose step, and the receiver allows at least one try if it asks for a PIN.
   */
  lemma FilePhaseReachableIff(t: Setup)
    requires Proper(t)
    ensures (exists steps: seq<JointStep> :: JRun(t, steps).s.SSending?) <==> CanPass(t)
  {
    if CanPass(t) {
      FilePhaseIsReached(t, map[]);
    }
    forall steps: seq<JointStep> | JRun(t, steps).s.SSending? ensures CanPass(t) {
      ReachableStates(t, steps);
      SendingCanPass(t, JRun(t, steps));
    }
  }

  lemma SendingCanPass(t: Setup, j: Joint)
    requires if Troubled(t) then TroubledShape(t, j) else Shape(t, j)
    requires j.s.SSending?
    ensures CanPass(t)
  {
  }
}
