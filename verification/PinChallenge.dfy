/** The two loops of a PIN challenge (`packages/core/src/webrtc/webrtc.rs:1132-1248`). */
module PinChallenge {
  import opened WebRtcMessages

  newtype U8 = x: int | 0 <= x < 256

  datatype PinConfig = PinConfig(pin: string, maxTries: U8)

  /** None of the entries is the PIN. */
  ghost predicate AllWrong(cfg: PinConfig, entries: seq<string>) {
    forall i :: 0 <= i < |entries| ==> entries[i] != cfg.pin
  }

  /** The last entry is the PIN, the earlier ones are not, and there are not too many. */
  ghost predicate SolvedBy(cfg: PinConfig, entries: seq<string>) {
    && 0 < |entries| <= cfg.maxTries as int
    && entries[|entries| - 1] == cfg.pin
    && AllWrong(cfg, entries[..|entries| - 1])
  }

  datatype VerifyOutcome = Verified | TooManyAttempts | ChannelClosed

  /**
   `verify_pin`: reads PINs from `incoming` until one is right or `maxTries` were
   wrong. `replies` are the replies it sends itself; the caller sends `PinOk`.
   The loop looks at the PIN before it reads anything, so an empty PIN is accepted
   unread.
   */
  method VerifyPin(cfg: PinConfig, initialNotice: bool, incoming: seq<string>)
    returns (outcome: VerifyOutcome, replies: seq<PinReply>, read: nat)
    ensures read <= |incoming| && read <= cfg.maxTries as int
    ensures outcome.Verified? <==>
              cfg.pin == "" || exists i :: 0 <= i < |incoming| && i < cfg.maxTries as int && incoming[i] == cfg.pin
    ensures outcome.Verified? ==> if cfg.pin == "" then read == 0 else SolvedBy(cfg, incoming[..read])
    ensures outcome.TooManyAttempts? ==> read == cfg.maxTries as int && AllWrong(cfg, incoming[..read])
    ensures outcome.ChannelClosed? ==> read == |incoming| < cfg.maxTries as int && AllWrong(cfg, incoming)
    // every PIN that was read gets one reply, after the one that asks for the first
    ensures cfg.pin != "" && cfg.maxTries > 0 ==>
              |replies| + (if outcome.Verified? then 1 else 0) == read + (if initialNotice then 1 else 0)
    ensures forall k :: 0 <= k < |replies| ==>
              replies[k] == if outcome.TooManyAttempts? && k == |replies| - 1 then PinTooManyAttempts else PinRequired
  {
    var remotePin := "";
    var pinTry: U8 := 0;
    var notice := initialNotice;
    replies, read := [], 0;
    while true
      invariant read == pinTry as int <= |incoming|
      invariant pinTry <= cfg.maxTries
      invariant remotePin == if read == 0 then "" else incoming[read - 1]
      invariant read > 0 ==> AllWrong(cfg, incoming[..read - 1]) && cfg.pin != ""
      invariant notice <==> initialNotice && read == 0
      invariant forall k :: 0 <= k < |replies| ==> replies[k].PinRequired?
      invariant |replies| == if initialNotice then read else if read == 0 then 0 else read - 1
      decreases cfg.maxTries as int - read
    {
      if remotePin == cfg.pin {
        outcome := Verified;
        return;
      }
      assert AllWrong(cfg, incoming[..read]) by {
        if read > 0 {
          assert incoming[..read] == incoming[..read - 1] + [remotePin];
        }
      }
      if pinTry >= cfg.maxTries {
        replies := replies + [PinTooManyAttempts];
        outcome := TooManyAttempts;
        assert forall i :: 0 <= i < read ==> incoming[..read][i] == incoming[i];
        return;
      }
      if notice || pinTry > 0 {
        notice := false;
        replies := replies + [PinRequired];
      }
      if read == |incoming| {
        outcome := ChannelClosed;
        assert incoming[..read] == incoming;
        return;
      }
      remotePin := incoming[read];
      assert incoming[..read + 1 - 1] == incoming[..read];
      read := read + 1;
      pinTry := pinTry + 1;
    }
  }

  datatype ProveOutcome = Proved | Refused | NotProvided | Disconnected

  /**
   `handle_pin`: asks the user for a PIN, sends it, reads the reply, and repeats
   until the peer accepts or gives up. Each PIN is sent only after the reply to the
   previous one was read.
   */
  method ProvePin(entries: seq<string>, replies: seq<PinReply>) returns (outcome: ProveOutcome, sent: nat)
    ensures sent <= |entries|
    ensures outcome.Proved? ==> 0 < sent <= |replies| && replies[sent - 1].PinOk?
    ensures outcome.Refused? ==> 0 < sent <= |replies| && replies[sent - 1].PinTooManyAttempts?
    ensures outcome.NotProvided? ==> sent == |entries| <= |replies|
    ensures outcome.Disconnected? ==> sent == |replies| + 1
    ensures forall k :: 0 <= k < sent - 1 ==> k < |replies| && replies[k].PinRequired?
    ensures outcome.NotProvided? ==> forall k :: 0 <= k < sent ==> replies[k].PinRequired?
  {
    sent := 0;
    while true
      invariant sent <= |entries| && sent <= |replies|
      invariant forall k :: 0 <= k < sent ==> replies[k].PinRequired?
      decreases |entries| - sent
    {
      if sent == |entries| {
        outcome := NotProvided;
        return;
      }
      sent := sent + 1;
      if sent > |replies| {
        outcome := Disconnected;
        return;
      }
      match replies[sent - 1] {
        case PinOk =>
          outcome := Proved;
          return;
        case PinRequired =>
        case PinTooManyAttempts =>
          outcome := Refused;
          return;
      }
    }
  }
}
