/** What becomes of the requests of clients: each is handled once, and its messages arrive once. */
module SignalingRelays {
  import opened Wrappers
  import opened Signaling
  import opened SignalingInvariants

  // ---------------------------------------------------------------------------
  // Books on requests and messages
  // ---------------------------------------------------------------------------

  /** The message is an update of `x` or relayed from it. */
  predicate IsTalk(msg: ServerMessage, x: PeerId) {
    (msg.Update? && msg.peer.id == x) || ((msg.Offer? || msg.Answer?) && msg.origin.id == x)
  }

  /** How often client `c` has received `msg`. */
  function Mailed(s: Server, c: PeerId, msg: ServerMessage): nat {
    if c in s.inbox then multiset(s.inbox[c])[msg] else 0
  }

  /** How often the receive loop of `x` still has `msg` to send to `c`. */
  function Queued(s: Server, x: PeerId, c: PeerId, msg: ServerMessage): nat {
    if x in s.conns then multiset(s.conns[x].out)[Send(c, msg)] else 0
  }

  predicate Waits(s: Server, x: PeerId, request: Request) {
    x in s.conns && s.conns[x].request == Some(request)
  }

  /** The step accepts `request` of client `x`: it is counted. */
  predicate Accepts(limits: Limits, s: Server, step: Step, x: PeerId, request: Request) {
    step == ClientSends(x, request) && Apply(limits, s, step).accepted != s.accepted
  }

  /** The step takes `request` of client `x` from its queue. */
  predicate Takes(limits: Limits, s: Server, step: Step, x: PeerId, request: Request) {
    step.Handle? && step.id == x && Waits(s, x, request) && !Waits(Apply(limits, s, step), x, request)
  }

  /** What `x` owes `c` when its `request` is taken: a relay goes to its target, an update to everybody else in the room. */
  predicate IsDue(s: Server, x: PeerId, request: Request, c: PeerId, msg: ServerMessage)
    requires x in s.conns
  {
    var room := RoomOf(s.rooms, s.conns[x].group);
    match request
    case UpdateInfo(info) => x in room && c in room && c != x && msg == Update(ClientInfo(x, info))
    case Relay(target, isAnswer, sdp) =>
      && c == target && c in room
      && msg == if isAnswer then Answer(ClientInfo(x, s.conns[x].info), sdp) else Offer(ClientInfo(x, s.conns[x].info), sdp)
  }

  predicate Owes(limits: Limits, s: Server, step: Step, x: PeerId, c: PeerId, msg: ServerMessage) {
    && step.Handle? && step.id == x && x in s.conns && s.conns[x].request.Some?
    && Takes(limits, s, step, x, s.conns[x].request.value) && IsDue(s, x, s.conns[x].request.value, c, msg)
  }

  function AcceptedIn(limits: Limits, steps: seq<Step>, x: PeerId, request: Request): nat {
    if steps == [] then 0
    else
      var front := steps[..|steps| - 1];
      AcceptedIn(limits, front, x, request) + if Accepts(limits, Run(limits, front), steps[|steps| - 1], x, request) then 1 else 0
  }

  function TakenIn(limits: Limits, steps: seq<Step>, x: PeerId, request: Request): nat {
    if steps == [] then 0
    else
      var front := steps[..|steps| - 1];
      TakenIn(limits, front, x, request) + if Takes(limits, Run(limits, front), steps[|steps| - 1], x, request) then 1 else 0
  }

  function OwedIn(limits: Limits, steps: seq<Step>, x: PeerId, c: PeerId, msg: ServerMessage): nat {
    if steps == [] then 0
    else
      var front := steps[..|steps| - 1];
      OwedIn(limits, front, x, c, msg) + if Owes(limits, Run(limits, front), steps[|steps| - 1], x, c, msg) then 1 else 0
  }

  // ---------------------------------------------------------------------------
  // Requests
  // ---------------------------------------------------------------------------

  lemma RequestAccepted(limits: Limits, s: Server, id: PeerId, sent: Request, x: PeerId, request: Request)
    ensures Waits(DoClientSends(limits, s, id, sent), x, request)
      <==> Waits(s, x, request) || Accepts(limits, s, ClientSends(id, sent), x, request)
    ensures Accepts(limits, s, ClientSends(id, sent), x, request) ==> !Waits(s, x, request)
  {
  }

  lemma RequestHandled(s: Server, id: PeerId, order: seq<PeerId>, x: PeerId, request: Request)
    ensures DoHandle(s, id, order).accepted == s.accepted
    ensures Waits(DoHandle(s, id, order), x, request) ==> Waits(s, x, request)
    ensures Waits(s, x, request) && x != id ==> Waits(DoHandle(s, id, order), x, request)
  {
  }

  lemma RequestStep(limits: Limits, s: Server, step: Step, x: PeerId, request: Request)
    ensures (if Waits(Apply(limits, s, step), x, request) then 1 else 0) + (if Takes(limits, s, step, x, request) then 1 else 0)
      == (if Waits(s, x, request) then 1 else 0) + (if Accepts(limits, s, step, x, request) then 1 else 0)
  {
    match step
    case ClientSends(id, sent) => RequestAccepted(limits, s, id, sent, x, request);
    case Handle(id, order) => RequestHandled(s, id, order, x, request);
    case Connect(id, g, info, order) => ConnectAdmits(limits, s, id, g, info, order);
    case Disconnect(id, order) => DisconnectLeaves(s, id, order);
    case _ =>
  }

  /** In every run each accepted request waits or has been taken, once. */
  lemma {:induction false} RequestsAreTakenOnce(limits: Limits, steps: seq<Step>, x: PeerId, request: Request)
    ensures AcceptedIn(limits, steps, x, request)
      == TakenIn(limits, steps, x, request) + if Waits(Run(limits, steps), x, request) then 1 else 0
  {
    if steps != [] {
      var front := steps[..|steps| - 1];
      RequestsAreTakenOnce(limits, front, x, request);
      RequestStep(limits, Run(limits, front), steps[|steps| - 1], x, request);
    }
  }

  // ---------------------------------------------------------------------------
  // Messages
  // ---------------------------------------------------------------------------

  /** What `x` has said to `c` and is about to. */
  function Said(s: Server, x: PeerId, c: PeerId, msg: ServerMessage): nat {
    Mailed(s, c, msg) + Queued(s, x, c, msg)
  }

  lemma {:induction false} NotAmong<T>(items: seq<T>, item: T)
    requires item !in items
    ensures multiset(items)[item] == 0
  {
  }

  lemma {:induction false} OneEach(order: seq<PeerId>, msg: ServerMessage, c: PeerId, other: ServerMessage)
    requires forall i, j :: 0 <= i < j < |order| ==> order[i] != order[j]
    ensures multiset(ToEach(order, msg))[Send(c, other)] == if c in order && msg == other then 1 else 0
  {
    if order != [] {
      var front, last := order[..|order| - 1], order[|order| - 1];
      OneEach(front, msg, c, other);
      assert ToEach(order, msg) == ToEach(front, msg) + [Send(last, msg)];
      assert order == front + [last];
    }
  }

  lemma DeliverMails(s: Server, id: PeerId, c: PeerId, msg: ServerMessage)
    requires id in s.conns && s.conns[id].out != [] && s.conns[id].out[0].target in s.inbox
    ensures Mailed(DoDeliver(s, id), c, msg) == Mailed(s, c, msg) + if s.conns[id].out[0] == Send(c, msg) then 1 else 0
  {
    var send := s.conns[id].out[0];
    assert DoDeliver(s, id).inbox == s.inbox[send.target := s.inbox[send.target] + [send.msg]];
  }

  lemma DeliverUnqueues(s: Server, id: PeerId, x: PeerId, c: PeerId, msg: ServerMessage)
    requires id in s.conns && s.conns[id].out != []
    ensures Queued(s, x, c, msg) == Queued(DoDeliver(s, id), x, c, msg) + if x == id && s.conns[id].out[0] == Send(c, msg) then 1 else 0
  {
    var out := s.conns[id].out;
    assert out == [out[0]] + out[1..];
  }

  /** The first send of `id` moves to the mail; it is talk of `id` alone. */
  lemma DeliverSaid(s: Server, id: PeerId, x: PeerId, c: PeerId, msg: ServerMessage)
    requires s.conns.Keys == s.inbox.Keys && id in s.conns && s.conns[id].out != []
    requires SendFits(s.conns, id, s.conns[id].out[0]) && IsTalk(msg, x)
    ensures Said(DoDeliver(s, id), x, c, msg) == Said(s, x, c, msg)
  {
    assert s.conns[id].out[0].target in s.conns.Keys;
    DeliverMails(s, id, c, msg);
    DeliverUnqueues(s, id, x, c, msg);
    assert Subject(msg, c) == x;
  }

  lemma GoodbyeSaid(s: Server, id: PeerId, x: PeerId, c: PeerId, msg: ServerMessage)
    requires id in s.conns && s.conns[id].farewell != []
    requires s.conns[id].farewell[0].msg.Left? && IsTalk(msg, x)
    ensures Said(DoSayGoodbye(s, id), x, c, msg) == Said(s, x, c, msg)
  {
  }

  lemma SentSaid(s: Server, id: PeerId, x: PeerId, c: PeerId, msg: ServerMessage)
    requires Inv(s) && IsTalk(msg, x)
    ensures Said(DoDeliver(s, id), x, c, msg) == Said(s, x, c, msg)
    ensures Said(DoSayGoodbye(s, id), x, c, msg) == Said(s, x, c, msg)
  {
    if id in s.conns {
      assert SenderFits(s.conns, id);
      if s.conns[id].out != [] {
        assert SendFits(s.conns, id, s.conns[id].out[0]);
        DeliverSaid(s, id, x, c, msg);
      }
      if s.conns[id].farewell != [] {
        assert FarewellFits(s.conns, id, s.conns[id].farewell[0]);
        GoodbyeSaid(s, id, x, c, msg);
      }
    }
  }

  /** Nobody has heard from, or is about to be told by, a client that is not connected. */
  lemma StrangersSayNothing(s: Server, x: PeerId, c: PeerId, msg: ServerMessage)
    requires Inv(s) && IsTalk(msg, x) && (x !in s.conns || c !in s.conns)
    ensures Said(s, x, c, msg) == 0
  {
    assert c in s.conns && msg in s.inbox[c] ==> MailFits(s.conns, c, msg);
    if x in s.conns {
      assert SenderFits(s.conns, x);
      assert Send(c, msg) in s.conns[x].out ==> SendFits(s.conns, x, Send(c, msg));
    }
  }

  lemma ConnectSaid(limits: Limits, s: Server, id: PeerId, g: Group, info: Info, order: seq<PeerId>,
                    x: PeerId, c: PeerId, msg: ServerMessage)
    requires Inv(s) && IsTalk(msg, x)
    ensures Said(DoConnect(limits, s, id, g, info, order), x, c, msg) == Said(s, x, c, msg)
  {
    ConnectAdmits(limits, s, id, g, info, order);
    var t := DoConnect(limits, s, id, g, info, order);
    if Admitted(s, t, id, g, info, order) {
      if x !in s.conns || c !in s.conns {
        StrangersSayNothing(s, x, c, msg);
      }
      AdmittedSaid(s, t, id, g, info, order, x, c, msg);
    }
  }

  lemma AdmittedSaid(s: Server, t: Server, id: PeerId, g: Group, info: Info, order: seq<PeerId>,
                     x: PeerId, c: PeerId, msg: ServerMessage)
    requires Admitted(s, t, id, g, info, order) && s.conns.Keys == s.inbox.Keys && IsTalk(msg, x)
    requires x !in s.conns || c !in s.conns ==> Said(s, x, c, msg) == 0
    ensures Said(t, x, c, msg) == Said(s, x, c, msg)
  {
    if id == x {
      var out := t.conns[x].out;
      assert forall k :: 0 <= k < |out| ==> !IsTalk(out[k].msg, x);
      NotAmong(out, Send(c, msg));
    }
  }

  lemma HandleSaid(limits: Limits, s: Server, id: PeerId, order: seq<PeerId>, x: PeerId, c: PeerId, msg: ServerMessage)
    requires IsTalk(msg, x)
    ensures Said(DoHandle(s, id, order), x, c, msg)
      == Said(s, x, c, msg) + if Owes(limits, s, Handle(id, order), x, c, msg) then 1 else 0
  {
    if id == x && Handles(s, x) {
      match s.conns[x].request.value
      case UpdateInfo(info) => UpdateSaid(limits, s, info, order, x, c, msg);
      case Relay(_, _, _) => RelaySaid(limits, s, order, x, c, msg);
    }
  }

  lemma UpdateOwes(limits: Limits, s: Server, info: Info, order: seq<PeerId>, x: PeerId, c: PeerId, msg: ServerMessage)
    requires Handles(s, x) && s.conns[x].request == Some(UpdateInfo(info))
    ensures var room := RoomOf(s.rooms, s.conns[x].group);
      Owes(limits, s, Handle(x, order), x, c, msg)
      <==> x in room && IsOrder(order, room.Keys - {x}) && c in room && c != x && msg == Update(ClientInfo(x, info))
  {
  }

  lemma UpdateSaid(limits: Limits, s: Server, info: Info, order: seq<PeerId>, x: PeerId, c: PeerId, msg: ServerMessage)
    requires Handles(s, x) && s.conns[x].request == Some(UpdateInfo(info)) && IsTalk(msg, x)
    ensures Said(DoHandle(s, x, order), x, c, msg)
      == Said(s, x, c, msg) + if Owes(limits, s, Handle(x, order), x, c, msg) then 1 else 0
  {
    UpdateOwes(limits, s, info, order, x, c, msg);
    UpdateQueues(s, info, order, x, c, msg);
  }

  lemma UpdateQueues(s: Server, info: Info, order: seq<PeerId>, x: PeerId, c: PeerId, msg: ServerMessage)
    requires Handles(s, x) && s.conns[x].request == Some(UpdateInfo(info)) && IsTalk(msg, x)
    ensures var room := RoomOf(s.rooms, s.conns[x].group);
      Said(DoHandle(s, x, order), x, c, msg) == Said(s, x, c, msg) +
        if x in room && IsOrder(order, room.Keys - {x}) && c in room && c != x && msg == Update(ClientInfo(x, info)) then 1 else 0
  {
    var room := RoomOf(s.rooms, s.conns[x].group);
    if x in room && IsOrder(order, room.Keys - {x}) {
      OneEach(order, Update(ClientInfo(x, info)), c, msg);
      assert c in order <==> c in room.Keys - {x};
    }
  }

  lemma RelaySaid(limits: Limits, s: Server, order: seq<PeerId>, x: PeerId, c: PeerId, msg: ServerMessage)
    requires Handles(s, x) && s.conns[x].request.value.Relay? && IsTalk(msg, x)
    ensures Said(DoHandle(s, x, order), x, c, msg)
      == Said(s, x, c, msg) + if Owes(limits, s, Handle(x, order), x, c, msg) then 1 else 0
  {
  }

  lemma ClientSendsSaid(limits: Limits, s: Server, id: PeerId, request: Request, x: PeerId, c: PeerId, msg: ServerMessage)
    requires IsTalk(msg, x)
    ensures Said(DoClientSends(limits, s, id, request), x, c, msg) == Said(s, x, c, msg)
  {
  }

  lemma DisconnectSaid(s: Server, id: PeerId, order: seq<PeerId>, x: PeerId, c: PeerId, msg: ServerMessage)
    ensures Said(DoDisconnect(s, id, order), x, c, msg) == Said(s, x, c, msg)
  {
    DisconnectLeaves(s, id, order);
  }

  lemma StepSaid(limits: Limits, s: Server, step: Step, x: PeerId, c: PeerId, msg: ServerMessage)
    requires Inv(s) && IsTalk(msg, x)
    ensures Said(Apply(limits, s, step), x, c, msg)
      == Said(s, x, c, msg) + if Owes(limits, s, step, x, c, msg) then 1 else 0
  {
    match step
    case Connect(id, g, info, order) => ConnectSaid(limits, s, id, g, info, order, x, c, msg);
    case Deliver(id) => SentSaid(s, id, x, c, msg);
    case SayGoodbye(id) => SentSaid(s, id, x, c, msg);
    case ClientSends(id, request) => ClientSendsSaid(limits, s, id, request, x, c, msg);
    case Handle(id, order) => HandleSaid(limits, s, id, order, x, c, msg);
    case Disconnect(id, order) => DisconnectSaid(s, id, order, x, c, msg);
    case ClearCounts =>
  }

  /**
   In every run, whatever update or relayed message `c` has received from `x` or is about to
   be sent by it is owed by exactly one request of `x` that was taken, and the other way
   round: an offer arrives as an offer, an answer as an answer, each with the information
   its sender connected with and only if its target was in the room, and an update reaches
   everybody else who was.
   */
  lemma {:induction false} TalkIsOwed(limits: Limits, steps: seq<Step>, x: PeerId, c: PeerId, msg: ServerMessage)
    requires IsTalk(msg, x)
    ensures Said(Run(limits, steps), x, c, msg) == OwedIn(limits, steps, x, c, msg)
  {
    if steps != [] {
      var front := steps[..|steps| - 1];
      TalkIsOwed(limits, front, x, c, msg);
      Reachable(limits, front);
      StepSaid(limits, Run(limits, front), steps[|steps| - 1], x, c, msg);
    }
  }

  /**
   A relay whose target is in the room reaches it, and it alone, with the next message of the
   connection; for any other target nothing is sent at all.
   */
  lemma RelayArrives(limits: Limits, steps: seq<Step>, x: PeerId, c: PeerId, isAnswer: bool, sdp: Sdp)
    requires var s := Run(limits, steps); Handles(s, x) && s.conns[x].request == Some(Relay(c, isAnswer, sdp))
    ensures var s := Run(limits, steps); var t := DoHandle(s, x, []);
      var me := ClientInfo(x, s.conns[x].info);
      if c in RoomOf(s.rooms, s.conns[x].group) then
        c in s.inbox && DoDeliver(t, x).inbox == s.inbox[c := s.inbox[c] + [if isAnswer then Answer(me, sdp) else Offer(me, sdp)]]
      else t.inbox == s.inbox && t.conns[x].out == []
  {
    Reachable(limits, steps);
    RelayIsSent(Run(limits, steps), x, c, isAnswer, sdp);
  }

  lemma RelayIsSent(s: Server, x: PeerId, c: PeerId, isAnswer: bool, sdp: Sdp)
    requires RoomsSound(s) && Handles(s, x) && s.conns[x].request == Some(Relay(c, isAnswer, sdp))
    ensures var t := DoHandle(s, x, []); var me := ClientInfo(x, s.conns[x].info);
      if c in RoomOf(s.rooms, s.conns[x].group) then
        c in s.inbox && DoDeliver(t, x).inbox == s.inbox[c := s.inbox[c] + [if isAnswer then Answer(me, sdp) else Offer(me, sdp)]]
      else t.inbox == s.inbox && t.conns[x].out == []
  {
    if c in RoomOf(s.rooms, s.conns[x].group) {
      assert c in s.conns.Keys;
    }
  }

  // ---------------------------------------------------------------------------
  // What is said about a client
  // ---------------------------------------------------------------------------

  /** Step `i` of the run admits client `x`. */
  ghost predicate AdmittedAt(limits: Limits, steps: seq<Step>, i: nat, x: PeerId) {
    && i < |steps| && steps[i].Connect? && steps[i].id == x
    && x !in Run(limits, steps[..i]).conns && x in Apply(limits, Run(limits, steps[..i]), steps[i]).conns
  }

  predicate SameClient(before: Conn, after: Conn) {
    after.group == before.group && after.info == before.info && (before.refused ==> after.refused)
  }

  lemma HandleKeepsClient(s: Server, id: PeerId, order: seq<PeerId>, x: PeerId)
    requires x in s.conns
    ensures x in DoHandle(s, id, order).conns && SameClient(s.conns[x], DoHandle(s, id, order).conns[x])
  {
    if Handles(s, id) && s.conns[id].request.value.UpdateInfo? {
      UpdateKeepsClient(s, id, order, x);
    }
  }

  lemma UpdateKeepsClient(s: Server, id: PeerId, order: seq<PeerId>, x: PeerId)
    requires x in s.conns && Handles(s, id) && s.conns[id].request.value.UpdateInfo?
    ensures var t := DoUpdate(s, id, s.conns[id].request.value.info, order); x in t.conns && SameClient(s.conns[x], t.conns[x])
  {
  }

  lemma TalkKeepsClient(limits: Limits, s: Server, id: PeerId, request: Request, x: PeerId)
    requires x in s.conns
    ensures var t := DoClientSends(limits, s, id, request); x in t.conns && SameClient(s.conns[x], t.conns[x])
  {
  }

  lemma ClientKept(limits: Limits, s: Server, step: Step, x: PeerId)
    requires x in s.conns
    ensures x in Apply(limits, s, step).conns && SameClient(s.conns[x], Apply(limits, s, step).conns[x])
  {
    match step
    case Connect(id, g, info, order) => ConnectAdmits(limits, s, id, g, info, order);
    case ClientSends(id, request) => TalkKeepsClient(limits, s, id, request, x);
    case Handle(id, order) => HandleKeepsClient(s, id, order, x);
    case Disconnect(id, order) => DisconnectLeaves(s, id, order);
    case _ =>
  }

  lemma OnlyConnectAdmits(limits: Limits, s: Server, step: Step, x: PeerId)
    requires x !in s.conns && x in Apply(limits, s, step).conns
    ensures step.Connect? && step.id == x
    ensures Apply(limits, s, step).conns[x].group == step.group && Apply(limits, s, step).conns[x].info == step.info
  {
  }

  predicate IsAsAdmitted(conn: Conn, step: Step) {
    step.Connect? && conn.group == step.group && conn.info == step.info
  }

  /** A connection stands for the group and the information that its client was admitted with. */
  lemma {:induction false} StaysAsAdmitted(limits: Limits, steps: seq<Step>, x: PeerId)
    requires x in Run(limits, steps).conns
    ensures exists i: nat :: AdmittedAt(limits, steps, i, x) && IsAsAdmitted(Run(limits, steps).conns[x], steps[i])
  {
    var front, last := steps[..|steps| - 1], steps[|steps| - 1];
    var s := Run(limits, front);
    if x in s.conns {
      StaysAsAdmitted(limits, front, x);
      var i: nat :| AdmittedAt(limits, front, i, x) && IsAsAdmitted(s.conns[x], front[i]);
      ClientKept(limits, s, last, x);
      assert steps[..i] == front[..i] && AdmittedAt(limits, steps, i, x);
    } else {
      OnlyConnectAdmits(limits, s, last, x);
      assert AdmittedAt(limits, steps, |steps| - 1, x);
    }
  }

  /** What the room says about `x` after the step. */
  function Restated(limits: Limits, s: Server, step: Step, x: PeerId, info: Info): Info {
    if step.Connect? && step.id == x && x !in s.conns then step.info
    else if step.Handle? && step.id == x && x in s.conns && s.conns[x].request.Some? && s.conns[x].request.value.UpdateInfo?
            && Takes(limits, s, step, x, s.conns[x].request.value)
    then s.conns[x].request.value.info
    else info
  }

  /** The information with which `x` connected, or of its latest update that was taken. */
  function InfoNow(limits: Limits, steps: seq<Step>, x: PeerId): Info {
    if steps == [] then 0
    else
      var front := steps[..|steps| - 1];
      Restated(limits, Run(limits, front), steps[|steps| - 1], x, InfoNow(limits, front, x))
  }

  lemma RoomRestated(limits: Limits, s: Server, step: Step, g: Group, x: PeerId, info: Info)
    requires RoomsSound(s) && (x in RoomOf(s.rooms, g) ==> RoomOf(s.rooms, g)[x] == info)
    requires x in RoomOf(Apply(limits, s, step).rooms, g)
    ensures RoomOf(Apply(limits, s, step).rooms, g)[x] == Restated(limits, s, step, x, info)
  {
    match step
    case Connect(id, h, i, order) => ConnectRestates(limits, s, id, h, i, order, g, x, info);
    case Handle(id, order) => HandleRestates(limits, s, id, order, g, x, info);
    case Disconnect(id, order) => DisconnectLeavesRooms(s, id, order, g, x);
    case _ =>
  }

  lemma ConnectRestates(limits: Limits, s: Server, id: PeerId, h: Group, i: Info, order: seq<PeerId>, g: Group, x: PeerId, info: Info)
    requires RoomsSound(s) && (x in RoomOf(s.rooms, g) ==> RoomOf(s.rooms, g)[x] == info)
    requires x in RoomOf(DoConnect(limits, s, id, h, i, order).rooms, g)
    ensures RoomOf(DoConnect(limits, s, id, h, i, order).rooms, g)[x] == Restated(limits, s, Connect(id, h, i, order), x, info)
  {
    ConnectAdmits(limits, s, id, h, i, order);
    assert x in RoomOf(s.rooms, g) ==> x in s.conns;
  }

  lemma HandleRestates(limits: Limits, s: Server, id: PeerId, order: seq<PeerId>, g: Group, x: PeerId, info: Info)
    requires RoomsSound(s) && (x in RoomOf(s.rooms, g) ==> RoomOf(s.rooms, g)[x] == info)
    requires x in RoomOf(DoHandle(s, id, order).rooms, g)
    ensures RoomOf(DoHandle(s, id, order).rooms, g)[x] == Restated(limits, s, Handle(id, order), x, info)
  {
  }

  lemma DisconnectLeavesRooms(s: Server, id: PeerId, order: seq<PeerId>, g: Group, x: PeerId)
    requires x in RoomOf(DoDisconnect(s, id, order).rooms, g)
    ensures x in RoomOf(s.rooms, g) && RoomOf(DoDisconnect(s, id, order).rooms, g)[x] == RoomOf(s.rooms, g)[x]
  {
  }

  /** In every run the rooms show each client with its latest information. */
  lemma {:induction false} RoomsAreCurrent(limits: Limits, steps: seq<Step>, g: Group, x: PeerId)
    requires x in RoomOf(Run(limits, steps).rooms, g)
    ensures RoomOf(Run(limits, steps).rooms, g)[x] == InfoNow(limits, steps, x)
  {
    if steps != [] {
      var front := steps[..|steps| - 1];
      Reachable(limits, front);
      if x in RoomOf(Run(limits, front).rooms, g) {
        RoomsAreCurrent(limits, front, g, x);
      }
      RoomRestated(limits, Run(limits, front), steps[|steps| - 1], g, x, InfoNow(limits, front, x));
    }
  }

  /** What the step makes a client say about itself: on being admitted, or in an accepted update. */
  ghost function StatedBy(limits: Limits, s: Server, step: Step): set<ClientInfo> {
    match step
    case Connect(id, _, info, _) => if id !in s.conns && id in Apply(limits, s, step).conns then {ClientInfo(id, info)} else {}
    case ClientSends(id, UpdateInfo(info)) => if Accepts(limits, s, step, id, UpdateInfo(info)) then {ClientInfo(id, info)} else {}
    case _ => {}
  }

  ghost function StatedIn(limits: Limits, steps: seq<Step>): set<ClientInfo> {
    if steps == [] then {}
    else
      var front := steps[..|steps| - 1];
      StatedIn(limits, front) + StatedBy(limits, Run(limits, front), steps[|steps| - 1])
  }

  predicate RoomStated(room: Room, stated: set<ClientInfo>) {
    forall x :: x in room ==> ClientInfo(x, room[x]) in stated
  }

  predicate MessageStated(msg: ServerMessage, stated: set<ClientInfo>) {
    match msg
    case Hello(client, peers) => client in stated && RoomStated(peers, stated)
    case Join(peer) => peer in stated
    case Update(peer) => peer in stated
    case Offer(origin, _) => origin in stated
    case Answer(origin, _) => origin in stated
    case _ => true
  }

  predicate ConnStated(id: PeerId, c: Conn, stated: set<ClientInfo>) {
    && ClientInfo(id, c.info) in stated
    && (c.request.Some? && c.request.value.UpdateInfo? ==> ClientInfo(id, c.request.value.info) in stated)
    && (forall i :: 0 <= i < |c.out| ==> MessageStated(c.out[i].msg, stated))
    && (forall i :: 0 <= i < |c.farewell| ==> MessageStated(c.farewell[i].msg, stated))
  }

  predicate MailStated(inbox: seq<ServerMessage>, stated: set<ClientInfo>) {
    forall i :: 0 <= i < |inbox| ==> MessageStated(inbox[i], stated)
  }

  ghost predicate AllStated(s: Server, stated: set<ClientInfo>) {
    && (forall g :: g in s.rooms ==> RoomStated(s.rooms[g], stated))
    && (forall id :: id in s.conns ==> ConnStated(id, s.conns[id], stated))
    && (forall c :: c in s.inbox ==> MailStated(s.inbox[c], stated))
  }

  lemma StatedMore(s: Server, stated: set<ClientInfo>, more: set<ClientInfo>)
    requires AllStated(s, stated) && stated <= more
    ensures AllStated(s, more)
  {
    forall id | id in s.conns ensures ConnStated(id, s.conns[id], more) {
      assert ConnStated(id, s.conns[id], stated);
    }
    forall c | c in s.inbox ensures MailStated(s.inbox[c], more) {
      assert MailStated(s.inbox[c], stated);
    }
  }

  lemma AdmittedStated(s: Server, t: Server, id: PeerId, g: Group, info: Info, order: seq<PeerId>, stated: set<ClientInfo>)
    requires AllStated(s, stated) && Admitted(s, t, id, g, info, order) && ClientInfo(id, info) in stated
    ensures AllStated(t, stated)
  {
    forall x | x in t.conns ensures ConnStated(x, t.conns[x], stated) {
      assert x != id ==> ConnStated(x, s.conns[x], stated);
    }
    forall c | c in t.inbox ensures MailStated(t.inbox[c], stated) {
      assert c != id ==> MailStated(s.inbox[c], stated);
    }
  }

  lemma ConnectStated(limits: Limits, s: Server, id: PeerId, g: Group, info: Info, order: seq<PeerId>, stated: set<ClientInfo>)
    requires AllStated(s, stated)
    requires id !in s.conns && id in DoConnect(limits, s, id, g, info, order).conns ==> ClientInfo(id, info) in stated
    ensures AllStated(DoConnect(limits, s, id, g, info, order), stated)
  {
    var t := DoConnect(limits, s, id, g, info, order);
    ConnectAdmits(limits, s, id, g, info, order);
    if Admitted(s, t, id, g, info, order) {
      AdmittedStated(s, t, id, g, info, order, stated);
    } else {
      forall h | h in t.rooms ensures RoomStated(t.rooms[h], stated) {
        assert RoomOf(t.rooms, h) == RoomOf(s.rooms, h);
      }
    }
  }

  /** Only connection `id` and the mail of one receiver changed, both as stated. */
  lemma OneStated(s: Server, t: Server, id: PeerId, c: PeerId, stated: set<ClientInfo>)
    requires AllStated(s, stated) && t.rooms == s.rooms && id in s.conns
    requires exists conn :: t.conns == s.conns[id := conn] && ConnStated(id, conn, stated)
    requires t.inbox == s.inbox || (exists mail :: t.inbox == s.inbox[c := mail] && MailStated(mail, stated))
    ensures AllStated(t, stated)
  {
    forall x | x in t.conns ensures ConnStated(x, t.conns[x], stated) {
      assert x != id ==> ConnStated(x, s.conns[x], stated);
    }
    forall d | d in t.inbox ensures MailStated(t.inbox[d], stated) {
      assert d in s.inbox ==> MailStated(s.inbox[d], stated);
    }
  }

  lemma DeliverStated(s: Server, id: PeerId, stated: set<ClientInfo>)
    requires AllStated(s, stated)
    ensures AllStated(DoDeliver(s, id), stated) && AllStated(DoSayGoodbye(s, id), stated)
  {
    if id in s.conns {
      var c := s.conns[id];
      assert ConnStated(id, c, stated);
      if c.out != [] {
        MailGrowsStated(s, c.out[0], stated);
        var conn := c.(out := c.out[1..], greeted := c.greeted || c.out[0].msg.Hello?);
        assert ConnStated(id, conn, stated);
        OneStated(s, DoDeliver(s, id), id, c.out[0].target, stated);
      }
      if c.farewell != [] {
        MailGrowsStated(s, c.farewell[0], stated);
        var conn := c.(farewell := c.farewell[1..]);
        assert ConnStated(id, conn, stated);
        OneStated(s, DoSayGoodbye(s, id), id, c.farewell[0].target, stated);
      }
    }
  }

  lemma MailGrowsStated(s: Server, send: Send, stated: set<ClientInfo>)
    requires AllStated(s, stated) && MessageStated(send.msg, stated)
    ensures send.target in s.inbox ==> MailStated(s.inbox[send.target] + [send.msg], stated)
    ensures send.target in s.inbox ==> Received(s.inbox, send) == s.inbox[send.target := s.inbox[send.target] + [send.msg]]
    ensures send.target !in s.inbox ==> Received(s.inbox, send) == s.inbox
  {
    assert send.target in s.inbox ==> MailStated(s.inbox[send.target], stated);
  }

  lemma SendsStated(limits: Limits, s: Server, id: PeerId, request: Request, stated: set<ClientInfo>)
    requires AllStated(s, stated)
    requires Accepts(limits, s, ClientSends(id, request), id, request) && request.UpdateInfo? ==> ClientInfo(id, request.info) in stated
    ensures AllStated(DoClientSends(limits, s, id, request), stated)
  {
    if Listening(s, id) {
      assert ConnStated(id, s.conns[id], stated);
      var t := DoClientSends(limits, s, id, request);
      assert ConnStated(id, t.conns[id], stated);
      assert t.conns == s.conns[id := t.conns[id]];
      OneStated(s, t, id, id, stated);
    }
  }

  lemma HandleStated(s: Server, id: PeerId, order: seq<PeerId>, stated: set<ClientInfo>)
    requires AllStated(s, stated)
    ensures AllStated(DoHandle(s, id, order), stated)
  {
    if Handles(s, id) {
      assert ConnStated(id, s.conns[id], stated);
      match s.conns[id].request.value
      case Relay(_, _, _) => RelayStated(s, id, order, stated);
      case UpdateInfo(info) => UpdateStated(s, id, info, order, stated);
    }
  }

  lemma RelayStated(s: Server, id: PeerId, order: seq<PeerId>, stated: set<ClientInfo>)
    requires AllStated(s, stated) && Handles(s, id) && s.conns[id].request.value.Relay? && ConnStated(id, s.conns[id], stated)
    ensures AllStated(DoHandle(s, id, order), stated)
  {
    var t := DoHandle(s, id, order);
    assert t.conns == s.conns[id := t.conns[id]] && ConnStated(id, t.conns[id], stated);
    OneStated(s, t, id, id, stated);
  }

  lemma UpdateStated(s: Server, id: PeerId, info: Info, order: seq<PeerId>, stated: set<ClientInfo>)
    requires AllStated(s, stated) && Handles(s, id) && ConnStated(id, s.conns[id], stated) && ClientInfo(id, info) in stated
    ensures AllStated(DoUpdate(s, id, info, order), stated)
  {
    var t := DoUpdate(s, id, info, order);
    assert t.conns == s.conns[id := t.conns[id]] && ConnStated(id, t.conns[id], stated);
    OneStated(s, t.(rooms := s.rooms), id, id, stated);
  }

  lemma DisconnectStated(s: Server, id: PeerId, order: seq<PeerId>, stated: set<ClientInfo>)
    requires AllStated(s, stated)
    ensures AllStated(DoDisconnect(s, id, order), stated)
  {
    var t := DoDisconnect(s, id, order);
    if t != s {
      assert ConnStated(id, s.conns[id], stated);
      assert t.conns == s.conns[id := t.conns[id]] && ConnStated(id, t.conns[id], stated);
      OneStated(s, t.(rooms := s.rooms), id, id, stated);
    }
  }

  lemma StepStated(limits: Limits, s: Server, step: Step, stated: set<ClientInfo>)
    requires AllStated(s, stated) && StatedBy(limits, s, step) <= stated
    ensures AllStated(Apply(limits, s, step), stated)
  {
    match step
    case Connect(id, g, info, order) => ConnectStated(limits, s, id, g, info, order, stated);
    case Deliver(id) => DeliverStated(s, id, stated);
    case SayGoodbye(id) => DeliverStated(s, id, stated);
    case ClientSends(id, request) => SendsStated(limits, s, id, request, stated);
    case Handle(id, order) => HandleStated(s, id, order, stated);
    case Disconnect(id, order) => DisconnectStated(s, id, order, stated);
    case ClearCounts =>
  }

  /**
   In every run, whatever the rooms, the greetings and the messages say about a client, it
   has said about itself: when it was admitted, or in an update that was accepted.
   */
  lemma {:induction false} NothingIsMadeUp(limits: Limits, steps: seq<Step>)
    ensures AllStated(Run(limits, steps), StatedIn(limits, steps))
  {
    if steps != [] {
      var front := steps[..|steps| - 1];
      NothingIsMadeUp(limits, front);
      StatedMore(Run(limits, front), StatedIn(limits, front), StatedIn(limits, steps));
      StepStated(limits, Run(limits, front), steps[|steps| - 1], StatedIn(limits, steps));
    }
  }

  // ---------------------------------------------------------------------------
  // Too many requests
  // ---------------------------------------------------------------------------

  lemma RefusedAcceptsNone(limits: Limits, s: Server, step: Step, x: PeerId, request: Request)
    requires x in s.conns && s.conns[x].refused
    ensures !Accepts(limits, s, step, x, request)
  {
    assert DoClientSends(limits, s, x, request) == s;
  }

  lemma AcceptedNext(limits: Limits, steps: seq<Step>, last: Step, x: PeerId, request: Request)
    ensures Run(limits, steps + [last]) == Apply(limits, Run(limits, steps), last)
    ensures AcceptedIn(limits, steps + [last], x, request)
      == AcceptedIn(limits, steps, x, request) + if Accepts(limits, Run(limits, steps), last, x, request) then 1 else 0
  {
    assert (steps + [last])[..|steps|] == steps;
  }

  /** A client that was refused once gets no further request accepted, not even after the counters are cleared. */
  lemma {:induction false} RefusedForGood(limits: Limits, steps: seq<Step>, more: seq<Step>, x: PeerId, request: Request)
    requires x in Run(limits, steps).conns && Run(limits, steps).conns[x].refused
    ensures x in Run(limits, steps + more).conns && Run(limits, steps + more).conns[x].refused
    ensures AcceptedIn(limits, steps + more, x, request) == AcceptedIn(limits, steps, x, request)
  {
    if more == [] {
      assert steps + more == steps;
    } else {
      var front, last := more[..|more| - 1], more[|more| - 1];
      assert steps + more == (steps + front) + [last];
      RefusedForGood(limits, steps, front, x, request);
      AcceptedNext(limits, steps + front, last, x, request);
      ClientKept(limits, Run(limits, steps + front), last, x);
      RefusedAcceptsNone(limits, Run(limits, steps + front), last, x, request);
    }
  }

  /** A request beyond the limit is answered with an error, to its client alone; the next message of the connection is that error. */
  lemma RefusalIsTold(limits: Limits, steps: seq<Step>, x: PeerId, request: Request)
    requires Listening(Run(limits, steps), x)
    ensures var s := Run(limits, steps); var t := DoClientSends(limits, s, x, request);
      && (t.conns[x].refused <==> CountOf(s.counts, s.conns[x].group) >= limits.maxRequests)
      && (t.conns[x].refused <==> !Accepts(limits, s, ClientSends(x, request), x, request))
      && (t.conns[x].refused ==> x in s.inbox && DoDeliver(t, x).inbox == s.inbox[x := s.inbox[x] + [TooManyRequests]])
  {
    Reachable(limits, steps);
    assert x in Run(limits, steps).conns.Keys;
  }
}
