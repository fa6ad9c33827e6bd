/** What clients of the signalling server can rely on, over every run. */
module SignalingTheorems {
  import opened Wrappers
  import opened Signaling
  import opened SignalingInvariants

  // ---------------------------------------------------------------------------
  // What a client makes of its messages
  // ---------------------------------------------------------------------------

  /** The ids a client is told about. */
  function Newcomers(inbox: seq<ServerMessage>): set<PeerId> {
    if inbox == [] then {}
    else Newcomers(inbox[..|inbox| - 1]) + Registered(inbox[|inbox| - 1], false)
  }

  function Leavers(inbox: seq<ServerMessage>): set<PeerId> {
    if inbox == [] then {}
    else
      Leavers(inbox[..|inbox| - 1]) +
      match inbox[|inbox| - 1]
      case Left(id) => {id}
      case _ => {}
  }

  /** The devices a message makes the app register; an update registers as well. */
  function Registered(msg: ServerMessage, updates: bool): set<PeerId> {
    match msg
    case Hello(_, peers) => peers.Keys
    case Join(peer) => {peer.id}
    case Update(peer) => if updates then {peer.id} else {}
    case _ => {}
  }

  /** The device list of the app, which takes the messages one by one. */
  function View(inbox: seq<ServerMessage>): set<PeerId> {
    if inbox == [] then {}
    else
      var before, msg := View(inbox[..|inbox| - 1]), inbox[|inbox| - 1];
      if msg.Left? then before - {msg.id} else before + Registered(msg, true)
  }

  /** `x` is registered by a message that arrived after the one that says it left. */
  ghost predicate Overtaken(inbox: seq<ServerMessage>, x: PeerId) {
    exists i, j :: 0 <= i < j < |inbox| && inbox[i] == Left(x) && x in Registered(inbox[j], true)
  }

  /** The greetings and farewells of all finished lock regions are sent. */
  ghost predicate Settled(s: Server) {
    forall id :: id in s.conns ==> s.conns[id].greeted && s.conns[id].farewell == []
  }

  function OthersInRoom(s: Server, c: PeerId): set<PeerId>
    requires c in s.conns
  {
    RoomOf(s.rooms, s.conns[c].group).Keys - {c}
  }

  // ---------------------------------------------------------------------------
  // Reading an inbox
  // ---------------------------------------------------------------------------

  /** In an inbox with one `Hello`, which lists `peers`. */
  lemma {:induction false} NewcomersAre(inbox: seq<ServerMessage>, peers: Room, x: PeerId)
    requires forall i :: 0 <= i < |inbox| && inbox[i].Hello? ==> inbox[i].peers == peers
    ensures x in Newcomers(inbox) <==> (x in peers && Hellos(inbox) > 0) || Joins(inbox, x) > 0
  {
    if inbox != [] {
      NewcomersAre(inbox[..|inbox| - 1], peers, x);
    }
  }

  lemma {:induction false} LeaversAre(inbox: seq<ServerMessage>, x: PeerId)
    ensures x in Leavers(inbox) <==> Lefts(inbox, x) > 0
    ensures x in Leavers(inbox) <==> Left(x) in inbox
  {
    if inbox != [] {
      LeaversAre(inbox[..|inbox| - 1], x);
      assert inbox == inbox[..|inbox| - 1] + [inbox[|inbox| - 1]];
    }
  }

  /** Before it is withdrawn, whoever was registered is in view. */
  lemma {:induction false} ViewBeforeLeaving(inbox: seq<ServerMessage>, x: PeerId)
    requires Left(x) !in inbox
    ensures x in View(inbox) <==> exists j :: 0 <= j < |inbox| && x in Registered(inbox[j], true)
  {
    if inbox != [] {
      var front := inbox[..|inbox| - 1];
      ViewBeforeLeaving(front, x);
      if x in View(front) {
        var j :| 0 <= j < |front| && x in Registered(front[j], true);
        assert inbox[j] == front[j];
      }
      if j :| 0 <= j < |inbox| && x in Registered(inbox[j], true) {
        assert j < |front| ==> front[j] == inbox[j];
      }
    }
  }

  /** Afterwards it is in view exactly if it was overtaken. */
  lemma {:induction false} ViewAfterLeaving(inbox: seq<ServerMessage>, x: PeerId)
    requires Left(x) in inbox && Lefts(inbox, x) <= 1
    ensures x in View(inbox) <==> Overtaken(inbox, x)
  {
    var front, msg := inbox[..|inbox| - 1], inbox[|inbox| - 1];
    assert inbox == front + [msg];
    LeaversAre(front, x);
    if msg == Left(x) {
      assert Left(x) !in front;
      assert forall i :: 0 <= i < |front| ==> front[i] == inbox[i];
    } else {
      ViewAfterLeaving(front, x);
      var i :| 0 <= i < |front| && front[i] == Left(x);
      if Overtaken(front, x) {
        var a, b :| 0 <= a < b < |front| && front[a] == Left(x) && x in Registered(front[b], true);
        assert inbox[a] == Left(x) && x in Registered(inbox[b], true);
      }
      if x in Registered(msg, true) {
        assert inbox[i] == Left(x) && x in Registered(inbox[|front|], true);
      }
      if Overtaken(inbox, x) && x !in Registered(msg, true) {
        var a, b :| 0 <= a < b < |inbox| && inbox[a] == Left(x) && x in Registered(inbox[b], true);
        assert front[a] == Left(x) && x in Registered(front[b], true);
      }
    }
  }

  // ---------------------------------------------------------------------------
  // Exactly-once discovery
  // ---------------------------------------------------------------------------

  lemma OneHello(s: Server, c: PeerId)
    requires Inv(s) && c in s.conns
    ensures forall i :: 0 <= i < |s.inbox[c]| && s.inbox[c][i].Hello? ==> s.inbox[c][i].peers == s.conns[c].peers
    ensures Hellos(s.inbox[c]) == if s.conns[c].greeted then 1 else 0
  {
    forall i | 0 <= i < |s.inbox[c]| && s.inbox[c][i].Hello? ensures s.inbox[c][i].peers == s.conns[c].peers {
      assert MailFits(s.conns, c, s.inbox[c][i]);
    }
  }

  /**
   At any moment of any run a client has got at most one `Hello`, has been told of every
   other client at most once, and at most once, never earlier, that it left.
   */
  lemma NobodyIsAnnouncedTwice(limits: Limits, steps: seq<Step>, c: PeerId, x: PeerId)
    requires c in Run(limits, steps).conns && c in Run(limits, steps).inbox && x != c
    ensures var s := Run(limits, steps); var inbox := s.inbox[c];
      && Hellos(inbox) <= 1
      && (if x in s.conns[c].peers then 1 else 0) + Joins(inbox, x) <= 1
      && Lefts(inbox, x) <= 1 && JoinFirst(inbox, x)
  {
    Reachable(limits, steps);
    var s := Run(limits, steps);
    OneHello(s, c);
    if x in s.conns {
      assert Discovered(s, c, x);
    } else {
      StrangersAreUnknown(s, c, x);
    }
  }

  lemma SettledQueues(s: Server, c: PeerId, x: PeerId)
    requires Inv(s) && Settled(s) && x in s.conns
    ensures PendingJoins(s.conns[x].out, c, x) == 0 && PendingLefts(s.conns[x].farewell, c, x) == 0
  {
    assert SenderFits(s.conns, x);
    var out := s.conns[x].out;
    forall k | 0 <= k < |out| ensures !out[k].msg.Join? && !out[k].msg.Left? {
      assert SendFits(s.conns, x, out[k]);
    }
    NothingFor(out, c, x);
  }

  /** What a settled client has been told about `x`. */
  lemma SettledPair(s: Server, c: PeerId, x: PeerId)
    requires Inv(s) && Settled(s) && c in s.conns && !s.conns[c].left && x != c
    ensures x in Newcomers(s.inbox[c]) <==> Met(s.conns, c, x)
    ensures Left(x) in s.inbox[c] <==> Met(s.conns, c, x) && s.conns[x].left
    ensures Lefts(s.inbox[c], x) <= 1
    ensures x in OthersInRoom(s, c) <==> Met(s.conns, c, x) && !s.conns[x].left
  {
    OneHello(s, c);
    NewcomersAre(s.inbox[c], s.conns[c].peers, x);
    LeaversAre(s.inbox[c], x);
    assert SenderFits(s.conns, c);
    if x in s.conns {
      assert Discovered(s, c, x) && SenderFits(s.conns, x);
      SettledQueues(s, c, x);
      RoommatesMet(s, c, x);
    } else {
      StrangersAreUnknown(s, c, x);
      assert x !in RoomOf(s.rooms, s.conns[c].group);
    }
  }

  lemma RoommatesMet(s: Server, c: PeerId, x: PeerId)
    requires RoomsSound(s) && Acquainted(s.conns) && c in s.conns && !s.conns[c].left && x in s.conns && x != c
    requires ConnFits(s.conns, c) && ConnFits(s.conns, x)
    ensures x in OthersInRoom(s, c) <==> Met(s.conns, c, x) && !s.conns[x].left
  {
    if SameGroup(s.conns, c, x) && !s.conns[x].left {
      assert Met(s.conns, c, x);
    }
  }

  /**
   Once the greetings and farewells are sent, for every client in a room: the ids it was
   told of, less those it was told have left, are the others in its room.
   */
  lemma DiscoveryIsExact(limits: Limits, steps: seq<Step>, c: PeerId)
    requires Settled(Run(limits, steps)) && c in Run(limits, steps).conns && !Run(limits, steps).conns[c].left
    ensures var s := Run(limits, steps);
      c in s.inbox && Newcomers(s.inbox[c]) - Leavers(s.inbox[c]) == OthersInRoom(s, c)
  {
    Reachable(limits, steps);
    var s := Run(limits, steps);
    forall x ensures x in Newcomers(s.inbox[c]) - Leavers(s.inbox[c]) <==> x in OthersInRoom(s, c) {
      LeaversAre(s.inbox[c], x);
      if x != c {
        SettledPair(s, c, x);
      } else {
        NotToldOfItself(s, c);
      }
    }
  }

  lemma NotToldOfItself(s: Server, c: PeerId)
    requires Inv(s) && c in s.conns
    ensures c !in Newcomers(s.inbox[c]) && c !in View(s.inbox[c])
  {
    assert SenderFits(s.conns, c);
    forall i | 0 <= i < |s.inbox[c]| ensures c !in Registered(s.inbox[c][i], true) {
      assert MailFits(s.conns, c, s.inbox[c][i]);
    }
    NeverRegistered(s.inbox[c], c);
  }

  lemma {:induction false} NeverRegistered(inbox: seq<ServerMessage>, x: PeerId)
    requires forall i :: 0 <= i < |inbox| ==> x !in Registered(inbox[i], true)
    ensures x !in Newcomers(inbox) && x !in View(inbox)
  {
    if inbox != [] {
      NeverRegistered(inbox[..|inbox| - 1], x);
    }
  }

  // ---------------------------------------------------------------------------
  // The device list of the app
  // ---------------------------------------------------------------------------

  lemma {:induction false} NewcomersRegister(inbox: seq<ServerMessage>, x: PeerId)
    ensures x in Newcomers(inbox) ==> exists j :: 0 <= j < |inbox| && x in Registered(inbox[j], true)
  {
    if inbox != [] {
      var front := inbox[..|inbox| - 1];
      NewcomersRegister(front, x);
      if x in Newcomers(front) {
        var j :| 0 <= j < |front| && x in Registered(front[j], true);
        assert inbox[j] == front[j];
      } else if x in Newcomers(inbox) {
        assert x in Registered(inbox[|inbox| - 1], true);
      }
    }
  }

  /** Only those it has met are ever registered by a client. */
  lemma RegisteredHaveMet(s: Server, c: PeerId, j: nat, x: PeerId)
    requires Inv(s) && c in s.conns && j < |s.inbox[c]| && x in Registered(s.inbox[c][j], true)
    requires x in Newcomers(s.inbox[c]) <==> Met(s.conns, c, x)
    ensures Met(s.conns, c, x)
  {
    var msg := s.inbox[c][j];
    assert MailFits(s.conns, c, msg) && SenderFits(s.conns, c);
    if msg.Join? {
      JoinIsCounted(s.inbox[c], j, x);
      OneHello(s, c);
      NewcomersAre(s.inbox[c], s.conns[c].peers, x);
    }
  }

  lemma {:induction false} JoinIsCounted(inbox: seq<ServerMessage>, j: nat, x: PeerId)
    requires j < |inbox| && IsJoin(inbox[j], x)
    ensures Joins(inbox, x) > 0
  {
    if j < |inbox| - 1 {
      JoinIsCounted(inbox[..|inbox| - 1], j, x);
    }
  }

  /** Another client is in view exactly if it shares the room or was overtaken. */
  lemma ViewOf(s: Server, c: PeerId, x: PeerId)
    requires Inv(s) && Settled(s) && c in s.conns && !s.conns[c].left && x != c
    ensures x in View(s.inbox[c]) <==> x in OthersInRoom(s, c) || Overtaken(s.inbox[c], x)
    ensures Overtaken(s.inbox[c], x) ==> x !in OthersInRoom(s, c)
  {
    var inbox := s.inbox[c];
    SettledPair(s, c, x);
    if Left(x) in inbox {
      ViewAfterLeaving(inbox, x);
    } else {
      ViewBeforeLeaving(inbox, x);
      NewcomersRegister(inbox, x);
      if j :| 0 <= j < |inbox| && x in Registered(inbox[j], true) {
        RegisteredHaveMet(s, c, j, x);
      }
    }
  }

  /**
   The device list of a settled client shows the others in its room, and besides them
   exactly those whose farewell was overtaken.
   */
  lemma ViewIsTheRoomAndGhosts(limits: Limits, steps: seq<Step>, c: PeerId)
    requires Settled(Run(limits, steps)) && c in Run(limits, steps).conns && !Run(limits, steps).conns[c].left
    ensures var s := Run(limits, steps);
      && c in s.inbox && OthersInRoom(s, c) <= View(s.inbox[c])
      && (forall x :: x in View(s.inbox[c]) - OthersInRoom(s, c) <==> x != c && Overtaken(s.inbox[c], x))
  {
    Reachable(limits, steps);
    var s := Run(limits, steps);
    forall x
      ensures x in OthersInRoom(s, c) ==> x in View(s.inbox[c])
      ensures x in View(s.inbox[c]) - OthersInRoom(s, c) <==> x != c && Overtaken(s.inbox[c], x)
    {
      if x != c {
        ViewOf(s, c, x);
      } else {
        NotToldOfItself(s, c);
      }
    }
  }

  /** A farewell is overtaken by the receiver's own `Hello` or by an update, never by a greeting. */
  lemma WhatOvertakes(limits: Limits, steps: seq<Step>, c: PeerId, x: PeerId, i: nat, j: nat)
    requires c in Run(limits, steps).conns && c in Run(limits, steps).inbox && x != c
    requires var inbox := Run(limits, steps).inbox[c];
      i < j < |inbox| && inbox[i] == Left(x) && x in Registered(inbox[j], true)
    ensures var msg := Run(limits, steps).inbox[c][j];
      (msg.Hello? && x in Run(limits, steps).conns[c].peers) || msg.Update?
  {
    NobodyIsAnnouncedTwice(limits, steps, c, x);
    Reachable(limits, steps);
    OneHello(Run(limits, steps), c);
  }

  // ---------------------------------------------------------------------------
  // Two runs that leave a ghost
  // ---------------------------------------------------------------------------

  /** Client 1 leaves while client 2, which found it, is not greeted yet. */
  const HELLO_OVERTAKES: seq<Step> := [
    Connect(1, "g", 0, []), Deliver(1), Connect(2, "g", 0, [1]),
    Disconnect(1, [2]), SayGoodbye(1), Deliver(2), Deliver(2)]

  /** Client 1 leaves while its receive loop still has an update to send. */
  const UPDATE_OVERTAKES: seq<Step> := [
    Connect(1, "g", 0, []), Deliver(1), Connect(2, "g", 0, [1]), Deliver(2), Deliver(2),
    ClientSends(1, UpdateInfo(0)), Handle(1, [2]), Disconnect(1, [2]), SayGoodbye(1), Deliver(1)]

  function RunFrom(limits: Limits, s: Server, steps: seq<Step>): Server
    decreases |steps|
  {
    if steps == [] then s else RunFrom(limits, Apply(limits, s, steps[0]), steps[1..])
  }

  lemma {:induction false} RunIsRunFrom(limits: Limits, before: seq<Step>, after: seq<Step>)
    ensures Run(limits, before + after) == RunFrom(limits, Run(limits, before), after)
    decreases |after|
  {
    if after == [] {
      assert before + after == before;
    } else {
      var next := before + [after[0]];
      assert next[..|next| - 1] == before && before + after == next + after[1..];
      RunIsRunFrom(limits, next, after[1..]);
    }
  }

  lemma RunStep(limits: Limits, s: Server, step: Step, rest: seq<Step>)
    ensures RunFrom(limits, s, [step] + rest) == RunFrom(limits, Apply(limits, s, step), rest)
  {
    assert ([step] + rest)[1..] == rest;
  }

  lemma DeliverOne(limits: Limits, s: Server, id: PeerId, send: Send, out: seq<Send>)
    requires id in s.conns && s.conns[id].out == [send] + out && send.target in s.inbox
    ensures Apply(limits, s, Deliver(id)) ==
      s.(conns := s.conns[id := s.conns[id].(out := out, greeted := s.conns[id].greeted || send.msg.Hello?)],
         inbox := s.inbox[send.target := s.inbox[send.target] + [send.msg]])
  {
    assert ([send] + out)[1..] == out;
  }

  /** What matters of a server with clients 1 and 2 in one room. */
  datatype Scene = Scene(room: Room, first: Conn, second: Conn, heard: seq<ServerMessage>)

  ghost predicate Shows(s: Server, scene: Scene, requests: nat) {
    && s.rooms == map["g" := scene.room] && s.conns == map[1 := scene.first, 2 := scene.second]
    && s.inbox.Keys == {1, 2} && s.inbox[2] == scene.heard && CountOf(s.counts, "g") <= requests
  }

  const GREETED: Conn := Conn("g", 0, map[], [], true, false, false, [], None)
  const NEWCOMER: Conn := Conn("g", 0, map[1 := 0], [Send(1, Join(ClientInfo(2, 0))), Send(2, HELLO)], false, false, false, [], None)
  const HELLO: ServerMessage := Hello(ClientInfo(2, 0), map[1 := 0])
  const UPDATE: ServerMessage := Update(ClientInfo(1, 0))

  lemma FirstConnects(limits: Limits) returns (s: Server)
    requires limits.maxConnections >= 2 && limits.maxRequests >= 3
    ensures s == Apply(limits, Apply(limits, IDLE, Connect(1, "g", 0, [])), Deliver(1))
    ensures s.rooms == map["g" := map[1 := 0]] && s.conns == map[1 := GREETED] && s.inbox.Keys == {1}
    ensures CountOf(s.counts, "g") <= 1
  {
    var hello := Send(1, Hello(ClientInfo(1, 0), map[]));
    var s1 := DoConnect(limits, IDLE, 1, "g", 0, []);
    assert ToEach([], Join(ClientInfo(1, 0))) + [hello] == [hello];
    DeliverOne(limits, s1, 1, hello, []);
    s := Apply(limits, s1, Deliver(1));
  }

  lemma SecondConnects(limits: Limits, before: Server) returns (s: Server)
    requires limits.maxConnections >= 2 && limits.maxRequests >= 3
    requires before.rooms == map["g" := map[1 := 0]] && before.conns == map[1 := GREETED] && before.inbox.Keys == {1}
    requires CountOf(before.counts, "g") <= 1
    ensures s == Apply(limits, before, Connect(2, "g", 0, [1]))
    ensures Shows(s, Scene(map[1 := 0, 2 := 0], GREETED, NEWCOMER, []), 2)
  {
    s := DoConnect(limits, before, 2, "g", 0, [1]);
    assert [1][0] == 1 && RoomOf(before.rooms, "g").Keys == {1};
    assert ToEach([1], Join(ClientInfo(2, 0))) + [Send(2, HELLO)] == NEWCOMER.out;
    assert RoomOf(before.rooms, "g")[2 := 0] == map[1 := 0, 2 := 0];
  }

  /** The server after client 2 found client 1 in its room. */
  lemma TwoConnect(limits: Limits) returns (s: Server)
    requires limits.maxConnections >= 2 && limits.maxRequests >= 3
    ensures s == Run(limits, [Connect(1, "g", 0, []), Deliver(1), Connect(2, "g", 0, [1])])
    ensures Shows(s, Scene(map[1 := 0, 2 := 0], GREETED, NEWCOMER, []), 2)
  {
    var before := FirstConnects(limits);
    s := SecondConnects(limits, before);
    ThreeSteps(limits, Connect(1, "g", 0, []), Deliver(1), Connect(2, "g", 0, [1]));
  }

  lemma ThreeSteps(limits: Limits, a: Step, b: Step, c: Step)
    ensures Run(limits, [a, b, c]) == Apply(limits, Apply(limits, Apply(limits, IDLE, a), b), c)
  {
    assert [a, b, c][..2] == [a, b] && [a, b][..1] == [a] && [a][..0] == [];
    OneMore(limits, [a, b], c);
    OneMore(limits, [a], b);
    OneMore(limits, [], a);
  }

  lemma OneMore(limits: Limits, before: seq<Step>, step: Step)
    ensures Run(limits, before + [step]) == Apply(limits, Run(limits, before), step)
  {
    assert (before + [step])[..|before|] == before;
  }

  lemma FirstIsRemoved(limits: Limits, s: Server, scene: Scene, requests: nat) returns (t: Server)
    requires Shows(s, scene, requests) && scene.room == map[1 := 0, 2 := 0]
    requires scene.first.greeted && !scene.first.left && scene.first.group == "g"
    ensures t == Apply(limits, s, Disconnect(1, [2]))
    ensures Shows(t, scene.(room := map[2 := 0], first := scene.first.(left := true, farewell := [Send(2, Left(1))])), requests)
  {
    assert [2][0] == 2 && RoomOf(s.rooms, "g") - {1} == map[2 := 0];
    assert ToEach([2], Left(1)) == [Send(2, Left(1))];
    t := DoDisconnect(s, 1, [2]);
  }

  lemma FirstSaysGoodbye(limits: Limits, s: Server, scene: Scene, requests: nat) returns (t: Server)
    requires Shows(s, scene, requests) && scene.first.farewell == [Send(2, Left(1))]
    ensures t == Apply(limits, s, SayGoodbye(1))
    ensures Shows(t, scene.(first := scene.first.(farewell := []), heard := scene.heard + [Left(1)]), requests)
  {
    assert [Send(2, Left(1))][1..] == [];
    t := DoSayGoodbye(s, 1);
  }

  /** Client 1 leaves and client 2 is told so; what else either of them has to send waits. */
  lemma FirstLeaves(limits: Limits, s: Server, scene: Scene, requests: nat) returns (t: Server)
    requires Shows(s, scene, requests) && scene.room == map[1 := 0, 2 := 0]
    requires scene.first.greeted && !scene.first.left && scene.first.group == "g"
    ensures t == Apply(limits, Apply(limits, s, Disconnect(1, [2])), SayGoodbye(1))
    ensures Shows(t, Scene(map[2 := 0], scene.first.(left := true, farewell := []), scene.second, scene.heard + [Left(1)]), requests)
  {
    var first := scene.first.(left := true, farewell := [Send(2, Left(1))]);
    t := FirstIsRemoved(limits, s, scene, requests);
    t := FirstSaysGoodbye(limits, t, scene.(room := map[2 := 0], first := first), requests);
  }

  /** Client 2 gets its `Hello`, after it announced itself to client 1. */
  lemma SecondGreeted(limits: Limits, s: Server, scene: Scene, requests: nat) returns (t: Server)
    requires Shows(s, scene, requests) && scene.second == NEWCOMER
    ensures t == Apply(limits, Apply(limits, s, Deliver(2)), Deliver(2))
    ensures Shows(t, scene.(second := NEWCOMER.(out := [], greeted := true), heard := scene.heard + [HELLO]), requests)
  {
    DeliverOne(limits, s, 2, NEWCOMER.out[0], [Send(2, HELLO)]);
    var s1 := Apply(limits, s, Deliver(2));
    DeliverOne(limits, s1, 2, Send(2, HELLO), []);
    t := Apply(limits, s1, Deliver(2));
  }

  lemma FirstAsks(limits: Limits, s: Server, second: Conn, heard: seq<ServerMessage>) returns (t: Server)
    requires Shows(s, Scene(map[1 := 0, 2 := 0], GREETED, second, heard), 2) && limits.maxRequests >= 3
    ensures t == Apply(limits, s, ClientSends(1, UpdateInfo(0)))
    ensures Shows(t, Scene(map[1 := 0, 2 := 0], GREETED.(request := Some(UpdateInfo(0))), second, heard), 3)
  {
    t := Apply(limits, s, ClientSends(1, UpdateInfo(0)));
  }

  lemma FirstUpdates(limits: Limits, s: Server, second: Conn, heard: seq<ServerMessage>) returns (t: Server)
    requires Shows(s, Scene(map[1 := 0, 2 := 0], GREETED.(request := Some(UpdateInfo(0))), second, heard), 3)
    ensures t == Apply(limits, s, Handle(1, [2]))
    ensures Shows(t, Scene(map[1 := 0, 2 := 0], GREETED.(out := [Send(2, UPDATE)]), second, heard), 3)
  {
    assert [2][0] == 2 && RoomOf(s.rooms, "g").Keys - {1} == {2};
    assert ToEach([2], UPDATE) == [Send(2, UPDATE)];
    var room: Room := map[1 := 0, 2 := 0];
    assert room[1 := 0] == room && s.rooms["g" := room] == s.rooms;
    t := Apply(limits, s, Handle(1, [2]));
  }

  lemma ViewOfLast(inbox: seq<ServerMessage>, msg: ServerMessage)
    ensures View(inbox + [msg]) == if msg.Left? then View(inbox) - {msg.id} else View(inbox) + Registered(msg, true)
  {
    assert (inbox + [msg])[..|inbox|] == inbox;
  }

  /** The `Hello` lists a client whose farewell came first: it stays in view for good. */
  lemma HelloCanOvertake(limits: Limits)
    requires limits.maxConnections >= 2 && limits.maxRequests >= 3
    ensures var s := Run(limits, HELLO_OVERTAKES);
      && Settled(s) && 2 in s.conns && 2 in s.inbox && !s.conns[2].left
      && OthersInRoom(s, 2) == {} && View(s.inbox[2]) == {1}
  {
    var begin := [Connect(1, "g", 0, []), Deliver(1), Connect(2, "g", 0, [1])];
    var leave, goodbye, deliver := Disconnect(1, [2]), SayGoodbye(1), Deliver(2);
    var tail := [deliver] + ([deliver] + []);
    assert HELLO_OVERTAKES == begin + ([leave] + ([goodbye] + tail));
    RunIsRunFrom(limits, begin, [leave] + ([goodbye] + tail));
    var s := TwoConnect(limits);
    RunStep(limits, s, leave, [goodbye] + tail);
    RunStep(limits, Apply(limits, s, leave), goodbye, tail);
    var t := FirstLeaves(limits, s, Scene(map[1 := 0, 2 := 0], GREETED, NEWCOMER, []), 2);
    AfterLeave(limits, t);
  }

  lemma AfterLeave(limits: Limits, t: Server)
    requires Shows(t, Scene(map[2 := 0], GREETED.(left := true), NEWCOMER, [] + [Left(1)]), 2)
    ensures var s := RunFrom(limits, t, [Deliver(2)] + ([Deliver(2)] + []));
      && Settled(s) && 2 in s.conns && 2 in s.inbox && !s.conns[2].left
      && OthersInRoom(s, 2) == {} && View(s.inbox[2]) == {1}
  {
    RunStep(limits, t, Deliver(2), [Deliver(2)] + []);
    RunStep(limits, Apply(limits, t, Deliver(2)), Deliver(2), []);
    var u := SecondGreeted(limits, t, Scene(map[2 := 0], GREETED.(left := true), NEWCOMER, [] + [Left(1)]), 2);
    ViewOfLast([], Left(1));
    ViewOfLast([] + [Left(1)], HELLO);
  }

  /** An update that the stopped receive loop still sends brings a client back that left. */
  lemma UpdateCanOvertake(limits: Limits)
    requires limits.maxConnections >= 2 && limits.maxRequests >= 3
    ensures var s := Run(limits, UPDATE_OVERTAKES);
      && Settled(s) && 2 in s.conns && 2 in s.inbox && !s.conns[2].left
      && OthersInRoom(s, 2) == {} && View(s.inbox[2]) == {1}
  {
    var begin := [Connect(1, "g", 0, []), Deliver(1), Connect(2, "g", 0, [1])];
    var deliver, update, handle := Deliver(2), ClientSends(1, UpdateInfo(0)), Handle(1, [2]);
    var leave, goodbye := Disconnect(1, [2]), SayGoodbye(1);
    var tail := [leave] + ([goodbye] + ([Deliver(1)] + []));
    assert UPDATE_OVERTAKES == begin + ([deliver] + ([deliver] + ([update] + ([handle] + tail))));
    RunIsRunFrom(limits, begin, [deliver] + ([deliver] + ([update] + ([handle] + tail))));
    var s := TwoConnect(limits);
    RunStep(limits, s, deliver, [deliver] + ([update] + ([handle] + tail)));
    RunStep(limits, Apply(limits, s, deliver), deliver, [update] + ([handle] + tail));
    var t := SecondGreeted(limits, s, Scene(map[1 := 0, 2 := 0], GREETED, NEWCOMER, []), 2);
    var second := NEWCOMER.(out := [], greeted := true);
    RunStep(limits, t, update, [handle] + tail);
    RunStep(limits, Apply(limits, t, update), handle, tail);
    var asked := FirstAsks(limits, t, second, [] + [HELLO]);
    var u := FirstUpdates(limits, asked, second, [] + [HELLO]);
    AfterUpdate(limits, u, second);
  }

  lemma AfterUpdate(limits: Limits, u: Server, second: Conn)
    requires second == NEWCOMER.(out := [], greeted := true)
    requires Shows(u, Scene(map[1 := 0, 2 := 0], GREETED.(out := [Send(2, UPDATE)]), second, [] + [HELLO]), 3)
    ensures var s := RunFrom(limits, u, [Disconnect(1, [2])] + ([SayGoodbye(1)] + ([Deliver(1)] + [])));
      && Settled(s) && 2 in s.conns && 2 in s.inbox && !s.conns[2].left
      && OthersInRoom(s, 2) == {} && View(s.inbox[2]) == {1}
  {
    var leave, goodbye := Disconnect(1, [2]), SayGoodbye(1);
    RunStep(limits, u, leave, [goodbye] + ([Deliver(1)] + []));
    RunStep(limits, Apply(limits, u, leave), goodbye, [Deliver(1)] + []);
    var v := FirstLeaves(limits, u, Scene(map[1 := 0, 2 := 0], GREETED.(out := [Send(2, UPDATE)]), second, [] + [HELLO]), 3);
    RunStep(limits, v, Deliver(1), []);
    DeliverOne(limits, v, 1, Send(2, UPDATE), []);
    ViewOfLast([], HELLO);
    ViewOfLast([] + [HELLO], Left(1));
    ViewOfLast([] + [HELLO] + [Left(1)], UPDATE);
  }

  // ---------------------------------------------------------------------------
  // Limits
  // ---------------------------------------------------------------------------

  ghost predicate WithinLimits(limits: Limits, s: Server) {
    && (forall g :: |RoomOf(s.rooms, g)| <= limits.maxConnections)
    && (forall g :: CountOf(s.counts, g) == multiset(s.accepted)[g] <= limits.maxRequests)
  }

  lemma StepKeepsLimits(limits: Limits, s: Server, step: Step)
    requires Inv(s) && WithinLimits(limits, s)
    ensures WithinLimits(limits, Apply(limits, s, step))
  {
    var t := Apply(limits, s, step);
    forall g ensures |RoomOf(t.rooms, g)| <= limits.maxConnections {
      RoomGrowsByOne(limits, s, step, g);
    }
    forall g ensures CountOf(t.counts, g) == multiset(t.accepted)[g] <= limits.maxRequests {
      CountFollows(limits, s, step, g);
    }
  }

  lemma RoomGrowsByOne(limits: Limits, s: Server, step: Step, g: Group)
    requires |RoomOf(s.rooms, g)| <= limits.maxConnections
    ensures |RoomOf(Apply(limits, s, step).rooms, g)| <= limits.maxConnections
  {
    var before, after := RoomOf(s.rooms, g), RoomOf(Apply(limits, s, step).rooms, g);
    match step
    case Connect(id, h, info, order) => ConnectGrows(limits, s, id, h, info, order, g);
    case Handle(id, order) =>
      UpdateKeepsKeys(s, id, order, g);
      SameSize(before, after);
    case Disconnect(id, order) =>
      DisconnectShrinks(s, id, order, g);
      Smaller(before, after);
    case _ =>
  }

  lemma ConnectGrows(limits: Limits, s: Server, id: PeerId, h: Group, info: Info, order: seq<PeerId>, g: Group)
    ensures var before, after := RoomOf(s.rooms, g), RoomOf(DoConnect(limits, s, id, h, info, order).rooms, g);
      after == before || (after == before[id := info] && |before| < limits.maxConnections)
  {
  }

  lemma UpdateKeepsKeys(s: Server, id: PeerId, order: seq<PeerId>, g: Group)
    ensures RoomOf(DoHandle(s, id, order).rooms, g).Keys == RoomOf(s.rooms, g).Keys
  {
  }

  lemma DisconnectShrinks(s: Server, id: PeerId, order: seq<PeerId>, g: Group)
    ensures RoomOf(DoDisconnect(s, id, order).rooms, g).Keys <= RoomOf(s.rooms, g).Keys
  {
  }

  lemma SameSize(a: Room, b: Room)
    ensures a.Keys == b.Keys ==> |a| == |b|
  {
    assert |a.Keys| == |a| && |b.Keys| == |b|;
  }

  lemma Smaller(a: Room, b: Room)
    ensures b.Keys <= a.Keys ==> |b| <= |a|
  {
    if b.Keys <= a.Keys {
      var rest := a.Keys - b.Keys;
      assert a.Keys == b.Keys + rest;
      assert |a.Keys| == |a| && |b.Keys| == |b|;
    }
  }

  /** One more request of group `h` was accepted. */
  ghost predicate Accepts(limits: Limits, s: Server, t: Server, h: Group) {
    && t.accepted == s.accepted + [h] && t.counts == s.counts[h := CountOf(s.counts, h) + 1]
    && CountOf(s.counts, h) < limits.maxRequests
  }

  ghost predicate AcceptsNone(s: Server, t: Server, g: Group) {
    t.accepted == s.accepted && CountOf(t.counts, g) == CountOf(s.counts, g)
  }

  lemma ConnectCounts(limits: Limits, s: Server, id: PeerId, h: Group, info: Info, order: seq<PeerId>, g: Group)
    ensures var t := DoConnect(limits, s, id, h, info, order); AcceptsNone(s, t, g) || Accepts(limits, s, t, h)
  {
  }

  lemma ClientSendsCounts(limits: Limits, s: Server, id: PeerId, request: Request, g: Group)
    ensures var t := DoClientSends(limits, s, id, request);
      AcceptsNone(s, t, g) || (id in s.conns && Accepts(limits, s, t, s.conns[id].group))
  {
  }

  lemma CountFollows(limits: Limits, s: Server, step: Step, g: Group)
    requires CountOf(s.counts, g) == multiset(s.accepted)[g] <= limits.maxRequests
    ensures CountOf(Apply(limits, s, step).counts, g) == multiset(Apply(limits, s, step).accepted)[g] <= limits.maxRequests
  {
    match step
    case Connect(id, h, info, order) => ConnectCounts(limits, s, id, h, info, order, g);
    case ClientSends(id, request) => ClientSendsCounts(limits, s, id, request, g);
    case _ =>
  }

  /**
   No room ever holds more than the permitted connections, and since the last hourly clear
   no group has had more than the permitted requests accepted.
   */
  lemma {:induction false} LimitsHold(limits: Limits, steps: seq<Step>)
    ensures WithinLimits(limits, Run(limits, steps))
  {
    if steps != [] {
      LimitsHold(limits, steps[..|steps| - 1]);
      Reachable(limits, steps[..|steps| - 1]);
      StepKeepsLimits(limits, Run(limits, steps[..|steps| - 1]), steps[|steps| - 1]);
    }
  }

  /** The hourly clear opens a group again: whoever connects next gets in exactly if its room has a place and any request is allowed at all. */
  lemma ClearLetsIn(limits: Limits, steps: seq<Step>, id: PeerId, g: Group, info: Info, order: seq<PeerId>)
    requires id !in Run(limits, steps).conns && IsOrder(order, RoomOf(Run(limits, steps).rooms, g).Keys)
    ensures var s, t := Run(limits, steps), Run(limits, steps + [ClearCounts] + [Connect(id, g, info, order)]);
      id in t.conns <==> |RoomOf(s.rooms, g)| < limits.maxConnections && 0 < limits.maxRequests
  {
    OneMore(limits, steps, ClearCounts);
    OneMore(limits, steps + [ClearCounts], Connect(id, g, info, order));
  }

  // ---------------------------------------------------------------------------
  // Rooms without clients
  // ---------------------------------------------------------------------------

  predicate IsEmptyEntry(s: Server, g: Group) {
    g in s.rooms && s.rooms[g] == map[]
  }

  /** The step is a connect to group `g` that is refused while nobody is there. */
  predicate RefusesFirst(limits: Limits, s: Server, step: Step, g: Group) {
    && step.Connect? && step.group == g && step.id !in s.conns && RoomOf(s.rooms, g) == map[]
    && (limits.maxConnections == 0 || CountOf(s.counts, g) >= limits.maxRequests)
  }

  predicate AdmitsTo(limits: Limits, s: Server, step: Step, g: Group) {
    step.Connect? && step.group == g && step.id !in s.conns && step.id in Apply(limits, s, step).conns
  }

  ghost predicate AdmitsAt(limits: Limits, steps: seq<Step>, j: nat, g: Group) {
    j < |steps| && AdmitsTo(limits, Run(limits, steps[..j]), steps[j], g)
  }

  ghost predicate RefusesAt(limits: Limits, steps: seq<Step>, i: nat, g: Group) {
    i < |steps| && RefusesFirst(limits, Run(limits, steps[..i]), steps[i], g)
  }

  /** A connect to `g` was refused while nobody was there, and nobody has got in since. */
  ghost predicate RefusedLast(limits: Limits, steps: seq<Step>, g: Group) {
    exists i: nat :: RefusesAt(limits, steps, i, g) && forall j: nat :: i < j ==> !AdmitsAt(limits, steps, j, g)
  }

  lemma ConnectEmpties(limits: Limits, s: Server, id: PeerId, h: Group, info: Info, order: seq<PeerId>, g: Group)
    ensures var step := Connect(id, h, info, order);
      IsEmptyEntry(DoConnect(limits, s, id, h, info, order), g) <==>
      RefusesFirst(limits, s, step, g) || (IsEmptyEntry(s, g) && !AdmitsTo(limits, s, step, g))
  {
  }

  lemma HandleEmpties(s: Server, id: PeerId, order: seq<PeerId>, g: Group)
    ensures IsEmptyEntry(DoHandle(s, id, order), g) <==> IsEmptyEntry(s, g)
  {
  }

  /** The last client takes its room with it. */
  lemma DisconnectEmpties(s: Server, id: PeerId, order: seq<PeerId>, g: Group)
    requires RoomsSound(s)
    ensures IsEmptyEntry(DoDisconnect(s, id, order), g) <==> IsEmptyEntry(s, g)
  {
    if id in s.conns && !s.conns[id].left {
      assert id in RoomOf(s.rooms, s.conns[id].group);
    }
  }

  lemma StepEmpties(limits: Limits, s: Server, step: Step, g: Group)
    requires RoomsSound(s)
    ensures IsEmptyEntry(Apply(limits, s, step), g) <==>
      RefusesFirst(limits, s, step, g) || (IsEmptyEntry(s, g) && !AdmitsTo(limits, s, step, g))
  {
    match step
    case Connect(id, h, info, order) => ConnectEmpties(limits, s, id, h, info, order, g);
    case Handle(id, order) => HandleEmpties(s, id, order, g);
    case Disconnect(id, order) => DisconnectEmpties(s, id, order, g);
    case _ =>
  }

  lemma SameEarlier(limits: Limits, steps: seq<Step>, last: Step, i: nat, g: Group)
    ensures RefusesAt(limits, steps + [last], i, g) <==>
      if i == |steps| then RefusesFirst(limits, Run(limits, steps), last, g) else RefusesAt(limits, steps, i, g)
    ensures AdmitsAt(limits, steps + [last], i, g) <==>
      if i == |steps| then AdmitsTo(limits, Run(limits, steps), last, g) else AdmitsAt(limits, steps, i, g)
  {
    if i <= |steps| {
      assert (steps + [last])[..i] == steps[..i];
      assert steps[..|steps|] == steps;
    }
  }

  lemma RefusedEarlierOrNow(limits: Limits, steps: seq<Step>, last: Step, g: Group)
    ensures RefusedLast(limits, steps + [last], g) <==>
      RefusesFirst(limits, Run(limits, steps), last, g)
      || (RefusedLast(limits, steps, g) && !AdmitsTo(limits, Run(limits, steps), last, g))
  {
    var all := steps + [last];
    forall i: nat
      ensures RefusesAt(limits, all, i, g) <==>
        if i == |steps| then RefusesFirst(limits, Run(limits, steps), last, g) else RefusesAt(limits, steps, i, g)
      ensures AdmitsAt(limits, all, i, g) <==>
        if i == |steps| then AdmitsTo(limits, Run(limits, steps), last, g) else AdmitsAt(limits, steps, i, g)
    {
      SameEarlier(limits, steps, last, i, g);
    }
    LastIsBound(limits, steps, last, g);
  }

  lemma LastIsBound(limits: Limits, steps: seq<Step>, last: Step, g: Group)
    requires forall i: nat {:trigger RefusesAt(limits, steps + [last], i, g)} :: RefusesAt(limits, steps + [last], i, g) <==>
      if i == |steps| then RefusesFirst(limits, Run(limits, steps), last, g) else RefusesAt(limits, steps, i, g)
    requires forall i: nat {:trigger AdmitsAt(limits, steps + [last], i, g)} :: AdmitsAt(limits, steps + [last], i, g) <==>
      if i == |steps| then AdmitsTo(limits, Run(limits, steps), last, g) else AdmitsAt(limits, steps, i, g)
    ensures RefusedLast(limits, steps + [last], g) <==>
      RefusesFirst(limits, Run(limits, steps), last, g)
      || (RefusedLast(limits, steps, g) && !AdmitsTo(limits, Run(limits, steps), last, g))
  {
    var all := steps + [last];
    if RefusesFirst(limits, Run(limits, steps), last, g) {
      assert RefusesAt(limits, all, |steps|, g);
      assert forall j: nat :: |steps| < j ==> !AdmitsAt(limits, all, j, g);
    }
    if RefusedLast(limits, steps, g) && !AdmitsTo(limits, Run(limits, steps), last, g) {
      var i: nat :| RefusesAt(limits, steps, i, g) && forall j: nat :: i < j ==> !AdmitsAt(limits, steps, j, g);
      assert RefusesAt(limits, all, i, g);
      assert forall j: nat :: i < j ==> !AdmitsAt(limits, all, j, g);
    }
    if RefusedLast(limits, all, g) && !RefusesFirst(limits, Run(limits, steps), last, g) {
      var i: nat :| RefusesAt(limits, all, i, g) && forall j: nat :: i < j ==> !AdmitsAt(limits, all, j, g);
      assert RefusesAt(limits, steps, i, g) && !AdmitsAt(limits, all, |steps|, g);
      forall j: nat | i < j ensures !AdmitsAt(limits, steps, j, g) {
        assert AdmitsAt(limits, steps, j, g) ==> AdmitsAt(limits, all, j, g);
      }
    }
  }

  /**
   In every run the server holds an entry for a group without clients if and only if a connect
   to it was refused while nobody was there and nobody has got in since: looking the room up
   creates it.
   */
  lemma {:induction false} EmptyRoomIffRefused(limits: Limits, steps: seq<Step>, g: Group)
    ensures IsEmptyEntry(Run(limits, steps), g) <==> RefusedLast(limits, steps, g)
  {
    if steps != [] {
      var front, last := steps[..|steps| - 1], steps[|steps| - 1];
      assert steps == front + [last];
      EmptyRoomIffRefused(limits, front, g);
      Reachable(limits, front);
      StepEmpties(limits, Run(limits, front), last, g);
      RefusedEarlierOrNow(limits, front, last, g);
    }
  }

  /** One client comes and goes, the next is over the request limit: the entry it created stays. */
  lemma EmptyRoomCanStay(limits: Limits)
    requires limits.maxConnections > 0 && limits.maxRequests == 1
    ensures IsEmptyEntry(Run(limits, [Connect(1, "g", 0, []), Deliver(1), Disconnect(1, []), Connect(2, "g", 0, [])]), "g")
  {
    var a, b, c, d: Step := Connect(1, "g", 0, []), Deliver(1), Disconnect(1, []), Connect(2, "g", 0, []);
    assert [a, b, c] + [d] == [a, b, c, d];
    ThreeSteps(limits, a, b, c);
    OneMore(limits, [a, b, c], d);
    var hello := Send(1, Hello(ClientInfo(1, 0), map[]));
    var s1 := DoConnect(limits, IDLE, 1, "g", 0, []);
    assert ToEach([], Join(ClientInfo(1, 0))) + [hello] == [hello];
    DeliverOne(limits, s1, 1, hello, []);
    var s2 := DoDeliver(s1, 1);
    assert s2.rooms == map["g" := map[1 := 0]] && CountOf(s2.counts, "g") == 1;
    var s3 := DoDisconnect(s2, 1, []);
    assert RoomOf(s2.rooms, "g") - {1} == map[];
    assert s3.rooms == map[] && CountOf(s3.counts, "g") == 1 && 2 !in s3.conns;
  }
}
