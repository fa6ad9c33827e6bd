/** What every step of the signalling server keeps. */
module SignalingInvariants {
  import opened Wrappers
  import opened Signaling

  type Conns = map<PeerId, Conn>

  /** The peer a message is about; an error message is about its receiver. */
  function Subject(msg: ServerMessage, receiver: PeerId): PeerId {
    match msg
    case Hello(client, _) => client.id
    case Join(peer) => peer.id
    case Update(peer) => peer.id
    case Left(id) => id
    case Offer(origin, _) => origin.id
    case Answer(origin, _) => origin.id
    case TooManyRequests => receiver
  }

  predicate IsJoin(msg: ServerMessage, x: PeerId) {
    msg.Join? && msg.peer.id == x
  }

  function Joins(inbox: seq<ServerMessage>, x: PeerId): nat {
    if inbox == [] then 0
    else Joins(inbox[..|inbox| - 1], x) + if IsJoin(inbox[|inbox| - 1], x) then 1 else 0
  }

  function Lefts(inbox: seq<ServerMessage>, x: PeerId): nat {
    if inbox == [] then 0
    else Lefts(inbox[..|inbox| - 1], x) + if inbox[|inbox| - 1] == Left(x) then 1 else 0
  }

  function Hellos(inbox: seq<ServerMessage>): nat {
    if inbox == [] then 0
    else Hellos(inbox[..|inbox| - 1]) + if inbox[|inbox| - 1].Hello? then 1 else 0
  }

  function PendingJoins(out: seq<Send>, c: PeerId, x: PeerId): nat {
    if out == [] then 0
    else PendingJoins(out[1..], c, x) + if out[0].target == c && IsJoin(out[0].msg, x) then 1 else 0
  }

  function PendingLefts(out: seq<Send>, c: PeerId, x: PeerId): nat {
    if out == [] then 0
    else PendingLefts(out[1..], c, x) + if out[0] == Send(c, Left(x)) then 1 else 0
  }

  // ---------------------------------------------------------------------------
  // Well-formed servers
  // ---------------------------------------------------------------------------

  predicate SameGroup(conns: Conns, a: PeerId, b: PeerId) {
    a in conns && b in conns && conns[a].group == conns[b].group
  }

  /** One of the two found the other in the room when it connected. */
  predicate Met(conns: Conns, c: PeerId, x: PeerId) {
    c in conns && x in conns && (x in conns[c].peers || c in conns[x].peers)
  }

  ghost predicate RoomsSound(s: Server) {
    && s.conns.Keys == s.inbox.Keys
    && (forall id :: id in s.conns ==> (!s.conns[id].left <==> id in RoomOf(s.rooms, s.conns[id].group)))
    && (forall g, id :: id in RoomOf(s.rooms, g) ==> id in s.conns && s.conns[id].group == g)
  }

  /** A client finds others of its own group; while it is not greeted, its `Hello` is its last send. */
  ghost predicate ConnFits(conns: Conns, id: PeerId)
    requires id in conns
  {
    var c := conns[id];
    && (forall x :: x in c.peers ==> x != id && SameGroup(conns, id, x))
    && (!c.greeted ==> c.out != [] && c.out[|c.out| - 1].msg.Hello? && !c.left)
    && (forall k :: 0 <= k < |c.out| - 1 ==> !c.out[k].msg.Hello?)
  }

  /** A send of connection `id` goes to a client of the same room and fits how far `id` has come. */
  predicate SendFits(conns: Conns, id: PeerId, send: Send)
    requires id in conns
  {
    && SameGroup(conns, id, send.target) && Subject(send.msg, send.target) == id
    && match send.msg
       case Hello(_, peers) => send.target == id && peers == conns[id].peers && !conns[id].greeted
       case Join(_) => send.target != id && !conns[id].greeted
       case Update(_) => send.target != id && Met(conns, send.target, id)
       case Left(_) => false
       case _ => true
  }

  predicate FarewellFits(conns: Conns, id: PeerId, send: Send)
    requires id in conns
  {
    SameGroup(conns, id, send.target) && send.target != id && send.msg == Left(id) && conns[id].left
  }

  /** A message that client `c` can have received. */
  predicate MailFits(conns: Conns, c: PeerId, msg: ServerMessage)
    requires c in conns
  {
    var x := Subject(msg, c);
    && SameGroup(conns, c, x)
    && match msg
       case Hello(_, peers) => x == c && peers == conns[c].peers && conns[c].greeted
       case Join(_) => x != c
       case Update(_) => x != c && Met(conns, c, x)
       case Left(_) => x != c && conns[x].left
       case _ => true
  }

  ghost predicate SenderFits(conns: Conns, id: PeerId)
    requires id in conns
  {
    && ConnFits(conns, id)
    && (forall send {:trigger SendFits(conns, id, send)} :: send in conns[id].out ==> SendFits(conns, id, send))
    && (forall send {:trigger FarewellFits(conns, id, send)} :: send in conns[id].farewell ==> FarewellFits(conns, id, send))
  }

  ghost predicate SendsSound(s: Server) {
    forall id {:trigger SenderFits(s.conns, id)} :: id in s.conns ==> SenderFits(s.conns, id)
  }

  ghost predicate MailSound(s: Server) {
    forall c, msg {:trigger MailFits(s.conns, c, msg)} ::
      c in s.conns && c in s.inbox && msg in s.inbox[c] ==> MailFits(s.conns, c, msg)
  }

  ghost predicate GreetedOnce(s: Server) {
    forall c :: c in s.conns && c in s.inbox ==> Hellos(s.inbox[c]) == if s.conns[c].greeted then 1 else 0
  }

  // ---------------------------------------------------------------------------
  // Discovery
  // ---------------------------------------------------------------------------

  /** How often `x` has been or is about to be announced to `c`. */
  function Announced(s: Server, c: PeerId, x: PeerId): nat
    requires c in s.conns && c in s.inbox && x in s.conns
  {
    (if x in s.conns[c].peers then 1 else 0) + Joins(s.inbox[c], x) + PendingJoins(s.conns[x].out, c, x)
  }

  function Withdrawn(s: Server, c: PeerId, x: PeerId): nat
    requires c in s.inbox && x in s.conns
  {
    Lefts(s.inbox[c], x) + PendingLefts(s.conns[x].farewell, c, x)
  }

  ghost predicate JoinFirst(inbox: seq<ServerMessage>, x: PeerId) {
    forall i, j :: 0 <= i < j < |inbox| && inbox[i] == Left(x) ==> !IsJoin(inbox[j], x)
  }

  ghost predicate Discovered(s: Server, c: PeerId, x: PeerId)
    requires c in s.conns && c in s.inbox && x in s.conns
  {
    var parted := if Met(s.conns, c, x) && s.conns[x].left then 1 else 0;
    && Announced(s, c, x) == (if Met(s.conns, c, x) then 1 else 0)
    && Withdrawn(s, c, x) <= parted
    && (!s.conns[c].left ==> Withdrawn(s, c, x) == parted)
    && JoinFirst(s.inbox[c], x)
  }

  ghost predicate Discovery(s: Server) {
    && s.conns.Keys == s.inbox.Keys
    && forall c, x {:trigger Discovered(s, c, x)} :: c in s.conns && x in s.conns && x != c ==> Discovered(s, c, x)
  }

  /** Whoever is in a room together has met. */
  ghost predicate Acquainted(conns: Conns) {
    forall c, x {:trigger Met(conns, c, x)} ::
      SameGroup(conns, c, x) && x != c && !conns[c].left && !conns[x].left ==> Met(conns, c, x)
  }

  ghost predicate Inv(s: Server) {
    RoomsSound(s) && SendsSound(s) && MailSound(s) && GreetedOnce(s) && Discovery(s) && Acquainted(s.conns)
  }

  // ---------------------------------------------------------------------------
  // Frames
  // ---------------------------------------------------------------------------

  /** Who is connected, from where and whom it found never changes; greeting and leaving are for good. */
  ghost predicate Grows(before: Conns, after: Conns) {
    forall id :: id in before ==>
      && id in after && after[id].group == before[id].group && after[id].peers == before[id].peers
      && (before[id].greeted ==> after[id].greeted) && (before[id].left ==> after[id].left)
  }

  /** Only connection `id` changed. */
  ghost predicate OnlyConn(s: Server, t: Server, id: PeerId) {
    && id in s.conns && t.conns.Keys == s.conns.Keys
    && (forall x :: x in s.conns && x != id ==> t.conns[x] == s.conns[x])
    && Grows(s.conns, t.conns)
  }

  lemma MailGrows(before: Conns, after: Conns, c: PeerId, msg: ServerMessage)
    requires c in before && MailFits(before, c, msg) && Grows(before, after)
    ensures MailFits(after, c, msg)
  {
  }

  lemma SendGrows(before: Conns, after: Conns, id: PeerId, send: Send)
    requires id in before && SendFits(before, id, send) && Grows(before, after)
    requires after[id].greeted == before[id].greeted
    ensures SendFits(after, id, send)
  {
  }

  /** What connection `x` has to send stays sound when others move. */
  lemma SenderFramed(s: Server, t: Server, x: PeerId)
    requires x in s.conns && SenderFits(s.conns, x) && Grows(s.conns, t.conns) && t.conns[x] == s.conns[x]
    ensures SenderFits(t.conns, x)
  {
    forall send | send in t.conns[x].out ensures SendFits(t.conns, x, send) {
      SendGrows(s.conns, t.conns, x, send);
    }
    forall send | send in t.conns[x].farewell ensures FarewellFits(t.conns, x, send) {
      assert FarewellFits(s.conns, x, send);
    }
  }

  lemma OneSenderChanged(s: Server, t: Server, id: PeerId)
    requires SendsSound(s) && OnlyConn(s, t, id) && SenderFits(t.conns, id)
    ensures SendsSound(t)
  {
    forall x | x in t.conns ensures SenderFits(t.conns, x) {
      if x != id {
        assert SenderFits(s.conns, x);
        SenderFramed(s, t, x);
      }
    }
  }

  lemma MailFramed(s: Server, t: Server)
    requires MailSound(s) && Grows(s.conns, t.conns) && t.conns.Keys == s.conns.Keys && t.inbox == s.inbox
    ensures MailSound(t)
  {
    forall c, msg | c in t.conns && c in t.inbox && msg in t.inbox[c] ensures MailFits(t.conns, c, msg) {
      MailGrows(s.conns, t.conns, c, msg);
    }
  }

  lemma RoomsFramed(s: Server, t: Server, id: PeerId)
    requires RoomsSound(s) && OnlyConn(s, t, id) && t.inbox.Keys == s.inbox.Keys
    requires t.conns[id].left == s.conns[id].left
    requires forall g :: RoomOf(t.rooms, g).Keys == RoomOf(s.rooms, g).Keys
    ensures RoomsSound(t)
  {
    forall x | x in t.conns ensures !t.conns[x].left <==> x in RoomOf(t.rooms, t.conns[x].group) {
      assert x in RoomOf(t.rooms, t.conns[x].group).Keys <==> x in RoomOf(s.rooms, s.conns[x].group).Keys;
    }
    forall g, x | x in RoomOf(t.rooms, g) ensures x in t.conns && t.conns[x].group == g {
      assert x in RoomOf(s.rooms, g).Keys;
    }
  }

  lemma AcquaintedGrows(before: Conns, after: Conns)
    requires Acquainted(before) && Grows(before, after) && after.Keys == before.Keys
    ensures Acquainted(after)
  {
    forall c, x | SameGroup(after, c, x) && x != c && !after[c].left && !after[x].left ensures Met(after, c, x) {
      assert SameGroup(before, c, x) && Met(before, c, x);
    }
  }

  /** The counters, and rooms that were created empty, do not matter. */
  ghost predicate SameRooms(s: Server, t: Server) {
    t.conns == s.conns && t.inbox == s.inbox && forall g :: RoomOf(t.rooms, g) == RoomOf(s.rooms, g)
  }

  lemma SameRoomsKeepInv(s: Server, t: Server)
    requires Inv(s) && SameRooms(s, t)
    ensures Inv(t)
  {
    forall g, id | id in RoomOf(t.rooms, g) ensures id in t.conns && t.conns[id].group == g {
      assert id in RoomOf(s.rooms, g);
    }
    forall c, x | c in t.conns && x in t.conns && x != c ensures Discovered(t, c, x) {
      assert Discovered(s, c, x);
    }
  }

  // ---------------------------------------------------------------------------
  // Counting
  // ---------------------------------------------------------------------------

  lemma {:induction false} NothingFor(out: seq<Send>, c: PeerId, x: PeerId)
    requires forall k :: 0 <= k < |out| ==> out[k].target != c || Subject(out[k].msg, c) != x || (!out[k].msg.Join? && !out[k].msg.Left?)
    ensures PendingJoins(out, c, x) == 0 && PendingLefts(out, c, x) == 0
  {
    if out != [] {
      NothingFor(out[1..], c, x);
    }
  }

  lemma {:induction false} NothingSaid(inbox: seq<ServerMessage>, x: PeerId)
    requires forall i :: 0 <= i < |inbox| ==> !IsJoin(inbox[i], x) && inbox[i] != Left(x)
    ensures Joins(inbox, x) == 0 && Lefts(inbox, x) == 0
  {
    if inbox != [] {
      NothingSaid(inbox[..|inbox| - 1], x);
    }
  }

  /** Everyone in `order` is told once, and nobody else is. */
  lemma {:induction false} EachOnce(order: seq<PeerId>, msg: ServerMessage, rest: seq<Send>, c: PeerId, x: PeerId)
    requires forall i, j :: 0 <= i < j < |order| ==> order[i] != order[j]
    requires forall k :: 0 <= k < |rest| ==> !rest[k].msg.Join? && !rest[k].msg.Left?
    ensures PendingJoins(ToEach(order, msg) + rest, c, x) == if c in order && IsJoin(msg, x) then 1 else 0
    ensures PendingLefts(ToEach(order, msg) + rest, c, x) == if c in order && msg == Left(x) then 1 else 0
  {
    var out := ToEach(order, msg) + rest;
    if order == [] {
      assert out == rest;
      NothingFor(rest, c, x);
    } else {
      assert out[1..] == ToEach(order[1..], msg) + rest;
      EachOnce(order[1..], msg, rest, c, x);
    }
  }

  /** The first send of a queue, seen from the counters. */
  lemma Popped(out: seq<Send>, inbox: seq<ServerMessage>, c: PeerId, x: PeerId)
    requires out != []
    ensures var told := if out[0].target == c then inbox + [out[0].msg] else inbox;
      && Joins(told, x) + PendingJoins(out[1..], c, x) == Joins(inbox, x) + PendingJoins(out, c, x)
      && Lefts(told, x) + PendingLefts(out[1..], c, x) == Lefts(inbox, x) + PendingLefts(out, c, x)
  {
    assert (inbox + [out[0].msg])[..|inbox|] == inbox;
  }

  lemma Told(inbox: seq<ServerMessage>, msg: ServerMessage, x: PeerId)
    ensures Joins(inbox + [msg], x) == Joins(inbox, x) + if IsJoin(msg, x) then 1 else 0
    ensures Lefts(inbox + [msg], x) == Lefts(inbox, x) + if msg == Left(x) then 1 else 0
    ensures Hellos(inbox + [msg]) == Hellos(inbox) + if msg.Hello? then 1 else 0
  {
    assert (inbox + [msg])[..|inbox|] == inbox;
  }

  // ---------------------------------------------------------------------------
  // Connecting
  // ---------------------------------------------------------------------------

  /** The result of an accepted connect. */
  ghost predicate Admitted(s: Server, t: Server, id: PeerId, g: Group, info: Info, order: seq<PeerId>) {
    var me, room := ClientInfo(id, info), RoomOf(s.rooms, g);
    && id !in s.conns && IsOrder(order, room.Keys)
    && t.rooms == s.rooms[g := room[id := info]]
    && t.conns == s.conns[id := Conn(g, info, room, ToEach(order, Join(me)) + [Send(id, Hello(me, room))], false, false, false, [], None)]
    && t.inbox == s.inbox[id := []]
  }

  lemma ConnectAdmits(limits: Limits, s: Server, id: PeerId, g: Group, info: Info, order: seq<PeerId>)
    ensures var t := DoConnect(limits, s, id, g, info, order);
      || Admitted(s, t, id, g, info, order)
      || SameRooms(s, t)
  {
  }

  lemma AdmittedRooms(s: Server, t: Server, id: PeerId, g: Group, info: Info, order: seq<PeerId>)
    requires RoomsSound(s) && Admitted(s, t, id, g, info, order)
    ensures RoomsSound(t)
  {
    forall h, x | x in RoomOf(t.rooms, h) ensures x in t.conns && t.conns[x].group == h {
      if !(h == g && x == id) {
        assert x in RoomOf(s.rooms, h);
      }
    }
    forall x | x in t.conns ensures !t.conns[x].left <==> x in RoomOf(t.rooms, t.conns[x].group) {
      if x != id {
        assert !s.conns[x].left <==> x in RoomOf(s.rooms, s.conns[x].group);
      }
    }
  }

  lemma AdmittedSends(s: Server, t: Server, id: PeerId, g: Group, info: Info, order: seq<PeerId>)
    requires RoomsSound(s) && SendsSound(s) && Admitted(s, t, id, g, info, order)
    ensures SendsSound(t)
  {
    forall x | x in t.conns ensures SenderFits(t.conns, x) {
      if x != id {
        assert SenderFits(s.conns, x);
        SenderFramed(s, t, x);
      } else {
        forall send | send in t.conns[id].out ensures SendFits(t.conns, id, send) {
          var k :| 0 <= k < |t.conns[id].out| && t.conns[id].out[k] == send;
          assert k < |order| ==> order[k] in RoomOf(s.rooms, g);
        }
      }
    }
  }

  lemma AdmittedMail(s: Server, t: Server, id: PeerId, g: Group, info: Info, order: seq<PeerId>)
    requires MailSound(s) && GreetedOnce(s) && s.conns.Keys == s.inbox.Keys && Admitted(s, t, id, g, info, order)
    ensures MailSound(t) && GreetedOnce(t)
  {
    forall c, msg | c in t.conns && c in t.inbox && msg in t.inbox[c] ensures MailFits(t.conns, c, msg) {
      MailGrows(s.conns, t.conns, c, msg);
    }
  }

  lemma AdmittedAcquainted(s: Server, t: Server, id: PeerId, g: Group, info: Info, order: seq<PeerId>)
    requires RoomsSound(s) && Acquainted(s.conns) && Admitted(s, t, id, g, info, order)
    ensures Acquainted(t.conns)
  {
    forall c, x | SameGroup(t.conns, c, x) && x != c && !t.conns[c].left && !t.conns[x].left ensures Met(t.conns, c, x) {
      if c != id && x != id {
        assert SameGroup(s.conns, c, x) && Met(s.conns, c, x);
      } else {
        var other := if c == id then x else c;
        assert other in RoomOf(s.rooms, g);
      }
    }
  }

  /** Nobody has heard of an id that never connected. */
  lemma StrangersAreUnknown(s: Server, c: PeerId, x: PeerId)
    requires SendsSound(s) && MailSound(s) && c in s.conns && c in s.inbox && x !in s.conns
    ensures x !in s.conns[c].peers && Joins(s.inbox[c], x) == 0 && Lefts(s.inbox[c], x) == 0
    ensures Left(x) !in s.inbox[c]
  {
    assert SenderFits(s.conns, c);
    forall i | 0 <= i < |s.inbox[c]| ensures !IsJoin(s.inbox[c][i], x) && s.inbox[c][i] != Left(x) {
      assert MailFits(s.conns, c, s.inbox[c][i]);
    }
    NothingSaid(s.inbox[c], x);
  }

  /** A client that is not connected yet is nobody's target. */
  lemma StrangersGetNothing(s: Server, c: PeerId, x: PeerId)
    requires SendsSound(s) && x in s.conns && c !in s.conns
    ensures PendingJoins(s.conns[x].out, c, x) == 0 && PendingLefts(s.conns[x].farewell, c, x) == 0
    ensures c !in s.conns[x].peers
  {
    assert SenderFits(s.conns, x);
    forall k | 0 <= k < |s.conns[x].out| ensures s.conns[x].out[k].target != c {
      assert SendFits(s.conns, x, s.conns[x].out[k]);
    }
    forall k | 0 <= k < |s.conns[x].farewell| ensures s.conns[x].farewell[k].target != c {
      assert FarewellFits(s.conns, x, s.conns[x].farewell[k]);
    }
    NothingFor(s.conns[x].out, c, x);
    NothingFor(s.conns[x].farewell, c, x);
  }

  /** The newcomer knows the room it found. */
  lemma NewcomerDiscovers(s: Server, t: Server, id: PeerId, g: Group, info: Info, order: seq<PeerId>, x: PeerId)
    requires RoomsSound(s) && SendsSound(s) && Admitted(s, t, id, g, info, order)
    requires x in s.conns
    ensures Discovered(t, id, x)
  {
    StrangersGetNothing(s, id, x);
  }

  /** The room is about to hear of the newcomer. */
  lemma NewcomerIsAnnounced(s: Server, t: Server, id: PeerId, g: Group, info: Info, order: seq<PeerId>, c: PeerId)
    requires RoomsSound(s) && SendsSound(s) && MailSound(s) && Admitted(s, t, id, g, info, order)
    requires c in s.conns
    ensures Discovered(t, c, id)
  {
    EachOnce(order, Join(ClientInfo(id, info)), [Send(id, Hello(ClientInfo(id, info), RoomOf(s.rooms, g)))], c, id);
    StrangersAreUnknown(s, c, id);
  }

  lemma ConnectKeepsInv(limits: Limits, s: Server, id: PeerId, g: Group, info: Info, order: seq<PeerId>)
    requires Inv(s)
    ensures Inv(DoConnect(limits, s, id, g, info, order))
  {
    var t := DoConnect(limits, s, id, g, info, order);
    ConnectAdmits(limits, s, id, g, info, order);
    if SameRooms(s, t) {
      SameRoomsKeepInv(s, t);
    } else {
      AdmittedKeepsInv(s, t, id, g, info, order);
    }
  }

  lemma AdmittedKeepsInv(s: Server, t: Server, id: PeerId, g: Group, info: Info, order: seq<PeerId>)
    requires Inv(s) && Admitted(s, t, id, g, info, order)
    ensures Inv(t)
  {
    AdmittedRooms(s, t, id, g, info, order);
    AdmittedSends(s, t, id, g, info, order);
    AdmittedMail(s, t, id, g, info, order);
    AdmittedAcquainted(s, t, id, g, info, order);
    forall c, x | c in t.conns && x in t.conns && x != c ensures Discovered(t, c, x) {
      if c == id {
        NewcomerDiscovers(s, t, id, g, info, order, x);
      } else if x == id {
        NewcomerIsAnnounced(s, t, id, g, info, order, c);
      } else {
        assert Discovered(s, c, x);
      }
    }
  }

  // ---------------------------------------------------------------------------
  // Sending
  // ---------------------------------------------------------------------------

  /** Connection `id` sent `send`, which its receiver can have received. */
  ghost predicate Sent(s: Server, t: Server, id: PeerId, send: Send) {
    && OnlyConn(s, t, id) && t.rooms == s.rooms && s.conns.Keys == s.inbox.Keys
    && t.conns[id].left == s.conns[id].left
    && t.conns[id].greeted == (s.conns[id].greeted || send.msg.Hello?)
    && (send.msg.Hello? ==> send.target == id && !s.conns[id].greeted)
    && send.target in t.conns && MailFits(t.conns, send.target, send.msg)
    && t.inbox == s.inbox[send.target := s.inbox[send.target] + [send.msg]]
  }

  lemma SentMail(s: Server, t: Server, id: PeerId, send: Send)
    requires MailSound(s) && GreetedOnce(s) && Sent(s, t, id, send)
    ensures MailSound(t) && GreetedOnce(t)
  {
    forall c, msg | c in t.conns && c in t.inbox && msg in t.inbox[c] ensures MailFits(t.conns, c, msg) {
      if msg in s.inbox[c] {
        MailGrows(s.conns, t.conns, c, msg);
      }
    }
    Told(s.inbox[send.target], send.msg, id);
  }

  lemma DeliverSends(s: Server, id: PeerId)
    requires s.conns.Keys == s.inbox.Keys && id in s.conns && s.conns[id].out != [] && SenderFits(s.conns, id)
    ensures Sent(s, DoDeliver(s, id), id, s.conns[id].out[0]) && SenderFits(DoDeliver(s, id).conns, id)
  {
    var t := DoDeliver(s, id);
    var out := s.conns[id].out;
    assert SendFits(s.conns, id, out[0]);
    forall send | send in t.conns[id].out ensures SendFits(t.conns, id, send) {
      assert SendFits(s.conns, id, send);
      assert out[0].msg.Hello? ==> |out| == 1;
    }
    forall send | send in t.conns[id].farewell ensures FarewellFits(t.conns, id, send) {
      assert FarewellFits(s.conns, id, send);
    }
  }

  lemma GoodbyeSends(s: Server, id: PeerId)
    requires s.conns.Keys == s.inbox.Keys && id in s.conns && s.conns[id].farewell != [] && SenderFits(s.conns, id)
    ensures Sent(s, DoSayGoodbye(s, id), id, s.conns[id].farewell[0]) && SenderFits(DoSayGoodbye(s, id).conns, id)
  {
    var t := DoSayGoodbye(s, id);
    assert FarewellFits(s.conns, id, s.conns[id].farewell[0]);
    forall send | send in t.conns[id].out ensures SendFits(t.conns, id, send) {
      SendGrows(s.conns, t.conns, id, send);
    }
    forall send | send in t.conns[id].farewell ensures FarewellFits(t.conns, id, send) {
      assert FarewellFits(s.conns, id, send);
    }
  }

  /** A message is counted where it arrives and no longer where it waited. */
  lemma SentCounts(s: Server, t: Server, id: PeerId, send: Send, c: PeerId, x: PeerId)
    requires Sent(s, t, id, send) && Subject(send.msg, send.target) == id && !send.msg.Left?
    requires t.conns[id].farewell == s.conns[id].farewell && s.conns[id].out == [send] + t.conns[id].out
    requires c in s.conns && x in s.conns
    ensures Announced(t, c, x) == Announced(s, c, x) && Withdrawn(t, c, x) == Withdrawn(s, c, x)
  {
    Told(s.inbox[c], send.msg, x);
    if x == id {
      Popped(s.conns[id].out, s.inbox[c], c, x);
    }
  }

  lemma SentDiscovery(s: Server, t: Server, id: PeerId, send: Send, c: PeerId, x: PeerId)
    requires Sent(s, t, id, send) && Subject(send.msg, send.target) == id && !send.msg.Left?
    requires t.conns[id].farewell == s.conns[id].farewell && s.conns[id].out == [send] + t.conns[id].out
    requires c in s.conns && x in s.conns && x != c && Discovered(s, c, x)
    requires send.msg.Join? && send.target == c ==> Left(id) !in s.inbox[c]
    ensures Discovered(t, c, x)
  {
    SentCounts(s, t, id, send, c, x);
    if send.target == c {
      JoinStaysFirst(s.inbox[c], send.msg, x);
    }
    assert t.conns[c].left == s.conns[c].left && t.conns[x].left == s.conns[x].left;
    assert Met(t.conns, c, x) <==> Met(s.conns, c, x);
  }

  lemma JoinStaysFirst(inbox: seq<ServerMessage>, msg: ServerMessage, x: PeerId)
    requires JoinFirst(inbox, x) && (IsJoin(msg, x) ==> Left(x) !in inbox)
    ensures JoinFirst(inbox + [msg], x)
  {
  }

  lemma GoodbyeDiscovery(s: Server, t: Server, id: PeerId, send: Send, c: PeerId, x: PeerId)
    requires Sent(s, t, id, send) && send.msg == Left(id)
    requires t.conns[id].out == s.conns[id].out && s.conns[id].farewell == [send] + t.conns[id].farewell
    requires c in s.conns && x in s.conns && x != c && Discovered(s, c, x)
    ensures Discovered(t, c, x)
  {
    Told(s.inbox[c], send.msg, x);
    if x == id {
      Popped(s.conns[id].farewell, s.inbox[c], c, x);
    }
  }

  lemma NoFarewellYet(s: Server, c: PeerId, x: PeerId)
    requires MailSound(s) && c in s.conns && c in s.inbox && x in s.conns && !s.conns[x].left
    ensures Left(x) !in s.inbox[c]
  {
    assert Left(x) in s.inbox[c] ==> MailFits(s.conns, c, Left(x));
  }

  lemma DeliverKeepsInv(s: Server, id: PeerId)
    requires Inv(s) && id in s.conns && s.conns[id].out != []
    ensures Inv(DoDeliver(s, id))
  {
    var t := DoDeliver(s, id);
    var send := s.conns[id].out[0];
    assert SenderFits(s.conns, id) && SendFits(s.conns, id, send);
    DeliverSends(s, id);
    DeliverDiscovery(s, t, id, send);
    SentKeepsInv(s, t, id, send);
  }

  lemma SentKeepsInv(s: Server, t: Server, id: PeerId, send: Send)
    requires RoomsSound(s) && SendsSound(s) && MailSound(s) && GreetedOnce(s) && Acquainted(s.conns)
    requires Sent(s, t, id, send) && SenderFits(t.conns, id) && Discovery(t)
    ensures Inv(t)
  {
    OneSenderChanged(s, t, id);
    SentMail(s, t, id, send);
    RoomsFramed(s, t, id);
    AcquaintedGrows(s.conns, t.conns);
  }

  lemma DeliverDiscovery(s: Server, t: Server, id: PeerId, send: Send)
    requires Discovery(s) && MailSound(s) && Sent(s, t, id, send) && SendFits(s.conns, id, send)
    requires t.conns[id].farewell == s.conns[id].farewell && s.conns[id].out == [send] + t.conns[id].out
    requires ConnFits(s.conns, id)
    ensures Discovery(t)
  {
    forall c, x | c in t.conns && x in t.conns && x != c ensures Discovered(t, c, x) {
      assert Discovered(s, c, x);
      if send.msg.Join? {
        NoFarewellYet(s, c, id);
      }
      SentDiscovery(s, t, id, send, c, x);
    }
  }

  lemma GoodbyeKeepsInv(s: Server, id: PeerId)
    requires Inv(s) && id in s.conns && s.conns[id].farewell != []
    ensures Inv(DoSayGoodbye(s, id))
  {
    var t := DoSayGoodbye(s, id);
    var send := s.conns[id].farewell[0];
    assert SenderFits(s.conns, id) && FarewellFits(s.conns, id, send);
    GoodbyeSends(s, id);
    GoodbyesDiscovered(s, t, id, send);
    SentKeepsInv(s, t, id, send);
  }

  lemma GoodbyesDiscovered(s: Server, t: Server, id: PeerId, send: Send)
    requires Discovery(s) && Sent(s, t, id, send) && send.msg == Left(id)
    requires t.conns[id].out == s.conns[id].out && s.conns[id].farewell == [send] + t.conns[id].farewell
    ensures Discovery(t)
  {
    forall c, x | c in t.conns && x in t.conns && x != c ensures Discovered(t, c, x) {
      assert Discovered(s, c, x);
      GoodbyeDiscovery(s, t, id, send, c, x);
    }
  }

  // ---------------------------------------------------------------------------
  // Updating and relaying
  // ---------------------------------------------------------------------------

  /** An idle receive loop may get new sends, neither greetings nor farewells. */
  ghost predicate Talks(s: Server, t: Server, id: PeerId, out: seq<Send>) {
    && id in s.conns && s.conns[id].greeted && s.conns[id].out == [] && id in t.conns
    && t.conns == s.conns[id := s.conns[id].(out := out, refused := t.conns[id].refused, request := t.conns[id].request)]
    && t.inbox == s.inbox && (forall g :: RoomOf(t.rooms, g).Keys == RoomOf(s.rooms, g).Keys)
    && (forall k :: 0 <= k < |out| ==> !out[k].msg.Hello? && !out[k].msg.Join? && !out[k].msg.Left?)
    && forall send {:trigger SendFits(s.conns, id, send)} :: send in out ==> SendFits(s.conns, id, send)
  }

  lemma TalkSends(s: Server, t: Server, id: PeerId, out: seq<Send>)
    requires Talks(s, t, id, out) && SenderFits(s.conns, id)
    ensures OnlyConn(s, t, id) && SenderFits(t.conns, id)
  {
    forall send | send in t.conns[id].out ensures SendFits(t.conns, id, send) {
      SendGrows(s.conns, t.conns, id, send);
    }
    forall send | send in t.conns[id].farewell ensures FarewellFits(t.conns, id, send) {
      assert FarewellFits(s.conns, id, send);
    }
  }

  lemma TalkDiscovery(s: Server, t: Server, id: PeerId, out: seq<Send>, c: PeerId, x: PeerId)
    requires Talks(s, t, id, out) && c in s.conns && c in s.inbox && x in s.conns && x != c && Discovered(s, c, x)
    ensures Discovered(t, c, x)
  {
    NothingFor(out, c, x);
  }

  lemma TalkKeepsInv(s: Server, t: Server, id: PeerId, out: seq<Send>)
    requires Inv(s) && Talks(s, t, id, out)
    ensures Inv(t)
  {
    assert SenderFits(s.conns, id);
    TalkSends(s, t, id, out);
    OneSenderChanged(s, t, id);
    MailFramed(s, t);
    RoomsFramed(s, t, id);
    AcquaintedGrows(s.conns, t.conns);
    forall c, x | c in t.conns && x in t.conns && x != c ensures Discovered(t, c, x) {
      assert Discovered(s, c, x);
      TalkDiscovery(s, t, id, out, c, x);
    }
  }

  /** An update that is passed on reaches those `id` shares its room with. */
  lemma UpdatesFit(s: Server, id: PeerId, info: Info, order: seq<PeerId>, send: Send)
    requires RoomsSound(s) && Acquainted(s.conns) && id in s.conns && id in RoomOf(s.rooms, s.conns[id].group)
    requires IsOrder(order, RoomOf(s.rooms, s.conns[id].group).Keys - {id})
    requires send in ToEach(order, Update(ClientInfo(id, info)))
    ensures SendFits(s.conns, id, send)
  {
    var k :| 0 <= k < |order| && send == Send(order[k], Update(ClientInfo(id, info)));
    assert order[k] in RoomOf(s.rooms, s.conns[id].group);
    assert Met(s.conns, order[k], id);
  }

  lemma ClientSendsKeepsInv(limits: Limits, s: Server, id: PeerId, request: Request)
    requires Inv(s) && Listening(s, id)
    ensures Inv(DoClientSends(limits, s, id, request))
  {
    var t := DoClientSends(limits, s, id, request);
    TalkKeepsInv(s, t, id, t.conns[id].out);
  }

  lemma HandleKeepsInv(s: Server, id: PeerId, order: seq<PeerId>)
    requires Inv(s) && Handles(s, id)
    ensures Inv(DoHandle(s, id, order))
  {
    var t := DoHandle(s, id, order);
    match s.conns[id].request.value
    case UpdateInfo(info) => UpdateKeepsInv(s, id, info, order);
    case Relay(target, _, _) =>
      RelayTalks(s, id, order);
      TalkKeepsInv(s, t, id, t.conns[id].out);
  }

  lemma RelayTalks(s: Server, id: PeerId, order: seq<PeerId>)
    requires RoomsSound(s) && Handles(s, id) && s.conns[id].request.value.Relay?
    ensures Talks(s, DoHandle(s, id, order), id, DoHandle(s, id, order).conns[id].out)
  {
    var target := s.conns[id].request.value.target;
    if target in RoomOf(s.rooms, s.conns[id].group) {
      assert SameGroup(s.conns, id, target);
    }
  }

  lemma UpdateKeepsInv(s: Server, id: PeerId, info: Info, order: seq<PeerId>)
    requires Inv(s) && Handles(s, id)
    ensures Inv(DoUpdate(s, id, info, order))
  {
    var t := DoUpdate(s, id, info, order);
    var room := RoomOf(s.rooms, s.conns[id].group);
    if id !in room {
      TalkKeepsInv(s, t, id, []);
    } else if IsOrder(order, room.Keys - {id}) {
      var out := ToEach(order, Update(ClientInfo(id, info)));
      forall send | send in out ensures SendFits(s.conns, id, send) {
        UpdatesFit(s, id, info, order, send);
      }
      TalkKeepsInv(s, t, id, out);
    }
  }

  // ---------------------------------------------------------------------------
  // Disconnecting
  // ---------------------------------------------------------------------------

  /** Connection `id` was removed from its room and is about to tell those in `order`. */
  ghost predicate Leaves(s: Server, t: Server, id: PeerId, order: seq<PeerId>) {
    && id in s.conns && s.conns[id].greeted && !s.conns[id].left
    && IsOrder(order, RoomOf(s.rooms, s.conns[id].group).Keys - {id})
    && t.conns == s.conns[id := s.conns[id].(left := true, farewell := ToEach(order, Left(id)))]
    && t.inbox == s.inbox
    && (forall g, x :: x in RoomOf(t.rooms, g) <==> x in RoomOf(s.rooms, g) && !(x == id && g == s.conns[id].group))
  }

  lemma DisconnectLeaves(s: Server, id: PeerId, order: seq<PeerId>)
    ensures DoDisconnect(s, id, order) == s || Leaves(s, DoDisconnect(s, id, order), id, order)
  {
  }

  lemma LeaveRooms(s: Server, t: Server, id: PeerId, order: seq<PeerId>)
    requires RoomsSound(s) && Leaves(s, t, id, order)
    ensures RoomsSound(t)
  {
  }

  lemma LeaveSends(s: Server, t: Server, id: PeerId, order: seq<PeerId>)
    requires RoomsSound(s) && Leaves(s, t, id, order) && SenderFits(s.conns, id)
    ensures OnlyConn(s, t, id) && SenderFits(t.conns, id)
  {
    FarewellsFit(s, t, id, order);
    OnlyLeaverChanges(s, t, id, order);
    forall send | send in t.conns[id].out ensures SendFits(t.conns, id, send) {
      SendGrows(s.conns, t.conns, id, send);
    }
  }

  lemma OnlyLeaverChanges(s: Server, t: Server, id: PeerId, order: seq<PeerId>)
    requires Leaves(s, t, id, order)
    ensures OnlyConn(s, t, id)
  {
  }

  lemma FarewellsFit(s: Server, t: Server, id: PeerId, order: seq<PeerId>)
    requires RoomsSound(s) && Leaves(s, t, id, order)
    ensures forall send {:trigger FarewellFits(t.conns, id, send)} :: send in t.conns[id].farewell ==> FarewellFits(t.conns, id, send)
  {
    forall send | send in t.conns[id].farewell ensures FarewellFits(t.conns, id, send) {
      var k :| 0 <= k < |order| && send == Send(order[k], Left(id));
      assert order[k] in RoomOf(s.rooms, s.conns[id].group).Keys;
    }
  }

  /** Everybody still in the room, and nobody else, is about to hear that `id` left. */
  lemma LeaverIsWithdrawn(s: Server, t: Server, id: PeerId, order: seq<PeerId>, c: PeerId)
    requires RoomsSound(s) && Acquainted(s.conns) && Leaves(s, t, id, order)
    requires c in s.conns && c != id && Discovered(s, c, id) && ConnFits(s.conns, id) && ConnFits(s.conns, c)
    requires s.conns[id].farewell == []
    ensures Discovered(t, c, id)
  {
    assert ToEach(order, Left(id)) + [] == ToEach(order, Left(id));
    EachOnce(order, Left(id), [], c, id);
    assert c in order <==> c in RoomOf(s.rooms, s.conns[id].group).Keys;
    assert c in order ==> Met(s.conns, c, id);
  }

  lemma NothingWaits(s: Server, id: PeerId)
    requires id in s.conns && SenderFits(s.conns, id) && !s.conns[id].left
    ensures s.conns[id].farewell == []
  {
    var farewell := s.conns[id].farewell;
    assert farewell != [] ==> FarewellFits(s.conns, id, farewell[0]);
  }

  lemma DisconnectKeepsInv(s: Server, t: Server, id: PeerId, order: seq<PeerId>)
    requires Inv(s) && Leaves(s, t, id, order)
    ensures Inv(t)
  {
    assert SenderFits(s.conns, id);
    LeaveRooms(s, t, id, order);
    LeaveSends(s, t, id, order);
    OneSenderChanged(s, t, id);
    MailFramed(s, t);
    AcquaintedGrows(s.conns, t.conns);
    NothingWaits(s, id);
    LeaveDiscovery(s, t, id, order);
  }

  lemma LeaveDiscovery(s: Server, t: Server, id: PeerId, order: seq<PeerId>)
    requires RoomsSound(s) && SendsSound(s) && Acquainted(s.conns) && Discovery(s) && Leaves(s, t, id, order)
    requires s.conns[id].farewell == []
    ensures Discovery(t)
  {
    assert SenderFits(s.conns, id);
    forall c, x | c in t.conns && x in t.conns && x != c ensures Discovered(t, c, x) {
      assert Discovered(s, c, x);
      if x == id {
        assert SenderFits(s.conns, c);
        LeaverIsWithdrawn(s, t, id, order, c);
      } else {
        BystanderUnchanged(s, t, id, order, c, x);
      }
    }
  }

  lemma BystanderUnchanged(s: Server, t: Server, id: PeerId, order: seq<PeerId>, c: PeerId, x: PeerId)
    requires Leaves(s, t, id, order) && c in s.conns && c in s.inbox && x in s.conns && x != id && Discovered(s, c, x)
    ensures Discovered(t, c, x)
  {
  }

  // ---------------------------------------------------------------------------
  // Every run
  // ---------------------------------------------------------------------------

  lemma StepKeepsInv(limits: Limits, s: Server, step: Step)
    requires Inv(s)
    ensures Inv(Apply(limits, s, step))
  {
    match step
    case Connect(id, g, info, order) => ConnectKeepsInv(limits, s, id, g, info, order);
    case Deliver(id) => DeliverStep(s, id);
    case SayGoodbye(id) => GoodbyeStep(s, id);
    case ClientSends(id, request) => ClientSendsStep(limits, s, id, request);
    case Handle(id, order) => HandleStep(s, id, order);
    case Disconnect(id, order) => DisconnectStep(s, id, order);
    case ClearCounts => SameRoomsKeepInv(s, Apply(limits, s, step));
  }

  lemma DeliverStep(s: Server, id: PeerId)
    requires Inv(s)
    ensures Inv(DoDeliver(s, id))
  {
    if id in s.conns && s.conns[id].out != [] {
      DeliverKeepsInv(s, id);
    }
  }

  lemma GoodbyeStep(s: Server, id: PeerId)
    requires Inv(s)
    ensures Inv(DoSayGoodbye(s, id))
  {
    if id in s.conns && s.conns[id].farewell != [] {
      GoodbyeKeepsInv(s, id);
    }
  }

  lemma ClientSendsStep(limits: Limits, s: Server, id: PeerId, request: Request)
    requires Inv(s)
    ensures Inv(DoClientSends(limits, s, id, request))
  {
    if Listening(s, id) {
      ClientSendsKeepsInv(limits, s, id, request);
    }
  }

  lemma HandleStep(s: Server, id: PeerId, order: seq<PeerId>)
    requires Inv(s)
    ensures Inv(DoHandle(s, id, order))
  {
    if Handles(s, id) {
      HandleKeepsInv(s, id, order);
    }
  }

  lemma DisconnectStep(s: Server, id: PeerId, order: seq<PeerId>)
    requires Inv(s)
    ensures Inv(DoDisconnect(s, id, order))
  {
    DisconnectLeaves(s, id, order);
    if DoDisconnect(s, id, order) != s {
      DisconnectKeepsInv(s, DoDisconnect(s, id, order), id, order);
    }
  }

  lemma {:induction false} Reachable(limits: Limits, steps: seq<Step>)
    ensures Inv(Run(limits, steps))
  {
    if steps != [] {
      Reachable(limits, steps[..|steps| - 1]);
      StepKeepsInv(limits, Run(limits, steps[..|steps| - 1]), steps[|steps| - 1]);
    }
  }
}
