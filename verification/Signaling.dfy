/**
 The rooms of the signalling server (`server/src/controller/ws_controller.rs`).

 Connecting, updating, relaying and disconnecting each lock the room map once and
 send their messages after the lock is released. A connection sends its messages
 one after the other; the sends of different connections interleave freely, so a
 message can overtake the `Hello` of the client it is for.
 */
module Signaling {
  import opened Wrappers

  type PeerId = nat     // a UUID
  type Group = string   // what `get_ip_group` renders
  type Info = nat       // what a client says about itself
  type Sdp = nat

  type Room = map<PeerId, Info>

  datatype ClientInfo = ClientInfo(id: PeerId, info: Info)

  datatype ServerMessage =
    | Hello(client: ClientInfo, peers: Room)
    | Join(peer: ClientInfo)
    | Update(peer: ClientInfo)
    | Left(id: PeerId)
    | Offer(origin: ClientInfo, sdp: Sdp)
    | Answer(origin: ClientInfo, sdp: Sdp)
    | TooManyRequests

  /** What a client asks for once it is greeted. */
  datatype Request = UpdateInfo(info: Info) | Relay(target: PeerId, isAnswer: bool, sdp: Sdp)

  datatype Send = Send(target: PeerId, msg: ServerMessage)

  /** One connected device and how far its tasks have come. */
  datatype Conn = Conn(
    group: Group,
    info: Info,        // as given on connect; relayed messages carry this one
    peers: Room,       // the room it found, to be sent in its `Hello`
    out: seq<Send>,    // sends left to its greeting, then to its receive loop
    greeted: bool,     // its `Hello` has been sent
    refused: bool,     // over the request limit: the receive loop ends
    left: bool,        // removed from the room
    farewell: seq<Send>,
    request: Option<Request>   // accepted, and waiting for the room lock
  )

  datatype Limits = Limits(maxConnections: nat, maxRequests: nat)

  datatype Server = Server(
    rooms: map<Group, Room>,
    counts: map<Group, nat>,
    accepted: seq<Group>,                      // requests accepted since the last hourly clear
    conns: map<PeerId, Conn>,
    inbox: map<PeerId, seq<ServerMessage>>     // what each client's channel has received
  )

  const IDLE: Server := Server(map[], map[], [], map[], map[])

  datatype Step =
    | Connect(id: PeerId, group: Group, info: Info, order: seq<PeerId>)
    | Deliver(id: PeerId)
    | SayGoodbye(id: PeerId)
    | ClientSends(id: PeerId, request: Request)
    | Handle(id: PeerId, order: seq<PeerId>)
    | Disconnect(id: PeerId, order: seq<PeerId>)
    | ClearCounts

  function RoomOf(rooms: map<Group, Room>, g: Group): Room {
    if g in rooms then rooms[g] else map[]
  }

  function CountOf(counts: map<Group, nat>, g: Group): nat {
    if g in counts then counts[g] else 0
  }

  /** A hash map yields its keys once each, in any order. */
  predicate IsOrder(order: seq<PeerId>, keys: set<PeerId>) {
    && (forall i, j :: 0 <= i < j < |order| ==> order[i] != order[j])
    && (forall k :: k in keys ==> k in order)
    && (forall i :: 0 <= i < |order| ==> order[i] in keys)
  }

  /** One message for every peer in `order`. */
  function ToEach(order: seq<PeerId>, msg: ServerMessage): seq<Send> {
    seq(|order|, i requires 0 <= i < |order| => Send(order[i], msg))
  }

  // ---------------------------------------------------------------------------
  // The steps
  // ---------------------------------------------------------------------------

  predicate RoomFull(limits: Limits, s: Server, g: Group) {
    |RoomOf(s.rooms, g)| >= limits.maxConnections
  }

  predicate OutOfRequests(limits: Limits, s: Server, g: Group) {
    CountOf(s.counts, g) >= limits.maxRequests
  }

  /** `protect_ddos_request_count`: counts an accepted request. */
  function Counted(s: Server, g: Group): Server {
    s.(counts := s.counts[g := CountOf(s.counts, g) + 1], accepted := s.accepted + [g])
  }

  /** Looking the room up creates it, even when the connection is then refused. */
  function DoConnect(limits: Limits, s: Server, id: PeerId, g: Group, info: Info, order: seq<PeerId>): Server {
    var room := RoomOf(s.rooms, g);
    if id in s.conns then s
    else if RoomFull(limits, s, g) then s.(rooms := s.rooms[g := room])
    else if OutOfRequests(limits, s, g) then s.(rooms := s.rooms[g := room], counts := s.counts[g := CountOf(s.counts, g)])
    else if !IsOrder(order, room.Keys) then s
    else
      var me := ClientInfo(id, info);
      Counted(s, g).(
        rooms := s.rooms[g := room[id := info]],
        conns := s.conns[id := Conn(g, info, room, ToEach(order, Join(me)) + [Send(id, Hello(me, room))], false, false, false, [], None)],
        inbox := s.inbox[id := []])
  }

  function Received(inbox: map<PeerId, seq<ServerMessage>>, send: Send): map<PeerId, seq<ServerMessage>> {
    if send.target in inbox then inbox[send.target := inbox[send.target] + [send.msg]] else inbox
  }

  function DoDeliver(s: Server, id: PeerId): Server {
    if id !in s.conns || s.conns[id].out == [] then s
    else
      var c := s.conns[id];
      s.(conns := s.conns[id := c.(out := c.out[1..], greeted := c.greeted || c.out[0].msg.Hello?)],
         inbox := Received(s.inbox, c.out[0]))
  }

  function DoSayGoodbye(s: Server, id: PeerId): Server {
    if id !in s.conns || s.conns[id].farewell == [] then s
    else
      var c := s.conns[id];
      s.(conns := s.conns[id := c.(farewell := c.farewell[1..])], inbox := Received(s.inbox, c.farewell[0]))
  }

  /** The connection's receive loop is between two messages. */
  predicate Listening(s: Server, id: PeerId) {
    && id in s.conns && s.conns[id].greeted && !s.conns[id].refused
    && s.conns[id].out == [] && s.conns[id].request.None?
  }

  /** A message is counted; if there were too many, the client is told and the receive loop ends. */
  function DoClientSends(limits: Limits, s: Server, id: PeerId, request: Request): Server {
    if !Listening(s, id) then s
    else
      var c := s.conns[id];
      if OutOfRequests(limits, s, c.group) then
        s.(conns := s.conns[id := c.(out := [Send(id, TooManyRequests)], refused := true)],
           counts := s.counts[c.group := CountOf(s.counts, c.group)])
      else Counted(s, c.group).(conns := s.conns[id := c.(request := Some(request))])
  }

  /** A request waits for the room lock; the loop has nothing else to do. */
  predicate Handles(s: Server, id: PeerId) {
    id in s.conns && s.conns[id].greeted && s.conns[id].out == [] && s.conns[id].request.Some?
  }

  function WithOut(s: Server, id: PeerId, out: seq<Send>): Server {
    if id in s.conns then s.(conns := s.conns[id := s.conns[id].(out := out, request := None)]) else s
  }

  function DoHandle(s: Server, id: PeerId, order: seq<PeerId>): Server {
    if !Handles(s, id) then s
    else
      var c := s.conns[id];
      match c.request.value
      case UpdateInfo(info) => DoUpdate(s, id, info, order)
      case Relay(target, isAnswer, sdp) =>
        if target !in RoomOf(s.rooms, c.group) then WithOut(s, id, [])
        else
          var me := ClientInfo(id, c.info);
          WithOut(s, id, [Send(target, if isAnswer then Answer(me, sdp) else Offer(me, sdp))])
  }

  function DoUpdate(s: Server, id: PeerId, info: Info, order: seq<PeerId>): Server
    requires Handles(s, id)
  {
    var g := s.conns[id].group;
    var room := RoomOf(s.rooms, g);
    if id !in room then WithOut(s, id, [])
    else if !IsOrder(order, room.Keys - {id}) then s
    else WithOut(s, id, ToEach(order, Update(ClientInfo(id, info)))).(rooms := s.rooms[g := room[id := info]])
  }

  /** The receive loop may still send what it has left, or never get to it; an emptied room is removed. */
  function DoDisconnect(s: Server, id: PeerId, order: seq<PeerId>): Server {
    if id !in s.conns || !s.conns[id].greeted || s.conns[id].left then s
    else
      var c := s.conns[id];
      var rest := RoomOf(s.rooms, c.group) - {id};
      if !IsOrder(order, rest.Keys) then s
      else
        s.(rooms := if c.group !in s.rooms then s.rooms
                    else if rest == map[] then s.rooms - {c.group}
                    else s.rooms[c.group := rest],
           conns := s.conns[id := c.(left := true, farewell := ToEach(order, Left(id)))])
  }

  function Apply(limits: Limits, s: Server, step: Step): Server {
    match step
    case Connect(id, g, info, order) => DoConnect(limits, s, id, g, info, order)
    case Deliver(id) => DoDeliver(s, id)
    case SayGoodbye(id) => DoSayGoodbye(s, id)
    case ClientSends(id, request) => DoClientSends(limits, s, id, request)
    case Handle(id, order) => DoHandle(s, id, order)
    case Disconnect(id, order) => DoDisconnect(s, id, order)
    case ClearCounts => s.(counts := map[], accepted := [])
  }

  function Run(limits: Limits, steps: seq<Step>): Server {
    if steps == [] then IDLE else Apply(limits, Run(limits, steps[..|steps| - 1]), steps[|steps| - 1])
  }

  // ---------------------------------------------------------------------------
  // The shared maps as an object
  // ---------------------------------------------------------------------------

  /** `AppState`: the room map and the request counters. Each method is one lock region. */
  class AppState {
    var txMap: map<Group, Room>
    var requestCounts: map<Group, nat>

    ghost predicate Holds(s: Server)
      reads this
    {
      txMap == s.rooms && requestCounts == s.counts
    }

    constructor ()
      ensures Holds(IDLE)
    {
      txMap, requestCounts := map[], map[];
    }

    method ProtectRequestCount(limits: Limits, g: Group) returns (ok: bool)
      modifies this`requestCounts
      ensures ok <==> CountOf(old(requestCounts), g) < limits.maxRequests
      ensures requestCounts == old(requestCounts)[g := CountOf(old(requestCounts), g) + if ok then 1 else 0]
    {
      if g !in requestCounts {
        requestCounts := requestCounts[g := 0];
      }
      if requestCounts[g] >= limits.maxRequests {
        return false;
      }
      requestCounts := requestCounts[g := requestCounts[g] + 1];
      return true;
    }

    /** `found` is the room the newcomer will greet. */
    method Connect(limits: Limits, id: PeerId, g: Group, info: Info, ghost s: Server, ghost order: seq<PeerId>)
      returns (admitted: bool, found: Room)
      requires Holds(s) && id !in s.conns && IsOrder(order, RoomOf(s.rooms, g).Keys)
      modifies this
      ensures Holds(DoConnect(limits, s, id, g, info, order))
      ensures admitted <==> id in DoConnect(limits, s, id, g, info, order).conns
      ensures admitted ==> found == DoConnect(limits, s, id, g, info, order).conns[id].peers
    {
      if g !in txMap {
        txMap := txMap[g := map[]];
      }
      found := txMap[g];
      admitted := false;
      if |found| < limits.maxConnections {
        admitted := ProtectRequestCount(limits, g);
        if admitted {
          txMap := txMap[g := found[id := info]];
        }
      }
      assert txMap == s.rooms[g := if admitted then found[id := info] else found];
      ConnectMaps(limits, s, id, g, info, order);
    }

    /** A message of a listening client. */
    method Accept(limits: Limits, id: PeerId, g: Group, request: Request, ghost s: Server) returns (ok: bool)
      requires Holds(s) && Listening(s, id) && s.conns[id].group == g
      modifies this`requestCounts
      ensures Holds(DoClientSends(limits, s, id, request))
      ensures ok <==> DoClientSends(limits, s, id, request).conns[id].request == Some(request)
    {
      ok := ProtectRequestCount(limits, g);
    }

    /** `others` are told of the new information. */
    method UpdateClient(id: PeerId, g: Group, info: Info, ghost s: Server, ghost order: seq<PeerId>)
      returns (others: set<PeerId>)
      requires Holds(s) && Handles(s, id) && s.conns[id].group == g && s.conns[id].request == Some(UpdateInfo(info))
      requires IsOrder(order, RoomOf(s.rooms, g).Keys - {id})
      modifies this`txMap
      ensures Holds(DoHandle(s, id, order))
      ensures forall x :: x in others <==> Send(x, Update(ClientInfo(id, info))) in DoHandle(s, id, order).conns[id].out
    {
      others := {};
      if g in txMap && id in txMap[g] {
        var room: Room := txMap[g];
        txMap := txMap[g := room[id := info]];
        others := room.Keys - {id};
        ToEachReaches(order, Update(ClientInfo(id, info)), others);
      }
    }

    method FindTarget(id: PeerId, g: Group, target: PeerId, isAnswer: bool, sdp: Sdp, ghost s: Server)
      returns (found: bool)
      requires Holds(s) && Handles(s, id) && s.conns[id].group == g
      requires s.conns[id].request == Some(Relay(target, isAnswer, sdp))
      ensures Holds(DoHandle(s, id, []))
      ensures found <==> g in txMap && target in txMap[g]
      ensures var me := ClientInfo(id, s.conns[id].info);
        DoHandle(s, id, []).conns[id].out ==
          if found then [Send(target, if isAnswer then Answer(me, sdp) else Offer(me, sdp))] else []
    {
      found := g in txMap && target in txMap[g];
    }

    /** `remaining` are told that `id` left. */
    method Disconnect(id: PeerId, g: Group, ghost s: Server, ghost order: seq<PeerId>) returns (remaining: set<PeerId>)
      requires Holds(s) && id in s.conns && s.conns[id].group == g && s.conns[id].greeted && !s.conns[id].left
      requires IsOrder(order, (RoomOf(s.rooms, g) - {id}).Keys)
      modifies this`txMap
      ensures Holds(DoDisconnect(s, id, order))
      ensures forall x :: x in remaining <==> Send(x, Left(id)) in DoDisconnect(s, id, order).conns[id].farewell
    {
      remaining := {};
      if g in txMap {
        txMap := txMap[g := txMap[g] - {id}];
        if txMap[g] == map[] {
          txMap := txMap - {g};
        } else {
          remaining := txMap[g].Keys;
        }
      }
      ToEachReaches(order, Left(id), remaining);
    }
  }

  /** What a connect does to the shared maps. */
  lemma ConnectMaps(limits: Limits, s: Server, id: PeerId, g: Group, info: Info, order: seq<PeerId>)
    requires id !in s.conns && IsOrder(order, RoomOf(s.rooms, g).Keys)
    ensures var t := DoConnect(limits, s, id, g, info, order);
      var room, count := RoomOf(s.rooms, g), CountOf(s.counts, g);
      var full := |room| >= limits.maxConnections;
      var admitted := !full && count < limits.maxRequests;
      && (id in t.conns <==> admitted) && (admitted ==> t.conns[id].peers == room)
      && t.rooms == s.rooms[g := if admitted then room[id := info] else room]
      && t.counts == if full then s.counts else s.counts[g := count + if admitted then 1 else 0]
  {
  }

  lemma ToEachReaches(order: seq<PeerId>, msg: ServerMessage, keys: set<PeerId>)
    requires IsOrder(order, keys)
    ensures forall x :: x in keys <==> Send(x, msg) in ToEach(order, msg)
  {
    forall x ensures x in keys <==> Send(x, msg) in ToEach(order, msg) {
      if x in keys {
        var i :| 0 <= i < |order| && order[i] == x;
        assert ToEach(order, msg)[i] == Send(x, msg);
      }
    }
  }
}
