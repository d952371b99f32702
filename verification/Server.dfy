/** Server state shared by all transports: src/server.rs, `ServerState`. */
module Server {
  import opened Wrappers
  import opened Bridge

  const SOCKET_QUEUE_CAPACITY: nat := 128
  const U64: nat := 0x1_0000_0000_0000_0000
  const U32: nat := 0x1_0000_0000

  datatype ActivityArg = ActivityArg(appId: Option<string>)

  // The commands that leave a trace outside their reply. An activity may carry its own
  // application id, which wins over the client's in the event but not in the reply.
  datatype Command =
    | SetActivity(pid: Option<nat>, activity: Option<ActivityArg>)
    | ConnectionsCallback
    | Silent

  datatype Rpc = Rpc(command: Command, nonce: Option<string>)

  datatype Reply = Ack(rpc: Rpc, appId: Option<string>)

  function EventOf(socket: nat, clientId: string, rpc: Rpc): Option<Event> {
    match rpc.command
    case SetActivity(pid, activity) =>
      var shortPid := if pid.Some? then Some(pid.value % U32) else None;
      (match activity
       case None => Some(Event(None, shortPid, socket))
       case Some(a) => Some(Event(Some(if a.appId.Some? then a.appId.value else clientId), shortPid, socket)))
    case _ => None
  }

  function ReplyOf(clientId: string, rpc: Rpc): Option<Reply> {
    match rpc.command
    case SetActivity(_, activity) => Some(Ack(rpc, if activity.Some? then Some(clientId) else None))
    case ConnectionsCallback => Some(Ack(rpc, None))
    case Silent => None
  }

  function ToSeq<T>(x: Option<T>): seq<T> {
    if x.Some? then [x.value] else []
  }

  // `try_send`: a full queue drops the new message.
  function TrySend(queue: seq<Reply>, msg: Reply): seq<Reply> {
    if |queue| < SOCKET_QUEUE_CAPACITY then queue + [msg] else queue
  }

  class ServerState {
    var nextSocketId: nat
    var sockets: map<nat, seq<Reply>>
    // Everything ever sent on `activity_tx`.
    var events: seq<Event>

    ghost predicate Valid()
      reads this
    {
      && nextSocketId < U64
      && forall id :: id in sockets ==> |sockets[id]| <= SOCKET_QUEUE_CAPACITY
    }

    constructor ()
      ensures Valid() && nextSocketId == 1 && sockets == map[] && events == []
    {
      nextSocketId, sockets, events := 1, map[], [];
    }

    method NextId() returns (id: nat)
      requires Valid()
      modifies `nextSocketId
      ensures Valid() && id == old(nextSocketId)
      ensures nextSocketId == (id + 1) % 0x1_0000_0000_0000_0000
    {
      id := nextSocketId;
      nextSocketId := (nextSocketId + 1) % U64;
    }

    method RegisterSocket(id: nat)
      requires Valid()
      modifies `sockets
      ensures Valid() && sockets == old(sockets)[id := []]
    {
      sockets := sockets[id := []];
    }

    /** Forgets the socket, then clears its activity. */
    method UnregisterSocket(id: nat)
      requires Valid()
      modifies `sockets, `events
      ensures Valid() && sockets == old(sockets) - {id}
      ensures events == old(events) + [Event(None, None, id)]
    {
      sockets := sockets - {id};
      events := events + [Event(None, None, id)];
    }

    method SendToSocket(id: nat, msg: Reply)
      requires Valid()
      modifies `sockets
      ensures Valid()
      ensures sockets == if id in old(sockets) then old(sockets)[id := TrySend(old(sockets)[id], msg)] else old(sockets)
    {
      if id in sockets {
        var queue := sockets[id];
        if |queue| < SOCKET_QUEUE_CAPACITY {
          sockets := sockets[id := queue + [msg]];
        }
      }
    }

    method HandleMessage(id: nat, clientId: string, rpc: Rpc) returns (reply: Option<Reply>)
      requires Valid()
      modifies `events
      ensures Valid()
      ensures events == old(events) + ToSeq(EventOf(id, clientId, rpc))
      ensures reply == ReplyOf(clientId, rpc)
    {
      match rpc.command {
        case SetActivity(pid, activity) =>
          var shortPid := if pid.Some? then Some(pid.value % U32) else None;
          match activity {
            case None =>
              events := events + [Event(None, shortPid, id)];
              reply := Some(Ack(rpc, None));
            case Some(a) =>
              var appId := if a.appId.Some? then a.appId.value else clientId;
              events := events + [Event(Some(appId), shortPid, id)];
              reply := Some(Ack(rpc, Some(clientId)));
          }
        case ConnectionsCallback =>
          reply := Some(Ack(rpc, None));
        case Silent =>
          reply := None;
      }
    }
  }
}
