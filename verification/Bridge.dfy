/** The bridge as a concurrent step system: src/bridge.rs, the feed task of `start_bridge`
    and subscribe, snapshot and drain in `handle_client`. */
module Bridge {
  import opened Wrappers

  // What travels from the server to the bridge and, serialised, on to its clients.
  datatype Event = Event(activity: Option<string>, pid: Option<nat>, socket: nat)

  // Latest message per socket; what `last_msgs` holds and what a client can know.
  type Board = map<nat, Event>

  const CAPACITY: nat := 256

  function Get(board: Board, k: nat): Option<Event> {
    if k in board then Some(board[k]) else None
  }

  // The entry an event leaves on the board: none when it clears the activity.
  function Value(e: Event): Option<Event> {
    if e.activity.None? then None else Some(e)
  }

  function Put(board: Board, e: Event): Board {
    if e.activity.None? then board - {e.socket} else board[e.socket := e]
  }

  function PutAll(board: Board, events: seq<Event>): Board {
    if events == [] then board else Put(PutAll(board, events[..|events| - 1]), events[|events| - 1])
  }

  // A client that subscribed when nothing of `sent` had been sent, and whose receive
  // position is `next`. `read` are the sockets its map iteration has passed; an iterator
  // passes every key once, at some moment. `skipped` are the positions lost to lag.
  datatype Client = Client(
    sent: seq<Event>, next: nat, skipped: set<nat>,
    read: iset<nat>, snapshotDone: bool, view: Board)

  datatype Bridge = Bridge(last: Board, inflight: Option<Event>, clients: map<nat, Client>)

  // ─── Steps ──────────────────────────────────────────────────────────────────

  // The feeder changes the map first...
  ghost function FeedUpdate(b: Bridge, e: Event): Bridge
    requires b.inflight.None?
  {
    b.(last := Put(b.last, e), inflight := Some(e))
  }

  // ...and sends afterwards; a receiver that is a full queue behind loses its oldest message.
  ghost function Receive(c: Client, e: Event): Client
    requires c.next <= |c.sent|
  {
    if |c.sent| - c.next >= CAPACITY
    then c.(sent := c.sent + [e], next := c.next + 1, skipped := c.skipped + {c.next})
    else c.(sent := c.sent + [e])
  }

  ghost function FeedSend(b: Bridge): Bridge
    requires b.inflight.Some? && forall id :: id in b.clients ==> b.clients[id].next <= |b.clients[id].sent|
  {
    b.(inflight := None, clients := map id | id in b.clients :: Receive(b.clients[id], b.inflight.value))
  }

  // A client subscribes before it looks at the map.
  ghost function Subscribe(b: Bridge, id: nat): Bridge {
    b.(clients := b.clients[id := Client([], 0, {}, iset{}, false, map[])])
  }

  // Its iteration passes some keys it has not passed yet and collects what is there.
  ghost function ReadKeys(b: Bridge, id: nat, keys: iset<nat>): Bridge
    requires id in b.clients
  {
    var c := b.clients[id];
    var found := map k | k in b.last && k in keys :: b.last[k];
    b.(clients := b.clients[id := c.(read := c.read + keys, view := c.view + found)])
  }

  ghost function FinishSnapshot(b: Bridge, id: nat): Bridge
    requires id in b.clients
  {
    b.(clients := b.clients[id := b.clients[id].(snapshotDone := true)])
  }

  // Only then does it drain its queue.
  ghost function Drain(b: Bridge, id: nat): Bridge
    requires id in b.clients && b.clients[id].next < |b.clients[id].sent|
  {
    var c := b.clients[id];
    b.(clients := b.clients[id := c.(next := c.next + 1, view := Put(c.view, c.sent[c.next]))])
  }

  ghost function Disconnect(b: Bridge, id: nat): Bridge {
    b.(clients := b.clients - {id})
  }

  datatype Step =
    | Update(e: Event)
    | Send
    | Join(id: nat)
    | Read(id: nat, keys: iset<nat>)
    | Finish(id: nat)
    | Recv(id: nat)
    | Leave(id: nat)

  ghost predicate Enabled(b: Bridge, s: Step) {
    match s
    case Update(_) => b.inflight.None?
    case Send => b.inflight.Some?
    case Join(id) => id !in b.clients
    case Read(id, keys) => id in b.clients && !b.clients[id].snapshotDone && b.clients[id].read !! keys
    case Finish(id) => id in b.clients && !b.clients[id].snapshotDone && forall k: nat :: k in b.clients[id].read
    case Recv(id) => id in b.clients && b.clients[id].snapshotDone && b.clients[id].next < |b.clients[id].sent|
    case Leave(id) => true
  }

  ghost function Apply(b: Bridge, s: Step): Bridge
    requires Enabled(b, s) && Inv(b)
  {
    match s
    case Update(e) => FeedUpdate(b, e)
    case Send => FeedSend(b)
    case Join(id) => Subscribe(b, id)
    case Read(id, keys) => ReadKeys(b, id, keys)
    case Finish(id) => FinishSnapshot(b, id)
    case Recv(id) => Drain(b, id)
    case Leave(id) => Disconnect(b, id)
  }

  const INIT: Bridge := Bridge(map[], None, map[])

  // ─── The invariant ──────────────────────────────────────────────────────────

  // Position of the latest event for a socket, if any.
  function Latest(events: seq<Event>, k: nat): (r: Option<nat>)
    ensures r.Some? ==> r.value < |events| && events[r.value].socket == k
    ensures forall i :: 0 <= i < |events| && events[i].socket == k ==> r.Some? && i <= r.value
  {
    if events == [] then None
    else if events[|events| - 1].socket == k then Some(|events| - 1)
    else Latest(events[..|events| - 1], k)
  }

  // Everything sent to the client, and what the feeder is about to send.
  function Log(b: Bridge, c: Client): seq<Event> {
    c.sent + if b.inflight.Some? then [b.inflight.value] else []
  }

  // For socket k: the latest event of the log agrees with the board, and so does the
  // client's view once it has read k and handled that event.
  ghost predicate KeyInv(b: Bridge, c: Client, k: nat) {
    var at := Latest(Log(b, c), k);
    && (at.Some? ==> Get(b.last, k) == Value(Log(b, c)[at.value]))
    && (k in c.read && (at.None? || (at.value < c.next && at.value !in c.skipped)) ==> Get(c.view, k) == Get(b.last, k))
    && (k !in c.read ==> k !in c.view)
  }

  ghost predicate ClientInv(b: Bridge, c: Client) {
    && c.next <= |c.sent|
    && (forall i :: i in c.skipped ==> i < c.next)
    && (c.snapshotDone ==> forall k: nat :: k in c.read)
    && (!c.snapshotDone ==> forall i :: 0 <= i < c.next ==> i in c.skipped)
    && (forall k: nat :: KeyInv(b, c, k))
  }

  ghost predicate Inv(b: Bridge) {
    && (forall k :: k in b.last ==> b.last[k].socket == k && b.last[k].activity.Some?)
    && (b.inflight.Some? ==> Get(b.last, b.inflight.value.socket) == Value(b.inflight.value))
    && (forall id :: id in b.clients ==> ClientInv(b, b.clients[id]))
  }

  lemma LatestOfAppended(events: seq<Event>, e: Event, k: nat)
    ensures Latest(events + [e], k) == if e.socket == k then Some(|events|) else Latest(events, k)
  {
    assert (events + [e])[..|events|] == events;
  }

  lemma UpdateKeeps(b: Bridge, c: Client, e: Event)
    requires b.inflight.None? && ClientInv(b, c)
    ensures ClientInv(FeedUpdate(b, e), c)
  {
    var b' := FeedUpdate(b, e);
    assert Log(b, c) == c.sent && Log(b', c) == c.sent + [e];
    forall k: nat
      ensures KeyInv(b', c, k)
    {
      assert KeyInv(b, c, k);
      LatestOfAppended(c.sent, e, k);
    }
  }

  lemma SendKeeps(b: Bridge, c: Client, b': Bridge)
    requires b.inflight.Some? && ClientInv(b, c)
    requires b'.last == b.last && b'.inflight.None?
    ensures ClientInv(b', Receive(c, b.inflight.value))
  {
    var c' := Receive(c, b.inflight.value);
    assert Log(b', c') == Log(b, c) == c.sent + [b.inflight.value];
    forall k: nat
      ensures KeyInv(b', c', k)
    {
      assert KeyInv(b, c, k);
    }
  }

  lemma ReadKeeps(b: Bridge, id: nat, keys: iset<nat>)
    requires Inv(b) && Enabled(b, Read(id, keys))
    ensures ClientInv(b, ReadKeys(b, id, keys).clients[id])
  {
    var c := b.clients[id];
    var c' := ReadKeys(b, id, keys).clients[id];
    forall k: nat
      ensures KeyInv(b, c', k)
    {
      assert KeyInv(b, c, k);
    }
  }

  lemma RecvKeeps(b: Bridge, id: nat)
    requires Inv(b) && Enabled(b, Recv(id))
    ensures ClientInv(b, Drain(b, id).clients[id])
  {
    var c := b.clients[id];
    var c' := Drain(b, id).clients[id];
    var e := c.sent[c.next];
    forall k: nat
      ensures KeyInv(b, c', k)
    {
      assert KeyInv(b, c, k);
      var at := Latest(Log(b, c), k);
      assert Log(b, c)[c.next] == e;
    }
  }

  lemma SameClientKeeps(b: Bridge, b': Bridge, c: Client)
    requires ClientInv(b, c) && b'.last == b.last && b'.inflight == b.inflight
    ensures ClientInv(b', c)
  {
    forall k: nat
      ensures KeyInv(b', c, k)
    {
      assert KeyInv(b, c, k);
    }
  }

  lemma JoinKeeps(b: Bridge, id: nat)
    requires Inv(b) && Enabled(b, Join(id))
    ensures ClientInv(b, Subscribe(b, id).clients[id])
  {
    var c := Subscribe(b, id).clients[id];
    forall k: nat
      ensures KeyInv(b, c, k)
    {
      if b.inflight.Some? {
        LatestOfAppended([], b.inflight.value, k);
        assert Log(b, c) == [] + [b.inflight.value];
      }
    }
  }

  lemma FinishKeeps(b: Bridge, id: nat)
    requires Inv(b) && Enabled(b, Finish(id))
    ensures ClientInv(b, FinishSnapshot(b, id).clients[id])
  {
    var c := b.clients[id];
    var c' := FinishSnapshot(b, id).clients[id];
    forall k: nat
      ensures KeyInv(b, c', k)
    {
      assert KeyInv(b, c, k);
    }
  }

  /** Every step of the feeder and of any client keeps the invariant. */
  lemma StepKeeps(b: Bridge, s: Step)
    requires Inv(b) && Enabled(b, s)
    ensures Inv(Apply(b, s))
  {
    var b' := Apply(b, s);
    forall id | id in b'.clients
      ensures ClientInv(b', b'.clients[id])
    {
      match s {
        case Update(e) => UpdateKeeps(b, b.clients[id], e);
        case Send => SendKeeps(b, b.clients[id], b');
        case Join(j) => if id == j { JoinKeeps(b, j); }
        case Read(j, keys) => if id == j { ReadKeeps(b, j, keys); }
        case Finish(j) => if id == j { FinishKeeps(b, j); }
        case Recv(j) => if id == j { RecvKeeps(b, j); }
        case Leave(j) =>
      }
      if !s.Update? && !s.Send? {
        SameClientKeeps(b, b', b'.clients[id]);
      }
    }
  }

  // ─── Runs ───────────────────────────────────────────────────────────────────

  ghost predicate IsRun(b: Bridge, steps: seq<Step>, b': Bridge)
    requires Inv(b)
    decreases |steps|
  {
    if steps == [] then b' == b
    else Enabled(b, steps[0]) && (StepKeeps(b, steps[0]); IsRun(Apply(b, steps[0]), steps[1..], b'))
  }

  lemma {:induction false} RunKeeps(b: Bridge, steps: seq<Step>, b': Bridge)
    requires Inv(b) && IsRun(b, steps, b')
    ensures Inv(b')
    decreases |steps|
  {
    if steps != [] {
      StepKeeps(b, steps[0]);
      RunKeeps(Apply(b, steps[0]), steps[1..], b');
    }
  }

  lemma InitInv()
    ensures Inv(INIT)
  {
  }

  ghost predicate Reachable(b: Bridge) {
    InitInv();
    exists steps :: IsRun(INIT, steps, b)
  }

  /** The invariant holds after every run from the start. */
  lemma ReachableInv(b: Bridge)
    requires Reachable(b)
    ensures Inv(b)
  {
    InitInv();
    var steps :| IsRun(INIT, steps, b);
    RunKeeps(INIT, steps, b);
  }

  // ─── Losing nothing ─────────────────────────────────────────────────────────

  /** A step loses a message for a client exactly when it sends while the client is 256
      messages behind, and it loses the oldest. */
  lemma LossIff(b: Bridge, s: Step, id: nat)
    requires Inv(b) && Enabled(b, s) && id in b.clients && id in Apply(b, s).clients
    ensures var c, c' := b.clients[id], Apply(b, s).clients[id];
            && (c'.skipped != c.skipped <==> s.Send? && |c.sent| - c.next >= 256)
            && (c'.skipped != c.skipped ==> c'.skipped == c.skipped + {c.next})
  {
    assert ClientInv(b, b.clients[id]);
    assert b.clients[id].next !in b.clients[id].skipped;
  }

  // In every state of the run the client, while there, is less than 256 messages behind.
  ghost predicate KeepsUp(b: Bridge, steps: seq<Step>, id: nat)
    requires Inv(b)
    decreases |steps|
  {
    && (id in b.clients ==> |b.clients[id].sent| - b.clients[id].next < 256)
    && (steps != [] && Enabled(b, steps[0]) ==> (StepKeeps(b, steps[0]); KeepsUp(Apply(b, steps[0]), steps[1..], id)))
  }

  /** In every run, a client that is never 256 messages behind has lost nothing. */
  lemma {:induction false} KeepingUpLosesNothing(b: Bridge, steps: seq<Step>, b': Bridge, id: nat)
    requires Inv(b) && IsRun(b, steps, b') && KeepsUp(b, steps, id)
    requires id in b.clients ==> b.clients[id].skipped == {}
    ensures id in b'.clients ==> b'.clients[id].skipped == {}
    decreases |steps|
  {
    if steps != [] {
      StepKeeps(b, steps[0]);
      if id in b.clients && id in Apply(b, steps[0]).clients {
        LossIff(b, steps[0], id);
      }
      KeepingUpLosesNothing(Apply(b, steps[0]), steps[1..], b', id);
    }
  }

  // ─── What the invariant says to a client ────────────────────────────────────

  lemma {:induction false} PutAllAt(board: Board, events: seq<Event>, k: nat)
    ensures Get(PutAll(board, events), k) ==
            if Latest(events, k).Some? then Value(events[Latest(events, k).value]) else Get(board, k)
  {
    if events != [] {
      PutAllAt(board, events[..|events| - 1], k);
    }
  }

  lemma PutAllOneMore(board: Board, events: seq<Event>, e: Event)
    ensures PutAll(board, events + [e]) == Put(PutAll(board, events), e)
  {
    assert (events + [e])[..|events|] == events;
  }

  lemma {:induction false} PutAllBoth(board: Board, a: seq<Event>, b: seq<Event>)
    ensures PutAll(board, a + b) == PutAll(PutAll(board, a), b)
  {
    if b == [] {
      assert a + b == a;
    } else {
      PutAllBoth(board, a, b[..|b| - 1]);
      assert (a + b)[..|a + b| - 1] == a + b[..|b| - 1];
    }
  }

  // What a client still has to apply: its queue, then the message about to be sent.
  function Ahead(b: Bridge, c: Client): seq<Event>
    requires c.next <= |c.sent|
  {
    Log(b, c)[c.next..]
  }

  lemma {:induction false} LatestOfSuffix(events: seq<Event>, n: nat, k: nat)
    requires n <= |events|
    ensures Latest(events[n..], k) ==
            match Latest(events, k) case None => None case Some(at) => if at >= n then Some(at - n) else None
  {
    if n < |events| {
      var init := events[..|events| - 1];
      assert events[n..][..|events| - n - 1] == init[n..];
      if events[|events| - 1].socket != k {
        LatestOfSuffix(init, n, k);
      }
    }
  }

  /** A client that lagged is wrong at most on sockets whose latest update since it joined
      was among the messages it lost. */
  lemma LagLosesOnlyWhatItDropped(b: Bridge, id: nat, k: nat)
    requires Inv(b) && id in b.clients && b.clients[id].snapshotDone
    requires var c := b.clients[id];
             var at := Latest(Log(b, c), k);
             at.None? || at.value !in c.skipped
    ensures Get(PutAll(b.clients[id].view, Ahead(b, b.clients[id])), k) == Get(b.last, k)
  {
    var c := b.clients[id];
    assert KeyInv(b, c, k);
    LatestOfSuffix(Log(b, c), c.next, k);
    PutAllAt(c.view, Ahead(b, c), k);
  }

  /** A late joiner converges: once its snapshot is done, and if it never lagged, its view
      with its queue and the message in flight applied is exactly the board. */
  lemma LateJoinerConverges(b: Bridge, id: nat)
    requires Inv(b) && id in b.clients && b.clients[id].snapshotDone && b.clients[id].skipped == {}
    ensures PutAll(b.clients[id].view, Ahead(b, b.clients[id])) == b.last
  {
    var goal := PutAll(b.clients[id].view, Ahead(b, b.clients[id]));
    forall k: nat
      ensures Get(goal, k) == Get(b.last, k)
    {
      LagLosesOnlyWhatItDropped(b, id, k);
    }
    forall k
      ensures k in goal <==> k in b.last
      ensures k in goal ==> goal[k] == b.last[k]
    {
      assert Get(goal, k) == Get(b.last, k);
    }
  }

  /** Over every run from the start: a client that has drained its queue, with no send in
      flight and nothing lost, shows exactly what the bridge holds; and one that lagged
      agrees on every socket whose latest update it did not lose. */
  lemma DrainedClientAgrees(b: Bridge, id: nat)
    requires Reachable(b)
    requires id in b.clients && b.clients[id].snapshotDone
    requires b.inflight.None? && b.clients[id].next == |b.clients[id].sent|
    ensures b.clients[id].skipped == {} ==> b.clients[id].view == b.last
    ensures forall k: nat ::
              (var at := Latest(b.clients[id].sent, k); at.None? || at.value !in b.clients[id].skipped) ==>
                Get(b.clients[id].view, k) == Get(b.last, k)
  {
    ReachableInv(b);
    var c := b.clients[id];
    assert Log(b, c) == c.sent && Ahead(b, c) == [];
    if c.skipped == {} {
      LateJoinerConverges(b, id);
    }
    forall k: nat | var at := Latest(c.sent, k); at.None? || at.value !in c.skipped
      ensures Get(c.view, k) == Get(b.last, k)
    {
      LagLosesOnlyWhatItDropped(b, id, k);
    }
  }

  // ─── The two loops ──────────────────────────────────────────────────────────

  class BridgeState {
    var last: Board
    var sent: seq<Event>

    constructor ()
      ensures last == map[] && sent == []
    {
      last, sent := map[], [];
    }

    /** The feed task over the events it receives: map first, broadcast second. */
    method Feed(received: seq<Event>)
      modifies this
      ensures last == PutAll(old(last), received)
      ensures sent == old(sent) + received
    {
      for i := 0 to |received|
        invariant last == PutAll(old(last), received[..i])
        invariant sent == old(sent) + received[..i]
      {
        assert received[..i + 1][..i] == received[..i];
        match received[i].activity {
          case None => last := last - {received[i].socket};
          case Some(_) => last := last[received[i].socket := received[i]];
        }
        sent := sent + [received[i]];
      }
      assert received[..|received|] == received;
    }

    method Snapshot() returns (written: seq<Event>)
      requires forall k :: k in last ==> last[k].socket == k && last[k].activity.Some?
      ensures PutAll(map[], written) == last
    {
      written := [];
      var keys := last.Keys;
      while keys != {}
        invariant keys <= last.Keys
        invariant PutAll(map[], written) == last - keys
        decreases |keys|
      {
        var k :| k in keys;
        PutAllOneMore(map[], written, last[k]);
        assert (last - keys)[k := last[k]] == last - (keys - {k});
        keys := keys - {k};
        written := written + [last[k]];
      }
      assert last - {} == last;
    }

    // A client that applies these messages in order ends where the queue takes the map.
    ghost predicate Completes(queue: seq<Event>, messages: seq<Event>)
      reads this
    {
      PutAll(map[], messages) == PutAll(last, queue)
    }

    /** What a client is written: every entry of the map, in any order, then its queue, up
        to the first write that fails. */
    method HandleClient(queue: seq<Event>, writes: nat) returns (written: seq<Event>)
      requires forall k :: k in last ==> last[k].socket == k && last[k].activity.Some?
      ensures |written| <= writes
      ensures |written| < writes ==> Completes(queue, written)
      ensures exists whole :: Completes(queue, whole) && written <= whole
    {
      var payloads := Snapshot();
      ghost var whole := payloads + queue;
      PutAllBoth(map[], payloads, queue);
      assert Completes(queue, whole);
      written := [];
      for i := 0 to |payloads|
        invariant written == whole[..i] && i <= writes
      {
        if |written| == writes {
          return;
        }
        written := written + [payloads[i]];
      }
      for i := 0 to |queue|
        invariant written == whole[..|payloads| + i] && |payloads| + i <= writes
      {
        if |written| == writes {
          return;
        }
        assert whole[|payloads| + i] == queue[i];
        written := written + [queue[i]];
      }
      assert written == whole;
    }
  }
}
