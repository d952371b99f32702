/** One client session: src/transports/ipc.rs `handle_ipc_io` and
    src/transports/websocket.rs `handle_connection`. */
module Session {
  import opened Wrappers
  import opened Codec
  import opened Bridge
  import opened Server

  datatype Phase =
    | Greeting   // has an id, READY not yet written
    | Refused    // READY could not be written: the session ends, never registered
    | Greeted    // READY written, not yet registered
    | Running
    | Leaving    // out of the loop
    | Removed    // gone from the socket map, clearing event not yet sent
    | Done

  // What a write came to: all of the frame, or only so many of its bytes, not all.
  datatype Write = Written | Broke(bytes: nat)

  datatype Out =
    | Ready
    | Pong
    | Response(reply: Reply)
    | CutPong(bytes: nat)
    | CutResponse(cut: Reply, bytes: nat)

  // A reply handle_message produced, and whether the queue took it.
  datatype Produced = Produced(reply: Reply, kept: bool)

  datatype Session = Session(
    clientId: string, phase: Phase, output: seq<Out>, log: seq<Produced>, failed: seq<Reply>)

  // What one turn of the select loop can be about.
  datatype Input =
    | Flush(write: Write)
    | PingFrame(write: Write)
    | Request(rpc: Rpc)
    | Noise
    | Stop

  // A running session, its reply queue, and the events it has emitted.
  datatype Run = Run(session: Session, queue: seq<Reply>, events: seq<Event>)

  function Fresh(clientId: string): Session {
    Session(clientId, Greeting, [], [], [])
  }

  function Greet(s: Session, written: bool): Session {
    if written then s.(phase := Greeted, output := [Ready]) else s.(phase := Refused)
  }

  // A pong that cannot be written is not taken for the end of the session.
  function PongOf(write: Write): Out {
    match write
    case Written => Pong
    case Broke(bytes) => CutPong(bytes)
  }

  function Turn(id: nat, r: Run, input: Input): Run {
    var s := r.session;
    match input
    case Flush(write) =>
      if r.queue == [] then r
      else
        (match write
         case Written =>
           r.(session := s.(output := s.output + [Response(r.queue[0])]), queue := r.queue[1..])
         case Broke(bytes) =>
           r.(session := s.(output := s.output + [CutResponse(r.queue[0], bytes)], failed := s.failed + [r.queue[0]], phase := Leaving),
              queue := r.queue[1..]))
    case PingFrame(write) =>
      r.(session := s.(output := s.output + [PongOf(write)]))
    case Request(rpc) =>
      var r' := r.(events := r.events + ToSeq(EventOf(id, s.clientId, rpc)));
      (match ReplyOf(s.clientId, rpc)
       case None => r'
       case Some(reply) =>
         r'.(session := s.(log := s.log + [Produced(reply, |r.queue| < SOCKET_QUEUE_CAPACITY)]),
             queue := TrySend(r.queue, reply)))
    case Noise => r
    case Stop => r.(session := s.(phase := Leaving))
  }

  function Turns(id: nat, r: Run, inputs: seq<Input>): Run {
    if inputs == [] then r
    else
      var before := Turns(id, r, inputs[..|inputs| - 1]);
      if before.session.phase.Running? then Turn(id, before, inputs[|inputs| - 1]) else before
  }

  // The run of a registered session.
  function SessionRun(id: nat, clientId: string, inputs: seq<Input>): Run {
    Turns(id, Run(Greet(Fresh(clientId), true).(phase := Running), [], []), inputs)
  }

  lemma TurnsOneMore(id: nat, start: Run, inputs: seq<Input>, input: Input)
    ensures Turns(id, start, inputs + [input]) ==
            var before := Turns(id, start, inputs);
            if before.session.phase.Running? then Turn(id, before, input) else before
  {
    assert (inputs + [input])[..|inputs|] == inputs;
  }

  lemma {:induction false} ClientStays(id: nat, clientId: string, inputs: seq<Input>)
    ensures SessionRun(id, clientId, inputs).session.clientId == clientId
  {
    if inputs != [] {
      ClientStays(id, clientId, inputs[..|inputs| - 1]);
    }
  }

  // ─── Conservation and order ─────────────────────────────────────────────────

  function Replies(output: seq<Out>): seq<Reply> {
    if output == [] then []
    else
      var last := output[|output| - 1];
      Replies(output[..|output| - 1]) + if last.Response? then [last.reply] else []
  }

  // The produced replies the queue took, and those it dropped, in production order.
  function Picked(log: seq<Produced>, kept: bool): seq<Reply> {
    if log == [] then []
    else
      var last := log[|log| - 1];
      Picked(log[..|log| - 1], kept) + if last.kept == kept then [last.reply] else []
  }

  predicate ReadyFirst(output: seq<Out>) {
    output != [] && output[0] == Ready && Ready !in output[1..]
  }

  // The accounts of a registered session: what the queue took is what was written, then
  // what failed to be written, then what is queued, in production order.
  predicate Accounts(s: Session, queue: seq<Reply>) {
    Picked(s.log, true) == Replies(s.output) + s.failed + queue
  }

  predicate SessionInv(s: Session, queue: seq<Reply>) {
    && |queue| <= SOCKET_QUEUE_CAPACITY
    && match s.phase
       case Greeting => s.output == [] && s.log == [] && s.failed == [] && queue == []
       case Refused => s.output == [] && s.log == [] && s.failed == [] && queue == []
       case Greeted => s.output == [Ready] && s.log == [] && s.failed == [] && queue == []
       case Running => ReadyFirst(s.output) && s.failed == [] && Accounts(s, queue)
       case Leaving => ReadyFirst(s.output) && |s.failed| <= 1 && Accounts(s, queue)
       case _ => ReadyFirst(s.output) && |s.failed| <= 1 && Replies(s.output) + s.failed <= Picked(s.log, true) && queue == []
  }

  lemma RepliesOneMore(output: seq<Out>, o: Out)
    ensures Replies(output + [o]) == Replies(output) + if o.Response? then [o.reply] else []
  {
    assert (output + [o])[..|output|] == output;
  }

  lemma PickedOneMore(log: seq<Produced>, p: Produced, kept: bool)
    ensures Picked(log + [p], kept) == Picked(log, kept) + if p.kept == kept then [p.reply] else []
  {
    assert (log + [p])[..|log|] == log;
  }

  lemma ReadyStaysFirst(output: seq<Out>, o: Out)
    requires ReadyFirst(output) && o != Ready
    ensures ReadyFirst(output + [o])
  {
    assert (output + [o])[1..] == output[1..] + [o];
  }

  lemma FlushKeeps(id: nat, r: Run, write: Write)
    requires r.queue != [] && ReadyFirst(r.session.output) && r.session.failed == [] && Accounts(r.session, r.queue)
    ensures var r' := Turn(id, r, Flush(write));
            ReadyFirst(r'.session.output) && Accounts(r'.session, r'.queue)
  {
    var out := if write.Written? then Response(r.queue[0]) else CutResponse(r.queue[0], write.bytes);
    assert r.queue == [r.queue[0]] + r.queue[1..];
    RepliesOneMore(r.session.output, out);
    ReadyStaysFirst(r.session.output, out);
    assert Replies(r.session.output) + [] == Replies(r.session.output);
  }

  lemma PingKeeps(id: nat, r: Run, write: Write)
    requires ReadyFirst(r.session.output) && Accounts(r.session, r.queue)
    ensures var r' := Turn(id, r, PingFrame(write));
            ReadyFirst(r'.session.output) && Accounts(r'.session, r'.queue)
  {
    RepliesOneMore(r.session.output, PongOf(write));
    ReadyStaysFirst(r.session.output, PongOf(write));
  }

  lemma RequestKeeps(id: nat, r: Run, rpc: Rpc)
    requires Accounts(r.session, r.queue)
    ensures var r' := Turn(id, r, Request(rpc));
            Accounts(r'.session, r'.queue) && r'.session.output == r.session.output
  {
    var s := r.session;
    var reply := ReplyOf(s.clientId, rpc);
    if reply.Some? {
      PickedOneMore(s.log, Produced(reply.value, |r.queue| < SOCKET_QUEUE_CAPACITY), true);
    }
  }

  /** Every turn keeps the accounts, whatever it is about. */
  lemma TurnKeeps(id: nat, r: Run, input: Input)
    requires r.session.phase.Running? && SessionInv(r.session, r.queue)
    ensures var r' := Turn(id, r, input);
            SessionInv(r'.session, r'.queue) && (r'.session.phase.Running? || r'.session.phase.Leaving?)
  {
    assert Replies(r.session.output) + r.session.failed + r.queue == Replies(r.session.output) + r.queue;
    match input {
      case Flush(write) => if r.queue != [] { FlushKeeps(id, r, write); }
      case PingFrame(write) => PingKeeps(id, r, write);
      case Request(rpc) => RequestKeeps(id, r, rpc);
      case Noise =>
      case Stop =>
    }
  }

  /** A reply is dropped only at the moment 128 replies are queued; no turn loses another. */
  lemma DroppedOnlyWhenFull(id: nat, r: Run, input: Input)
    requires SessionInv(r.session, r.queue)
    ensures var r' := Turn(id, r, input);
            || Picked(r'.session.log, false) == Picked(r.session.log, false)
            || (|r.queue| == 128 && r'.queue == r.queue && input.Request? &&
                ReplyOf(r.session.clientId, input.rpc).Some? &&
                Picked(r'.session.log, false) ==
                  Picked(r.session.log, false) + [ReplyOf(r.session.clientId, input.rpc).value])
  {
    if input.Request? && ReplyOf(r.session.clientId, input.rpc).Some? {
      var reply := ReplyOf(r.session.clientId, input.rpc).value;
      PickedOneMore(r.session.log, Produced(reply, |r.queue| < SOCKET_QUEUE_CAPACITY), false);
    }
  }

  lemma {:induction false} TurnsKeep(id: nat, r: Run, inputs: seq<Input>)
    requires r.session.phase.Running? && SessionInv(r.session, r.queue)
    ensures var r' := Turns(id, r, inputs);
            SessionInv(r'.session, r'.queue) && (r'.session.phase.Running? || r'.session.phase.Leaving?)
  {
    if inputs != [] {
      var init := inputs[..|inputs| - 1];
      TurnsKeep(id, r, init);
      if Turns(id, r, init).session.phase.Running? {
        TurnKeeps(id, Turns(id, r, init), inputs[|inputs| - 1]);
      }
    }
  }

  lemma {:induction false} KeptPlusDropped(log: seq<Produced>)
    ensures |Picked(log, true)| + |Picked(log, false)| == |log|
  {
    if log != [] {
      KeptPlusDropped(log[..|log| - 1]);
    }
  }

  lemma FreshIsSound(clientId: string)
    ensures SessionInv(Fresh(clientId), [])
    ensures SessionInv(Greet(Fresh(clientId), true), [])
    ensures SessionInv(Greet(Fresh(clientId), true).(phase := Running), [])
    ensures SessionInv(Greet(Fresh(clientId), false), [])
  {
    RepliesOneMore([], Ready);
    assert [] + [Ready] == [Ready];
  }

  lemma RunIsSound(id: nat, clientId: string, inputs: seq<Input>)
    ensures var r := SessionRun(id, clientId, inputs);
            SessionInv(r.session, r.queue) && (r.session.phase.Running? || r.session.phase.Leaving?)
  {
    FreshIsSound(clientId);
    TurnsKeep(id, Run(Greet(Fresh(clientId), true).(phase := Running), [], []), inputs);
  }

  /** At every point of a registered session's life: READY came first and only once, the
      replies written are a prefix of those the queue took, and produced replies equal
      written plus failed plus queued plus dropped. */
  lemma SessionConserves(id: nat, clientId: string, inputs: seq<Input>)
    ensures var r := SessionRun(id, clientId, inputs);
            var s := r.session;
            && ReadyFirst(s.output)
            && Replies(s.output) <= Picked(s.log, true)
            && Picked(s.log, true) == Replies(s.output) + s.failed + r.queue
            && |s.log| == |Replies(s.output)| + |s.failed| + |r.queue| + |Picked(s.log, false)|
  {
    RunIsSound(id, clientId, inputs);
    KeptPlusDropped(SessionRun(id, clientId, inputs).session.log);
  }

  // ─── Reading the wire ───────────────────────────────────────────────────────

  // A turn of the IPC loop: a frame to read; or a reply to flush, which gives up the read
  // that was waiting, with the bytes it had already taken.
  datatype IpcTurn = IpcFlush(write: Write, taken: nat) | IpcRead(pong: Write)

  function Classify(read: Option<Frame>, pong: Write, parse: Bytes -> Option<Rpc>): Input {
    match read
    case None => Stop
    case Some(Frame(opcode, body)) =>
      if opcode == 3 then PingFrame(pong)
      else if opcode == 1 then (if parse(body).Some? then Request(parse(body).value) else Noise)
      else if opcode == 0 || opcode == 4 then Noise
      else Stop
  }

  // The next frame of a stream, and what taking it leaves.
  function NextFrame(data: Bytes): Option<Frame> {
    if ReadFrame(data).Some? then Some(ReadFrame(data).value.0) else None
  }

  function AfterFrame(data: Bytes): Bytes {
    if ReadFrame(data).Some? then ReadFrame(data).value.1 else []
  }

  function AfterTurn(rest: Bytes, turn: IpcTurn): Bytes {
    match turn
    case IpcFlush(_, taken) => GiveUp(rest, taken)
    case IpcRead(_) => AfterFrame(rest)
  }

  // What the client's bytes come down to after some turns, and what the turns are about.
  function Unread(data: Bytes, turns: seq<IpcTurn>): Bytes {
    if turns == [] then data
    else
      var rest := Unread(data, turns[..|turns| - 1]);
      AfterTurn(rest, turns[|turns| - 1])
  }

  function InputOf(rest: Bytes, turn: IpcTurn, parse: Bytes -> Option<Rpc>): Input {
    match turn
    case IpcFlush(write, _) => Flush(write)
    case IpcRead(pong) => Classify(NextFrame(rest), pong, parse)
  }

  function IpcInputs(data: Bytes, turns: seq<IpcTurn>, parse: Bytes -> Option<Rpc>): (inputs: seq<Input>)
    ensures |inputs| == |turns|
  {
    if turns == [] then []
    else
      var init := turns[..|turns| - 1];
      IpcInputs(data, init, parse) + [InputOf(Unread(data, init), turns[|turns| - 1], parse)]
  }

  function Reads(turns: seq<IpcTurn>): nat {
    if turns == [] then 0
    else Reads(turns[..|turns| - 1]) + if turns[|turns| - 1].IpcRead? then 1 else 0
  }

  // Dropping the first n of a sequence, or all of it.
  function Drop<T>(s: seq<T>, n: nat): seq<T> {
    if n <= |s| then s[n..] else []
  }

  // No given-up read had taken anything.
  predicate Undisturbed(turns: seq<IpcTurn>) {
    forall i :: 0 <= i < |turns| && turns[i].IpcFlush? ==> turns[i].taken == 0
  }

  lemma {:induction false} UnreadFrames(data: Bytes, turns: seq<IpcTurn>)
    requires Undisturbed(turns)
    ensures ReadAll(Unread(data, turns)) == Drop(ReadAll(data), Reads(turns))
  {
    if turns != [] {
      UnreadFrames(data, turns[..|turns| - 1]);
    }
  }

  lemma {:induction false} IpcInputsAt(data: Bytes, turns: seq<IpcTurn>, parse: Bytes -> Option<Rpc>, i: nat)
    requires i < |turns|
    ensures IpcInputs(data, turns, parse)[i] == InputOf(Unread(data, turns[..i]), turns[i], parse)
  {
    var init := turns[..|turns| - 1];
    if i < |init| {
      IpcInputsAt(data, init, parse, i);
      assert init[..i] == turns[..i] && init[i] == turns[i];
      assert IpcInputs(data, turns, parse)[i] == IpcInputs(data, init, parse)[i];
    } else {
      assert IpcInputs(data, turns, parse)[i] == InputOf(Unread(data, init), turns[i], parse);
    }
  }

  // What turn i reads is the next of the client's frames, counting the reads before it; and
  // the session ends when there is none.
  ghost predicate ReadsNext(data: Bytes, turns: seq<IpcTurn>, parse: Bytes -> Option<Rpc>, i: nat)
    requires i < |turns| && turns[i].IpcRead?
  {
    var n := Reads(turns[..i]);
    IpcInputs(data, turns, parse)[i] ==
    Classify(if n < |ReadAll(data)| then Some(ReadAll(data)[n]) else None, turns[i].pong, parse)
  }

  lemma UndisturbedReadsNext(data: Bytes, turns: seq<IpcTurn>, parse: Bytes -> Option<Rpc>, i: nat)
    requires i < |turns| && turns[i].IpcRead? && Undisturbed(turns[..i])
    ensures ReadsNext(data, turns, parse, i)
  {
    IpcInputsAt(data, turns, parse, i);
    UnreadFrames(data, turns[..i]);
  }

  /** A client that encodes its frames one after the other is understood frame by frame, as
      long as no read that had taken bytes is given up. */
  lemma SentFramesAreHandled(frames: seq<Frame>, turns: seq<IpcTurn>, parse: Bytes -> Option<Rpc>, i: nat)
    requires forall k :: 0 <= k < |frames| ==> |frames[k].body| < TWO32
    requires i < |turns| && turns[i].IpcRead?
    ensures Undisturbed(turns[..i]) ==>
              var n := Reads(turns[..i]);
              IpcInputs(EncodeAll(frames), turns, parse)[i] ==
              Classify(if n < |frames| then Some(frames[n]) else None, turns[i].pong, parse)
  {
    if Undisturbed(turns[..i]) {
      UndisturbedReadsNext(EncodeAll(frames), turns, parse, i);
      ReadAllEncoded(frames);
    }
  }

  // Turn i gives up a read that had taken bytes.
  predicate Disturbs(turns: seq<IpcTurn>, i: int) {
    0 <= i < |turns| && turns[i].IpcFlush? && turns[i].taken > 0
  }

  // Some turn reads after a read was given up that had taken bytes.
  ghost predicate ReadsAfterLoss(turns: seq<IpcTurn>) {
    exists i, j :: i < j < |turns| && Disturbs(turns, i) && turns[j].IpcRead?
  }

  lemma UndisturbedBefore(turns: seq<IpcTurn>, n: nat)
    requires n <= |turns| && forall k :: 0 <= k < n ==> !Disturbs(turns, k)
    ensures Undisturbed(turns[..n])
  {
    forall k | 0 <= k < n && turns[..n][k].IpcFlush?
      ensures turns[..n][k].taken == 0
    {
      assert !Disturbs(turns, k);
    }
  }

  lemma {:induction false} FirstDisturbance(turns: seq<IpcTurn>, n: nat) returns (i: nat)
    requires exists k :: 0 <= k <= n && Disturbs(turns, k)
    ensures i <= n && Disturbs(turns, i) && Undisturbed(turns[..i])
  {
    if k :| 0 <= k < n && Disturbs(turns, k) {
      i := FirstDisturbance(turns, n - 1);
    } else {
      UndisturbedBefore(turns, n);
      i := n;
    }
  }

  lemma {:induction false} FirstReadAfter(turns: seq<IpcTurn>, i: nat, n: nat) returns (j: nat)
    requires i < n < |turns| && turns[n].IpcRead?
    ensures i < j <= n && turns[j].IpcRead? && forall k :: i < k < j ==> turns[k].IpcFlush?
  {
    if k :| i < k < n && turns[k].IpcRead? {
      j := FirstReadAfter(turns, i, k);
    } else {
      j := n;
    }
  }

  const PING: Frame := Frame(3, [])

  function Pings(n: nat): (frames: seq<Frame>)
    ensures |frames| == n
  {
    if n == 0 then [] else [PING] + Pings(n - 1)
  }

  lemma {:induction false} PingsArePings(n: nat)
    ensures forall k :: 0 <= k < n ==> Pings(n)[k] == PING
    ensures ReadAll(EncodeAll(Pings(n))) == Pings(n)
  {
    if n > 0 {
      PingsArePings(n - 1);
      ReadEncoded(3, [], EncodeAll(Pings(n - 1)));
    }
  }

  // After n undisturbed reads of n + 1 pings, one ping is unread.
  lemma {:induction false} LastPing(turns: seq<IpcTurn>, m: nat)
    requires Undisturbed(turns) && Reads(turns) <= m
    ensures Unread(EncodeAll(Pings(m)), turns) == EncodeAll(Pings(m - Reads(turns)))
  {
    if turns != [] {
      LastPing(turns[..|turns| - 1], m);
      if turns[|turns| - 1].IpcRead? {
        ReadEncoded(3, [], EncodeAll(Pings(m - Reads(turns))));
      }
    }
  }

  // Once less than a header is left, nothing is ever read again.
  lemma {:induction false} TooShortStays(data: Bytes, turns: seq<IpcTurn>, n: nat)
    requires n <= |turns| && |Unread(data, turns[..n])| < 8
    ensures |Unread(data, turns)| < 8
  {
    if n < |turns| {
      assert turns[..|turns| - 1][..n] == turns[..n];
      TooShortStays(data, turns[..|turns| - 1], n);
    } else {
      assert turns[..n] == turns;
    }
  }

  lemma {:induction false} FlushesReadNothing(turns: seq<IpcTurn>, i: nat, j: nat)
    requires i <= j <= |turns| && forall k :: i <= k < j ==> turns[k].IpcFlush?
    ensures Reads(turns[..j]) == Reads(turns[..i])
  {
    if i < j {
      assert turns[..j][..j - 1] == turns[..j - 1];
      FlushesReadNothing(turns, i, j - 1);
    }
  }

  // The pings a session would answer all, but for the disturbance: the last stays unread.
  lemma DisturbedMissesPing(turns: seq<IpcTurn>, parse: Bytes -> Option<Rpc>, i: nat, j: nat)
    requires i < j < |turns| && Disturbs(turns, i) && Undisturbed(turns[..i])
    requires turns[j].IpcRead? && forall k :: i < k < j ==> turns[k].IpcFlush?
    ensures !ReadsNext(EncodeAll(Pings(Reads(turns[..i]) + 1)), turns, parse, j)
  {
    var n := Reads(turns[..i]);
    var data := EncodeAll(Pings(n + 1));
    LastPing(turns[..i], n + 1);
    assert EncodeAll(Pings(1)) == Encode(3, []) + [] == Encode(3, []);
    ReadEncoded(3, [], []);
    assert turns[..i + 1][..i] == turns[..i];
    assert |Unread(data, turns[..i + 1])| < 8;
    assert turns[..j][..i + 1] == turns[..i + 1];
    TooShortStays(data, turns[..j], i + 1);
    FlushesReadNothing(turns, i, j);
    IpcInputsAt(data, turns, parse, j);
    PingsArePings(n + 1);
  }

  /** Exactly when reading is reliable, whatever the client sends: the n-th frame the session
      reads is the n-th frame of the client's bytes, and it ends when they are used up, if
      and only if nothing is read after a read was given up that had taken bytes. */
  lemma FramesArriveInOrder(turns: seq<IpcTurn>, parse: Bytes -> Option<Rpc>)
    ensures (forall data: Bytes, j: nat :: j < |turns| && turns[j].IpcRead? ==> ReadsNext(data, turns, parse, j)) <==>
            !ReadsAfterLoss(turns)
  {
    if ReadsAfterLoss(turns) {
      var k, l :| k < l < |turns| && Disturbs(turns, k) && turns[l].IpcRead?;
      var i := FirstDisturbance(turns, k);
      var j := FirstReadAfter(turns, i, l);
      DisturbedMissesPing(turns, parse, i, j);
    } else {
      forall data: Bytes, j: nat | j < |turns| && turns[j].IpcRead?
        ensures ReadsNext(data, turns, parse, j)
      {
        UndisturbedBefore(turns, j);
        UndisturbedReadsNext(data, turns, parse, j);
      }
    }
  }

  // The conversation of the next example: a request, its reply flushed, a ping.
  function ReplyThenPing(taken: nat): seq<IpcTurn> {
    [IpcRead(Written), IpcFlush(Written, taken), IpcRead(Written)]
  }

  lemma OneMoreTurn(data: Bytes, turns: seq<IpcTurn>, turn: IpcTurn, parse: Bytes -> Option<Rpc>)
    ensures IpcInputs(data, turns + [turn], parse) == IpcInputs(data, turns, parse) + [InputOf(Unread(data, turns), turn, parse)]
    ensures Unread(data, turns + [turn]) == AfterTurn(Unread(data, turns), turn)
  {
    assert (turns + [turn])[..|turns|] == turns;
  }

  lemma TwoSent(body: Bytes)
    requires |body| < TWO32
    ensures var data := EncodeAll([Frame(1, body), PING]);
            NextFrame(data) == Some(Frame(1, body)) && AfterFrame(data) == Encode(3, [])
  {
    assert [Frame(1, body), PING][1..] == [PING] && EncodeAll([PING]) == Encode(3, []) + [] == Encode(3, []);
    ReadEncoded(1, body, Encode(3, []));
  }

  lemma GivenUpPing(taken: nat)
    ensures NextFrame(GiveUp(Encode(3, []), taken)) == if taken == 0 then Some(PING) else None
  {
    assert Encode(3, []) + [] == Encode(3, []);
    ReadEncoded(3, [], []);
    HeaderOf(3, [], []);
  }

  lemma ThreeInputs(data: Bytes, taken: nat, parse: Bytes -> Option<Rpc>)
    ensures IpcInputs(data, ReplyThenPing(taken), parse) ==
            [Classify(NextFrame(data), Written, parse), Flush(Written),
             Classify(NextFrame(GiveUp(AfterFrame(data), taken)), Written, parse)]
  {
    var one := [IpcRead(Written)];
    var two := one + [IpcFlush(Written, taken)];
    OneMoreTurn(data, [], IpcRead(Written), parse);
    OneMoreTurn(data, one, IpcFlush(Written, taken), parse);
    OneMoreTurn(data, two, IpcRead(Written), parse);
    assert [] + [IpcRead(Written)] == one && two + [IpcRead(Written)] == ReplyThenPing(taken);
  }

  lemma ReplyThenPingRun(id: nat, clientId: string, rpc: Rpc, last: Input)
    requires ReplyOf(clientId, rpc).Some? && (last == PingFrame(Written) || last == Stop)
    ensures var s := SessionRun(id, clientId, [Request(rpc), Flush(Written), last]).session;
            && s.output == [Ready, Response(ReplyOf(clientId, rpc).value)] + (if last.Stop? then [] else [Pong])
            && s.phase == if last.Stop? then Leaving else Running
  {
    var start := Run(Greet(Fresh(clientId), true).(phase := Running), [], []);
    TurnsOneMore(id, start, [], Request(rpc));
    TurnsOneMore(id, start, [Request(rpc)], Flush(Written));
    TurnsOneMore(id, start, [Request(rpc), Flush(Written)], last);
    assert [] + [Request(rpc)] == [Request(rpc)];
    assert [Request(rpc)] + [Flush(Written)] == [Request(rpc), Flush(Written)];
    assert [Request(rpc), Flush(Written)] + [last] == [Request(rpc), Flush(Written), last];
  }

  /** It happens: the client sends a request and a ping, both whole. If flushing the reply
      gives up a read that had taken one byte of the ping or more, the ping is never
      answered and the session ends. */
  lemma GivenUpReadEndsSession(id: nat, clientId: string, body: Bytes, taken: nat, parse: Bytes -> Option<Rpc>)
    requires |body| < TWO32 && parse(body).Some? && ReplyOf(clientId, parse(body).value).Some?
    ensures var inputs := IpcInputs(EncodeAll([Frame(1, body), PING]), ReplyThenPing(taken), parse);
            var s := SessionRun(id, clientId, inputs).session;
            var reply := ReplyOf(clientId, parse(body).value).value;
            && s.output == [Ready, Response(reply)] + (if taken == 0 then [Pong] else [])
            && s.phase == if taken == 0 then Running else Leaving
  {
    TwoSent(body);
    GivenUpPing(taken);
    ThreeInputs(EncodeAll([Frame(1, body), PING]), taken, parse);
    ReplyThenPingRun(id, clientId, parse(body).value, if taken == 0 then PingFrame(Written) else Stop);
  }

  datatype WsSelect = WsFlush(write: Write) | WsText(body: Bytes) | WsClose | WsEnd | WsOther | WsError

  function ClassifyWs(select: WsSelect, parse: Bytes -> Option<Rpc>): Input {
    match select
    case WsFlush(write) => Flush(write)
    case WsText(body) => if parse(body).Some? then Request(parse(body).value) else Noise
    case WsOther => Noise
    case _ => Stop
  }

  datatype Handshake = Handshake(v: nat, clientId: string)

  // The client id, when the first frame is a version-1 handshake.
  function Accepted(first: Option<Frame>, parse: Bytes -> Option<Handshake>): Option<string> {
    if first.Some? && first.value.opcode == 0 && parse(first.value.body).Some? && parse(first.value.body).value.v == 1
    then Some(parse(first.value.body).value.clientId) else None
  }

  // ─── The imperative forms ───────────────────────────────────────────────────

  // A session out of its loop unregisters; one still in it waits for more input.
  function Ended(s: Session): Session {
    if s.phase.Running? then s else s.(phase := Done)
  }

  function SocketsAfter(sockets: map<nat, seq<Reply>>, id: nat, r: Run): map<nat, seq<Reply>> {
    if r.session.phase.Running? then sockets[id := r.queue] else sockets - {id}
  }

  function EventsAfter(events: seq<Event>, id: nat, r: Run): seq<Event> {
    events + r.events + if r.session.phase.Running? then [] else [Event(None, None, id)]
  }

  lemma TurnEvents(id: nat, r: Run, input: Input)
    ensures var r0 := Turn(id, r.(events := []), input);
            Turn(id, r, input) == r0.(events := r.events + r0.events)
  {
    assert forall e: seq<Event> :: [] + e == e && e + [] == e;
  }

  // The server as a session's loop has left it so far, and as it was before registration.
  ghost predicate Serving(
    sockets0: map<nat, seq<Reply>>, events0: seq<Event>, sockets: map<nat, seq<Reply>>, events: seq<Event>, id: nat, r: Run)
  {
    sockets == sockets0[id := r.queue] && events == events0 + r.events
  }

  lemma ServingOneMore(
    sockets0: map<nat, seq<Reply>>, events0: seq<Event>, sockets: map<nat, seq<Reply>>, events: seq<Event>,
    id: nat, r: Run, input: Input)
    requires Serving(sockets0, events0, sockets, events, id, r)
    ensures var turn := Turn(id, Run(r.session, r.queue, []), input);
            && turn.session == Turn(id, r, input).session
            && Serving(sockets0, events0, sockets[id := turn.queue], events + turn.events, id, Turn(id, r, input))
  {
    TurnEvents(id, r, input);
    var turn := Turn(id, Run(r.session, r.queue, []), input);
    assert events + turn.events == events0 + (r.events + turn.events);
  }

  method OneTurn(server: ServerState, id: nat, s: Session, input: Input) returns (s': Session)
    requires server.Valid() && id in server.sockets
    modifies server`sockets, server`events
    ensures server.Valid()
    ensures var r := Turn(id, Run(s, old(server.sockets)[id], []), input);
            && s' == r.session
            && server.sockets == old(server.sockets)[id := r.queue]
            && server.events == old(server.events) + r.events
  {
    s' := s;
    match input {
      case Flush(write) =>
        var queue := server.sockets[id];
        if queue != [] {
          server.sockets := server.sockets[id := queue[1..]];
          match write {
            case Written =>
              s' := s.(output := s.output + [Response(queue[0])]);
            case Broke(bytes) =>
              s' := s.(output := s.output + [CutResponse(queue[0], bytes)], failed := s.failed + [queue[0]], phase := Leaving);
          }
        }
      case PingFrame(write) =>
        s' := s.(output := s.output + [PongOf(write)]);
      case Request(rpc) =>
        var reply := server.HandleMessage(id, s.clientId, rpc);
        if reply.Some? {
          s' := s.(log := s.log + [Produced(reply.value, |server.sockets[id]| < SOCKET_QUEUE_CAPACITY)]);
          server.SendToSocket(id, reply.value);
        }
      case Noise =>
      case Stop =>
        s' := s.(phase := Leaving);
    }
  }

  /** The clean-up on every way out of the loop. */
  method Close(server: ServerState, id: nat, s: Session, ghost before: map<nat, seq<Reply>>, ghost r: Run)
    returns (s': Session)
    requires server.Valid() && s == r.session && server.sockets == before[id := r.queue]
    modifies server`sockets, server`events
    ensures server.Valid() && s' == Ended(s)
    ensures server.sockets == SocketsAfter(before, id, r)
    ensures server.events == old(server.events) + if s.phase.Running? then [] else [Event(None, None, id)]
  {
    s' := s;
    if !s.phase.Running? {
      server.UnregisterSocket(id);
      s' := s.(phase := Done);
    }
  }

  function WsInputs(selects: seq<WsSelect>, parse: Bytes -> Option<Rpc>): seq<Input> {
    seq(|selects|, i requires 0 <= i < |selects| => ClassifyWs(selects[i], parse))
  }

  method NextInput(stream: Stream, turn: IpcTurn, parse: Bytes -> Option<Rpc>) returns (input: Input)
    modifies stream
    ensures input == InputOf(old(stream.rest), turn, parse)
    ensures stream.rest == AfterTurn(old(stream.rest), turn)
  {
    match turn {
      case IpcFlush(write, taken) =>
        stream.Cancel(taken);
        input := Flush(write);
      case IpcRead(pong) =>
        var read := stream.Next();
        input := Classify(read, pong, parse);
    }
  }

  /** Registration, the select loop, and the clean-up. */
  method Serve(server: ServerState, id: nat, clientId: string, inputs: seq<Input>) returns (s: Session)
    requires server.Valid()
    modifies server`sockets, server`events
    ensures server.Valid()
    ensures var r := SessionRun(id, clientId, inputs);
            && s == Ended(r.session)
            && server.sockets == SocketsAfter(old(server.sockets), id, r)
            && server.events == EventsAfter(old(server.events), id, r)
    ensures s.phase.Running? || (s.phase.Done? && id !in server.sockets &&
                                 server.events != [] && server.events[|server.events| - 1] == Event(None, None, id))
  {
    server.RegisterSocket(id);
    s := Greet(Fresh(clientId), true).(phase := Running);
    ghost var start := Run(s, [], []);
    ghost var r := start;
    for i := 0 to |inputs|
      invariant server.Valid() && id in server.sockets
      invariant r == Turns(id, start, inputs[..i]) && s == r.session
      invariant Serving(old(server.sockets), old(server.events), server.sockets, server.events, id, r)
    {
      assert inputs[..i + 1][..i] == inputs[..i];
      if s.phase.Running? {
        ServingOneMore(old(server.sockets), old(server.events), server.sockets, server.events, id, r, inputs[i]);
        s := OneTurn(server, id, s, inputs[i]);
        r := Turn(id, r, inputs[i]);
      }
    }
    assert inputs[..|inputs|] == inputs;
    s := Close(server, id, s, old(server.sockets), r);
  }

  /** The IPC loop: like `Serve`, but a turn may read the next frame off the stream. */
  method ServeIpc(
    server: ServerState, id: nat, clientId: string, stream: Stream, turns: seq<IpcTurn>, parse: Bytes -> Option<Rpc>)
    returns (s: Session)
    requires server.Valid()
    modifies server`sockets, server`events, stream
    ensures server.Valid()
    ensures var r := SessionRun(id, clientId, IpcInputs(old(stream.rest), turns, parse));
            && s == Ended(r.session)
            && server.sockets == SocketsAfter(old(server.sockets), id, r)
            && server.events == EventsAfter(old(server.events), id, r)
            && (r.session.phase.Running? ==> stream.rest == Unread(old(stream.rest), turns))
    ensures s.phase.Running? || (s.phase.Done? && id !in server.sockets &&
                                 server.events != [] && server.events[|server.events| - 1] == Event(None, None, id))
  {
    server.RegisterSocket(id);
    s := Greet(Fresh(clientId), true).(phase := Running);
    ghost var start := Run(s, [], []);
    ghost var r := start;
    for i := 0 to |turns|
      invariant server.Valid() && id in server.sockets
      invariant r == Turns(id, start, IpcInputs(old(stream.rest), turns[..i], parse)) && s == r.session
      invariant s.phase.Running? ==> stream.rest == Unread(old(stream.rest), turns[..i])
      invariant Serving(old(server.sockets), old(server.events), server.sockets, server.events, id, r)
    {
      ghost var done := turns[..i];
      assert turns[..i + 1][..i] == done;
      TurnsOneMore(id, start, IpcInputs(old(stream.rest), done, parse), InputOf(Unread(old(stream.rest), done), turns[i], parse));
      if s.phase.Running? {
        var input := NextInput(stream, turns[i], parse);
        ServingOneMore(old(server.sockets), old(server.events), server.sockets, server.events, id, r, input);
        s := OneTurn(server, id, s, input);
        r := Turn(id, r, input);
      }
    }
    assert turns[..|turns|] == turns;
    s := Close(server, id, s, old(server.sockets), r);
  }

  /** A session over IPC: handshake, id, READY, then the loop, all off one stream. */
  method HandleIpcIo(
    server: ServerState, stream: Stream, readyWritten: bool, turns: seq<IpcTurn>,
    parseHandshake: Bytes -> Option<Handshake>, parse: Bytes -> Option<Rpc>)
    returns (s: Option<Session>)
    requires server.Valid()
    modifies server, stream
    ensures server.Valid()
    ensures var first := ReadFrame(old(stream.rest));
            && (s.Some? <==> first.Some? && first.value.0.opcode == 0 &&
                             parseHandshake(first.value.0.body).Some? && parseHandshake(first.value.0.body).value.v == 1)
            && (s.Some? ==> s.value.clientId == parseHandshake(first.value.0.body).value.clientId)
    ensures var clientId := Accepted(NextFrame(old(stream.rest)), parseHandshake);
            var id := old(server.nextSocketId);
            && (s.Some? <==> clientId.Some?)
            && server.nextSocketId == (if clientId.None? then id else (id + 1) % U64)
            && if clientId.None? || !readyWritten then
                 && (s.Some? ==> s.value == Greet(Fresh(clientId.value), false))
                 && server.sockets == old(server.sockets) && server.events == old(server.events)
               else
                 var r := SessionRun(id, clientId.value, IpcInputs(AfterFrame(old(stream.rest)), turns, parse));
                 && s == Some(Ended(r.session))
                 && server.sockets == SocketsAfter(old(server.sockets), id, r)
                 && server.events == EventsAfter(old(server.events), id, r)
    ensures s.Some? && readyWritten ==>
              var id := old(server.nextSocketId);
              s.value.phase.Running? || (s.value.phase.Done? && id !in server.sockets &&
                server.events != [] && server.events[|server.events| - 1] == Event(None, None, id))
  {
    var first := stream.Next();
    if first.None? || first.value.opcode != 0 {
      return None;
    }
    var handshake := parseHandshake(first.value.body);
    if handshake.None? || handshake.value.v != 1 {
      return None;
    }
    var clientId := handshake.value.clientId;
    var id := server.NextId();
    if !readyWritten {
      return Some(Greet(Fresh(clientId), false));
    }
    ClientStays(id, clientId, IpcInputs(stream.rest, turns, parse));
    var last := ServeIpc(server, id, clientId, stream, turns, parse);
    s := Some(last);
  }

  /** A session over WebSocket, after the upgrade: id, READY, then the loop. */
  method HandleConnection(
    server: ServerState, clientId: string, readyWritten: bool, selects: seq<WsSelect>, parse: Bytes -> Option<Rpc>)
    returns (s: Session)
    requires server.Valid()
    modifies server
    ensures server.Valid()
    ensures var id := old(server.nextSocketId);
            && server.nextSocketId == (id + 1) % U64
            && if !readyWritten then
                 && s == Greet(Fresh(clientId), false)
                 && server.sockets == old(server.sockets) && server.events == old(server.events)
               else
                 var r := SessionRun(id, clientId, WsInputs(selects, parse));
                 && s == Ended(r.session)
                 && server.sockets == SocketsAfter(old(server.sockets), id, r)
                 && server.events == EventsAfter(old(server.events), id, r)
    ensures readyWritten ==>
              var id := old(server.nextSocketId);
              s.phase.Running? || (s.phase.Done? && id !in server.sockets &&
                server.events != [] && server.events[|server.events| - 1] == Event(None, None, id))
  {
    var id := server.NextId();
    if !readyWritten {
      return Greet(Fresh(clientId), false);
    }
    s := Serve(server, id, clientId, WsInputs(selects, parse));
  }
}
