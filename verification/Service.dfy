/** What a session does for its client, said from the client's side: which commands are
    answered and announced, what each frame is taken for, and when the session ends:
    src/server.rs `handle_message`, src/transports/ipc.rs, src/transports/websocket.rs. */
module Service {
  import opened Wrappers
  import opened Codec
  import opened Bridge
  import opened Server
  import opened Session

  // ─── Requests ───────────────────────────────────────────────────────────────

  function Low32(pid: Option<nat>): Option<nat> {
    if pid.Some? then Some(pid.value % 0x1_0000_0000) else None
  }

  // What the requests of a client come to. A SET_ACTIVITY is announced, as its own
  // application or else as the client's, with the low 32 bits of the pid, or as nothing;
  // and it is answered, as is a CONNECTIONS_CALLBACK. Other commands leave no trace.
  ghost predicate Handled(id: nat, clientId: string, rpcs: seq<Rpc>, events: seq<Event>, replies: seq<Reply>) {
    if rpcs == [] then events == [] && replies == []
    else
      var before, rpc := rpcs[..|rpcs| - 1], rpcs[|rpcs| - 1];
      match rpc.command
      case SetActivity(pid, None) =>
        && events != [] && events[|events| - 1] == Event(None, Low32(pid), id)
        && replies != [] && replies[|replies| - 1] == Ack(rpc, None)
        && Handled(id, clientId, before, events[..|events| - 1], replies[..|replies| - 1])
      case SetActivity(pid, Some(ActivityArg(own))) =>
        && events != []
        && events[|events| - 1] == Event(if own.Some? then own else Some(clientId), Low32(pid), id)
        && replies != [] && replies[|replies| - 1] == Ack(rpc, Some(clientId))
        && Handled(id, clientId, before, events[..|events| - 1], replies[..|replies| - 1])
      case ConnectionsCallback =>
        && replies != [] && replies[|replies| - 1] == Ack(rpc, None)
        && Handled(id, clientId, before, events, replies[..|replies| - 1])
      case Silent =>
        Handled(id, clientId, before, events, replies)
  }

  // All replies a session has produced, kept or dropped.
  function Answered(log: seq<Produced>): seq<Reply> {
    if log == [] then [] else Answered(log[..|log| - 1]) + [log[|log| - 1].reply]
  }

  // The requests among the inputs.
  function Requests(inputs: seq<Input>): seq<Rpc> {
    if inputs == [] then []
    else
      var last := inputs[|inputs| - 1];
      Requests(inputs[..|inputs| - 1]) + if last.Request? then [last.rpc] else []
  }

  function Start(clientId: string): Run {
    Run(Greet(Fresh(clientId), true).(phase := Running), [], [])
  }

  lemma RunOneMore(id: nat, clientId: string, inputs: seq<Input>, input: Input)
    ensures SessionRun(id, clientId, inputs + [input]) ==
            var r := SessionRun(id, clientId, inputs);
            if r.session.phase.Running? then Turn(id, r, input) else r
  {
    TurnsOneMore(id, Start(clientId), inputs, input);
  }

  lemma AnsweredOneMore(log: seq<Produced>, p: Produced)
    ensures Answered(log + [p]) == Answered(log) + [p.reply]
  {
    assert (log + [p])[..|log|] == log;
  }

  lemma OneMoreHandled(id: nat, clientId: string, rpcs: seq<Rpc>, rpc: Rpc, events: seq<Event>, replies: seq<Reply>)
    requires Handled(id, clientId, rpcs, events, replies)
    ensures Handled(id, clientId, rpcs + [rpc], events + ToSeq(EventOf(id, clientId, rpc)), replies + ToSeq(ReplyOf(clientId, rpc)))
  {
    var more, event, reply := rpcs + [rpc], EventOf(id, clientId, rpc), ReplyOf(clientId, rpc);
    assert more[..|more| - 1] == rpcs && more[|more| - 1] == rpc;
    assert event.Some? ==> (events + [event.value])[..|events|] == events;
    assert reply.Some? ==> (replies + [reply.value])[..|replies|] == replies;
    assert events + [] == events && replies + [] == replies;
  }

  // Replies produced by a turn.
  lemma TurnAnswers(id: nat, r: Run, input: Input)
    ensures var r' := Turn(id, r, input);
            && Answered(r'.session.log) ==
               Answered(r.session.log) + (if input.Request? then ToSeq(ReplyOf(r.session.clientId, input.rpc)) else [])
            && r'.events == r.events + (if input.Request? then ToSeq(EventOf(id, r.session.clientId, input.rpc)) else [])
  {
    if input.Request? && ReplyOf(r.session.clientId, input.rpc).Some? {
      AnsweredOneMore(r.session.log, Produced(ReplyOf(r.session.clientId, input.rpc).value, |r.queue| < SOCKET_QUEUE_CAPACITY));
    }
    assert Answered(r.session.log) + [] == Answered(r.session.log);
    assert r.events + [] == r.events;
  }

  lemma AddNothing<A, B, C>(a: seq<A>, b: seq<B>, c: seq<C>)
    ensures a + [] == a && b + [] == b && c + [] == c
  {
  }

  /** While a session runs, its events and replies are exactly those of the requests it read,
      one by one and in order. */
  lemma {:induction false} RequestsAreHandled(id: nat, clientId: string, inputs: seq<Input>)
    requires SessionRun(id, clientId, inputs).session.phase.Running?
    ensures var r := SessionRun(id, clientId, inputs);
            Handled(id, clientId, Requests(inputs), r.events, Answered(r.session.log))
  {
    if inputs != [] {
      var init, input := inputs[..|inputs| - 1], inputs[|inputs| - 1];
      var r := SessionRun(id, clientId, init);
      assert inputs == init + [input];
      RunOneMore(id, clientId, init, input);
      RequestsAreHandled(id, clientId, init);
      ClientStays(id, clientId, init);
      TurnAnswers(id, r, input);
      if input.Request? {
        OneMoreHandled(id, clientId, Requests(init), input.rpc, r.events, Answered(r.session.log));
      }
      AddNothing(Requests(init), r.events, Answered(r.session.log));
    }
  }

  // ─── The last activity ──────────────────────────────────────────────────────

  predicate SetsActivity(input: Input) {
    input.Request? && input.rpc.command.SetActivity?
  }

  // Input p sets the activity, and no later one does.
  predicate LastSet(inputs: seq<Input>, p: int) {
    0 <= p < |inputs| && SetsActivity(inputs[p]) && forall q :: p < q < |inputs| ==> !SetsActivity(inputs[q])
  }

  // What the last SET_ACTIVITY of a client is announced as.
  predicate Announces(e: Event, id: nat, clientId: string, input: Input)
    requires SetsActivity(input)
  {
    var own := input.rpc.command.activity;
    && e.socket == id && e.pid == Low32(input.rpc.command.pid)
    && (own.None? ==> e.activity.None?)
    && (own.Some? ==> e.activity == Some(if own.value.appId.Some? then own.value.appId.value else clientId))
  }

  lemma LastSetOneMore(inputs: seq<Input>, input: Input, p: int)
    ensures LastSet(inputs + [input], p) <==> if SetsActivity(input) then p == |inputs| else LastSet(inputs, p)
  {
    var more := inputs + [input];
    assert more[|inputs|] == input && forall q :: 0 <= q < |inputs| ==> more[q] == inputs[q];
  }

  lemma SetOneMore(inputs: seq<Input>, input: Input)
    ensures (forall p :: 0 <= p < |inputs + [input]| ==> !SetsActivity((inputs + [input])[p])) <==>
            !SetsActivity(input) && forall p :: 0 <= p < |inputs| ==> !SetsActivity(inputs[p])
  {
    var more := inputs + [input];
    assert more[|inputs|] == input && forall q :: 0 <= q < |inputs| ==> more[q] == inputs[q];
  }

  lemma EventAnnounces(id: nat, clientId: string, input: Input)
    ensures SetsActivity(input) ==> EventOf(id, clientId, input.rpc).Some? &&
                                    Announces(EventOf(id, clientId, input.rpc).value, id, clientId, input)
    ensures input.Request? && !SetsActivity(input) ==> EventOf(id, clientId, input.rpc).None?
  {
  }

  /** The last event of a running session announces its last SET_ACTIVITY. */
  lemma {:induction false} LastEvent(id: nat, clientId: string, inputs: seq<Input>)
    requires SessionRun(id, clientId, inputs).session.phase.Running?
    ensures var events := SessionRun(id, clientId, inputs).events;
            && (events == [] <==> forall p :: 0 <= p < |inputs| ==> !SetsActivity(inputs[p]))
            && forall p :: LastSet(inputs, p) ==> events != [] && Announces(events[|events| - 1], id, clientId, inputs[p])
  {
    if inputs != [] {
      var init, input := inputs[..|inputs| - 1], inputs[|inputs| - 1];
      var r := SessionRun(id, clientId, init);
      assert inputs == init + [input];
      RunOneMore(id, clientId, init, input);
      LastEvent(id, clientId, init);
      ClientStays(id, clientId, init);
      TurnAnswers(id, r, input);
      EventAnnounces(id, clientId, input);
      SetOneMore(init, input);
      forall p | LastSet(inputs, p)
        ensures if SetsActivity(input) then p == |init| else LastSet(init, p)
      {
        LastSetOneMore(init, input, p);
      }
      if !SetsActivity(input) {
        assert SessionRun(id, clientId, inputs).events == r.events;
      }
    }
  }

  // ─── Writing ────────────────────────────────────────────────────────────────

  function Flushes(n: nat): seq<Input> {
    if n == 0 then [] else Flushes(n - 1) + [Flush(Written)]
  }

  lemma {:induction false} FlushesWrite(id: nat, clientId: string, inputs: seq<Input>, n: nat)
    requires SessionRun(id, clientId, inputs).session.phase.Running?
    ensures var r, r' := SessionRun(id, clientId, inputs), SessionRun(id, clientId, inputs + Flushes(n));
            && r'.session.phase.Running? && r'.queue == (if n <= |r.queue| then r.queue[n..] else [])
            && r'.session.log == r.session.log && r'.events == r.events
  {
    if n == 0 {
      assert inputs + [] == inputs;
    } else {
      FlushesWrite(id, clientId, inputs, n - 1);
      RunOneMore(id, clientId, inputs + Flushes(n - 1), Flush(Written));
      assert inputs + Flushes(n) == inputs + Flushes(n - 1) + [Flush(Written)];
    }
  }

  /** Every reply the queue took gets written, in order, once the queue is flushed. */
  lemma RepliesGetWritten(id: nat, clientId: string, inputs: seq<Input>)
    requires SessionRun(id, clientId, inputs).session.phase.Running?
    ensures var r := SessionRun(id, clientId, inputs);
            var s' := SessionRun(id, clientId, inputs + Flushes(|r.queue|)).session;
            s'.phase.Running? && s'.log == r.session.log && Replies(s'.output) == Picked(r.session.log, true)
  {
    var r := SessionRun(id, clientId, inputs);
    var flushed := inputs + Flushes(|r.queue|);
    FlushesWrite(id, clientId, inputs, |r.queue|);
    RunIsSound(id, clientId, flushed);
    var s := SessionRun(id, clientId, flushed).session;
    AddNothing(Replies(s.output), s.failed, s.log);
    assert Picked(s.log, true) == Replies(s.output) + [] + [];
  }

  function PingsOf(inputs: seq<Input>): nat {
    if inputs == [] then 0
    else PingsOf(inputs[..|inputs| - 1]) + if inputs[|inputs| - 1].PingFrame? then 1 else 0
  }

  function PongsOf(output: seq<Out>): nat {
    if output == [] then 0
    else
      var last := output[|output| - 1];
      PongsOf(output[..|output| - 1]) + if last.Pong? || last.CutPong? then 1 else 0
  }

  lemma PongsOneMore(output: seq<Out>, o: Out)
    ensures PongsOf(output + [o]) == PongsOf(output) + if o.Pong? || o.CutPong? then 1 else 0
  {
    assert (output + [o])[..|output|] == output;
  }

  // No write breaks.
  predicate Unbroken(inputs: seq<Input>) {
    forall i :: 0 <= i < |inputs| && (inputs[i].PingFrame? || inputs[i].Flush?) ==> inputs[i].write.Written?
  }

  lemma TurnPongs(id: nat, r: Run, input: Input)
    ensures PongsOf(Turn(id, r, input).session.output) == PongsOf(r.session.output) + if input.PingFrame? then 1 else 0
  {
    if input.PingFrame? {
      PongsOneMore(r.session.output, PongOf(input.write));
    }
    if input.Flush? && r.queue != [] {
      PongsOneMore(r.session.output, if input.write.Written? then Response(r.queue[0]) else CutResponse(r.queue[0], input.write.bytes));
    }
  }

  lemma PingsOneMore(inputs: seq<Input>, input: Input)
    ensures PingsOf(inputs + [input]) == PingsOf(inputs) + if input.PingFrame? then 1 else 0
  {
    assert (inputs + [input])[..|inputs|] == inputs;
  }

  /** While a session runs, each ping gets one pong, if only its first bytes. */
  lemma {:induction false} PingsAreAnswered(id: nat, clientId: string, inputs: seq<Input>)
    requires SessionRun(id, clientId, inputs).session.phase.Running?
    ensures PongsOf(SessionRun(id, clientId, inputs).session.output) == PingsOf(inputs)
  {
    if inputs == [] {
      PongsOneMore([], Ready);
      assert [] + [Ready] == [Ready];
    } else {
      var init, input := inputs[..|inputs| - 1], inputs[|inputs| - 1];
      assert inputs == init + [input];
      RunOneMore(id, clientId, init, input);
      PingsAreAnswered(id, clientId, init);
      TurnPongs(id, SessionRun(id, clientId, init), input);
      PingsOneMore(init, input);
    }
  }

  predicate IsWhole(output: seq<Out>) {
    forall i :: 0 <= i < |output| ==> !output[i].CutPong? && !output[i].CutResponse?
  }

  lemma TurnStaysWhole(id: nat, r: Run, input: Input)
    requires IsWhole(r.session.output) && (input.PingFrame? || input.Flush? ==> input.write.Written?)
    ensures IsWhole(Turn(id, r, input).session.output)
  {
  }

  lemma {:induction false} UnbrokenIsWhole(id: nat, clientId: string, inputs: seq<Input>)
    requires Unbroken(inputs)
    ensures IsWhole(SessionRun(id, clientId, inputs).session.output)
  {
    if inputs != [] {
      var init, input := inputs[..|inputs| - 1], inputs[|inputs| - 1];
      assert inputs == init + [input];
      RunOneMore(id, clientId, init, input);
      UnbrokenIsWhole(id, clientId, init);
      TurnStaysWhole(id, SessionRun(id, clientId, init), input);
    }
  }

  // ─── The end of a session ───────────────────────────────────────────────────

  lemma {:induction false} NothingAfterTheEnd(id: nat, clientId: string, inputs: seq<Input>, n: nat)
    requires n <= |inputs| && !SessionRun(id, clientId, inputs[..n]).session.phase.Running?
    ensures SessionRun(id, clientId, inputs) == SessionRun(id, clientId, inputs[..n])
  {
    if n < |inputs| {
      var init := inputs[..|inputs| - 1];
      assert init[..n] == inputs[..n] && inputs == init + [inputs[|inputs| - 1]];
      NothingAfterTheEnd(id, clientId, init, n);
      RunOneMore(id, clientId, init, inputs[|inputs| - 1]);
    } else {
      assert inputs[..n] == inputs;
    }
  }

  // ─── WebSocket frames ───────────────────────────────────────────────────────

  // The bodies of the text frames, and the requests among some bodies.
  function TextsOf(selects: seq<WsSelect>): seq<Bytes> {
    if selects == [] then []
    else
      var last := selects[|selects| - 1];
      TextsOf(selects[..|selects| - 1]) + if last.WsText? then [last.body] else []
  }

  function Parsed(bodies: seq<Bytes>, parse: Bytes -> Option<Rpc>): seq<Rpc> {
    if bodies == [] then []
    else
      var last := parse(bodies[|bodies| - 1]);
      Parsed(bodies[..|bodies| - 1], parse) + if last.Some? then [last.value] else []
  }

  lemma ParsedOneMore(bodies: seq<Bytes>, body: Bytes, parse: Bytes -> Option<Rpc>)
    ensures Parsed(bodies + [body], parse) == Parsed(bodies, parse) + if parse(body).Some? then [parse(body).value] else []
  {
    assert (bodies + [body])[..|bodies|] == bodies;
  }

  // Neither a close nor the end nor an error, and no write that fails.
  predicate Open(selects: seq<WsSelect>) {
    forall i :: 0 <= i < |selects| ==>
      selects[i].WsText? || selects[i].WsOther? || selects[i] == WsFlush(Written)
  }

  lemma WsOneMore(selects: seq<WsSelect>, select: WsSelect, parse: Bytes -> Option<Rpc>)
    ensures WsInputs(selects + [select], parse) == WsInputs(selects, parse) + [ClassifyWs(select, parse)]
  {
  }

  lemma RequestsOneMore(inputs: seq<Input>, input: Input)
    ensures Requests(inputs + [input]) == Requests(inputs) + if input.Request? then [input.rpc] else []
  {
    assert (inputs + [input])[..|inputs|] == inputs;
  }

  lemma {:induction false} OpenRuns(id: nat, clientId: string, selects: seq<WsSelect>, parse: Bytes -> Option<Rpc>)
    requires Open(selects)
    ensures SessionRun(id, clientId, WsInputs(selects, parse)).session.phase.Running?
    ensures Requests(WsInputs(selects, parse)) == Parsed(TextsOf(selects), parse)
  {
    if selects != [] {
      var init, last := selects[..|selects| - 1], selects[|selects| - 1];
      assert selects == init + [last];
      OpenRuns(id, clientId, init, parse);
      WsOneMore(init, last, parse);
      RunOneMore(id, clientId, WsInputs(init, parse), ClassifyWs(last, parse));
      RequestsOneMore(WsInputs(init, parse), ClassifyWs(last, parse));
      if last.WsText? {
        ParsedOneMore(TextsOf(init), last.body, parse);
      } else {
        AddNothing(TextsOf(init), Parsed(TextsOf(init), parse), init);
      }
    } else {
      assert WsInputs([], parse) == [];
    }
  }

  /** Over WebSocket: up to a close, the end or an error, and as long as writes succeed, a
      session handles exactly the text frames that parse, in order; other frames change
      nothing. */
  lemma TextsAreHandled(id: nat, clientId: string, selects: seq<WsSelect>, parse: Bytes -> Option<Rpc>)
    requires Open(selects)
    ensures var r := SessionRun(id, clientId, WsInputs(selects, parse));
            r.session.phase.Running? && Handled(id, clientId, Parsed(TextsOf(selects), parse), r.events, Answered(r.session.log))
  {
    OpenRuns(id, clientId, selects, parse);
    RequestsAreHandled(id, clientId, WsInputs(selects, parse));
  }

  /** The first close, end or error leaves the loop, and nothing after it counts. */
  lemma FirstCloseEnds(id: nat, clientId: string, selects: seq<WsSelect>, parse: Bytes -> Option<Rpc>, p: nat)
    requires p < |selects| && Open(selects[..p])
    requires selects[p].WsClose? || selects[p].WsEnd? || selects[p].WsError?
    ensures var before := SessionRun(id, clientId, WsInputs(selects[..p], parse));
            SessionRun(id, clientId, WsInputs(selects, parse)) == before.(session := before.session.(phase := Leaving))
  {
    var inputs := WsInputs(selects, parse);
    OpenRuns(id, clientId, selects[..p], parse);
    assert selects[..p + 1] == selects[..p] + [selects[p]];
    WsOneMore(selects[..p], selects[p], parse);
    RunOneMore(id, clientId, WsInputs(selects[..p], parse), ClassifyWs(selects[p], parse));
    assert inputs[..p + 1] == WsInputs(selects[..p + 1], parse);
    NothingAfterTheEnd(id, clientId, inputs, p + 1);
  }

  /** A reply that cannot be written leaves the loop, too; with nothing queued there is none. */
  lemma BrokenReplyEnds(id: nat, clientId: string, inputs: seq<Input>, bytes: nat)
    requires SessionRun(id, clientId, inputs).session.phase.Running?
    ensures var r, r' := SessionRun(id, clientId, inputs), SessionRun(id, clientId, inputs + [Flush(Broke(bytes))]);
            if r.queue == [] then r' == r
            else r'.session.phase.Leaving? && r'.session.failed == [r.queue[0]] && r'.queue == r.queue[1..]
  {
    RunOneMore(id, clientId, inputs, Flush(Broke(bytes)));
    RunIsSound(id, clientId, inputs);
  }

  // ─── IPC frames ─────────────────────────────────────────────────────────────

  // What one more input does to a running session.
  lemma InputIsHandled(id: nat, clientId: string, inputs: seq<Input>, input: Input)
    requires SessionRun(id, clientId, inputs).session.phase.Running?
    ensures var r, r' := SessionRun(id, clientId, inputs), SessionRun(id, clientId, inputs + [input]);
            && (input.Stop? ==> r' == r.(session := r.session.(phase := Leaving)))
            && (input.Noise? ==> r' == r)
            && (input.PingFrame? ==>
                  && PongsOf(r'.session.output) == PongsOf(r.session.output) + 1
                  && r'.(session := r'.session.(output := r.session.output)) == r)
            && (input.Request? ==> r'.session.phase.Running?)
  {
    RunOneMore(id, clientId, inputs, input);
    TurnPongs(id, SessionRun(id, clientId, inputs), input);
  }

  // What a frame is taken for.
  lemma FrameIsTaken(frame: Frame, pong: Write, parse: Bytes -> Option<Rpc>)
    ensures var opcode, input := frame.opcode, Classify(Some(frame), pong, parse);
            && (opcode == 0 || opcode == 4 ==> input == Noise)
            && (opcode == 1 ==> input == if parse(frame.body).Some? then Request(parse(frame.body).value) else Noise)
            && (opcode == 3 ==> input == PingFrame(pong))
            && (opcode == 2 || opcode < 0 || opcode > 4 ==> input == Stop)
  {
  }

  // What reading a frame, or finding none, does to a running session.
  ghost predicate FrameHandled(
    id: nat, clientId: string, inputs: seq<Input>, next: Option<Frame>, parse: Bytes -> Option<Rpc>, r': Run)
  {
    var r := SessionRun(id, clientId, inputs);
    var left := r.(session := r.session.(phase := Leaving));
    match next
    case None => r' == left
    case Some(Frame(opcode, body)) =>
      && (opcode == 0 || opcode == 4 ==> r' == r)
      && (opcode == 1 && parse(body).None? ==> r' == r)
      && (opcode == 1 && parse(body).Some? ==>
            r'.session.phase.Running? && r' == SessionRun(id, clientId, inputs + [Request(parse(body).value)]))
      && (opcode == 3 ==>
            && PongsOf(r'.session.output) == PongsOf(r.session.output) + 1
            && r'.(session := r'.session.(output := r.session.output)) == r)
      && (opcode == 2 || opcode < 0 || opcode > 4 ==> r' == left)
  }

  lemma ClassifiedIsHandled(
    id: nat, clientId: string, inputs: seq<Input>, next: Option<Frame>, pong: Write, parse: Bytes -> Option<Rpc>)
    requires SessionRun(id, clientId, inputs).session.phase.Running?
    ensures FrameHandled(id, clientId, inputs, next, parse, SessionRun(id, clientId, inputs + [Classify(next, pong, parse)]))
  {
    InputIsHandled(id, clientId, inputs, Classify(next, pong, parse));
    if next.Some? {
      FrameIsTaken(next.value, pong, parse);
    }
  }

  /** Over IPC, one frame more: a handshake or a pong changes nothing, nor does a frame that
      does not parse; a frame that parses is a request; a ping gets its pong, and the session
      goes on even if that breaks; a close, any other opcode, or no frame at all leaves the
      loop. */
  lemma FramesAreHandled(
    id: nat, clientId: string, data: Bytes, turns: seq<IpcTurn>, pong: Write, parse: Bytes -> Option<Rpc>)
    requires SessionRun(id, clientId, IpcInputs(data, turns, parse)).session.phase.Running?
    ensures FrameHandled(id, clientId, IpcInputs(data, turns, parse), NextFrame(Unread(data, turns)), parse,
                         SessionRun(id, clientId, IpcInputs(data, turns + [IpcRead(pong)], parse)))
  {
    OneMoreTurn(data, turns, IpcRead(pong), parse);
    ClassifiedIsHandled(id, clientId, IpcInputs(data, turns, parse), NextFrame(Unread(data, turns)), pong, parse);
  }

  // The frame of a select, if it is a text.
  function FrameFor(select: WsSelect): seq<Frame> {
    if select.WsText? then [Frame(1, select.body)] else []
  }

  // The same conversation over IPC: each text as a frame of opcode 1, each flush as it is.
  function FramesOf(selects: seq<WsSelect>): seq<Frame> {
    if selects == [] then []
    else
      var last := selects[|selects| - 1];
      FramesOf(selects[..|selects| - 1]) + FrameFor(last)
  }

  function TurnFor(select: WsSelect): IpcTurn {
    if select.WsFlush? then IpcFlush(select.write, 0) else IpcRead(Written)
  }

  function TurnsOf(selects: seq<WsSelect>): (turns: seq<IpcTurn>)
    ensures |turns| == |selects|
  {
    if selects == [] then []
    else
      var last := selects[|selects| - 1];
      TurnsOf(selects[..|selects| - 1]) + [TurnFor(last)]
  }

  predicate TextsAndFlushes(selects: seq<WsSelect>) {
    forall i :: 0 <= i < |selects| ==> selects[i].WsFlush? || (selects[i].WsText? && |selects[i].body| < TWO32)
  }

  lemma EncodeFirst(frame: Frame, more: seq<Frame>)
    requires |frame.body| < TWO32
    ensures ReadFrame(EncodeAll([frame] + more)) == Some((frame, EncodeAll(more)))
  {
    assert ([frame] + more)[1..] == more;
    ReadEncoded(frame.opcode, frame.body, EncodeAll(more));
  }

  lemma SameInput(select: WsSelect, more: seq<Frame>, parse: Bytes -> Option<Rpc>)
    requires select.WsFlush? || (select.WsText? && |select.body| < TWO32)
    ensures var rest := EncodeAll(FrameFor(select) + more);
            && InputOf(rest, TurnFor(select), parse) == ClassifyWs(select, parse)
            && AfterTurn(rest, TurnFor(select)) == EncodeAll(more)
  {
    if select.WsText? {
      EncodeFirst(Frame(1, select.body), more);
    } else {
      assert FrameFor(select) + more == more;
    }
  }

  // The turns make of the bytes the same inputs as the selects, and leave `rest` of them.
  ghost predicate SameSoFar(
    data: Bytes, turns: seq<IpcTurn>, selects: seq<WsSelect>, rest: Bytes, parse: Bytes -> Option<Rpc>)
  {
    IpcInputs(data, turns, parse) == WsInputs(selects, parse) && Unread(data, turns) == rest
  }

  lemma SameOneMore(
    data: Bytes, turns: seq<IpcTurn>, selects: seq<WsSelect>, last: WsSelect, before: Bytes, after: Bytes,
    parse: Bytes -> Option<Rpc>)
    requires SameSoFar(data, turns, selects, before, parse)
    requires InputOf(before, TurnFor(last), parse) == ClassifyWs(last, parse) && AfterTurn(before, TurnFor(last)) == after
    ensures SameSoFar(data, turns + [TurnFor(last)], selects + [last], after, parse)
  {
    OneMoreTurn(data, turns, TurnFor(last), parse);
    WsOneMore(selects, last, parse);
  }

  lemma AppendFrames(a: seq<Frame>, b: seq<Frame>, c: seq<Frame>)
    ensures a + b + c == a + (b + c)
  {
  }

  lemma SameInputsStep(init: seq<WsSelect>, last: WsSelect, a: seq<Frame>, more: seq<Frame>, turns: seq<IpcTurn>, parse: Bytes -> Option<Rpc>)
    requires last.WsFlush? || (last.WsText? && |last.body| < TWO32)
    requires SameSoFar(EncodeAll(a + (FrameFor(last) + more)), turns, init, EncodeAll(FrameFor(last) + more), parse)
    ensures SameSoFar(EncodeAll(a + FrameFor(last) + more), turns + [TurnFor(last)], init + [last], EncodeAll(more), parse)
  {
    SameInput(last, more, parse);
    AppendFrames(a, FrameFor(last), more);
    SameOneMore(EncodeAll(a + (FrameFor(last) + more)), turns, init, last, EncodeAll(FrameFor(last) + more), EncodeAll(more), parse);
  }

  lemma NothingHeard(more: seq<Frame>, parse: Bytes -> Option<Rpc>)
    ensures SameSoFar(EncodeAll([] + more), [], [], EncodeAll(more), parse)
  {
    assert [] + more == more && WsInputs([], parse) == [];
  }

  lemma LastSelect(selects: seq<WsSelect>)
    requires selects != []
    ensures var init, last := selects[..|selects| - 1], selects[|selects| - 1];
            && selects == init + [last]
            && TurnsOf(selects) == TurnsOf(init) + [TurnFor(last)]
            && FramesOf(selects) == FramesOf(init) + FrameFor(last)
  {
  }

  // Whatever frames come after, the turns take exactly those of the conversation.
  lemma {:induction false} SameInputs(selects: seq<WsSelect>, more: seq<Frame>, parse: Bytes -> Option<Rpc>)
    requires TextsAndFlushes(selects)
    ensures SameSoFar(EncodeAll(FramesOf(selects) + more), TurnsOf(selects), selects, EncodeAll(more), parse)
  {
    if selects == [] {
      NothingHeard(more, parse);
    } else {
      var init, last := selects[..|selects| - 1], selects[|selects| - 1];
      SameInputs(init, FrameFor(last) + more, parse);
      SameInputsStep(init, last, FramesOf(init), more, TurnsOf(init), parse);
      LastSelect(selects);
    }
  }

  /** One session for both transports: the same texts, sent as IPC frames of opcode 1 with
      the flushes in the same places, make the same session. */
  lemma TransportsAgree(id: nat, clientId: string, selects: seq<WsSelect>, parse: Bytes -> Option<Rpc>)
    requires TextsAndFlushes(selects)
    ensures SessionRun(id, clientId, IpcInputs(EncodeAll(FramesOf(selects)), TurnsOf(selects), parse)) ==
            SessionRun(id, clientId, WsInputs(selects, parse))
  {
    SameInputs(selects, [], parse);
    assert FramesOf(selects) + [] == FramesOf(selects);
  }
}
