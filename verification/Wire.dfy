/** What a session's output looks like to its client, byte by byte: src/transports/ipc.rs,
    the writes of `handle_ipc_io`. A pong that breaks half-way does not end the session. */
module Wire {
  import opened Codec
  import opened Server
  import opened Session
  import opened Service

  // The texts of READY and of replies.
  datatype Texts = Texts(ready: Bytes, json: Reply -> Bytes)

  ghost predicate Short(texts: Texts) {
    |texts.ready| < TWO32 && forall reply :: |texts.json(reply)| < TWO32
  }

  // The frame an output is, or was to be.
  function FrameOf(o: Out, texts: Texts): Frame {
    match o
    case Ready => Frame(1, texts.ready)
    case Pong => Frame(4, [])
    case Response(reply) => Frame(1, texts.json(reply))
    case CutPong(_) => Frame(4, [])
    case CutResponse(reply, _) => Frame(1, texts.json(reply))
  }

  predicate IsCut(o: Out) {
    o.CutPong? || o.CutResponse?
  }

  // A write that left something on the wire, but not all.
  predicate Breaks(o: Out) {
    IsCut(o) && o.bytes > 0
  }

  function BytesOf(o: Out, texts: Texts): Bytes {
    var frame := FrameOf(o, texts);
    var all := Encode(frame.opcode, frame.body);
    if IsCut(o) then all[..if o.bytes < |all| then o.bytes else |all| - 1] else all
  }

  function OnWire(output: seq<Out>, texts: Texts): Bytes {
    if output == [] then [] else BytesOf(output[0], texts) + OnWire(output[1..], texts)
  }

  // The frames written completely.
  function Whole(output: seq<Out>, texts: Texts): seq<Frame> {
    if output == [] then []
    else (if IsCut(output[0]) then [] else [FrameOf(output[0], texts)]) + Whole(output[1..], texts)
  }

  // The output before the first write that broke half-way, and from there on.
  function Before(output: seq<Out>): seq<Out> {
    if output == [] || Breaks(output[0]) then [] else [output[0]] + Before(output[1..])
  }

  function From(output: seq<Out>): seq<Out> {
    if output == [] || Breaks(output[0]) then output else From(output[1..])
  }

  // A whole frame follows a write that broke half-way.
  ghost predicate Garbled(output: seq<Out>) {
    exists i, j :: 0 <= i < j < |output| && Breaks(output[i]) && !IsCut(output[j])
  }

  // A reply that cannot be written is the last thing written.
  predicate OnlyPongsCut(output: seq<Out>) {
    forall i :: 0 <= i < |output| - 1 ==> !output[i].CutResponse?
  }

  // ─── Bytes of single writes ─────────────────────────────────────────────────

  lemma BytesOfWhole(o: Out, texts: Texts, rest: Bytes)
    requires Short(texts) && !IsCut(o)
    ensures ReadAll(BytesOf(o, texts) + rest) == [FrameOf(o, texts)] + ReadAll(rest)
  {
    ReadEncoded(FrameOf(o, texts).opcode, FrameOf(o, texts).body, rest);
  }

  // Every write, unless it left nothing, starts with the opcode of a pong or of a text.
  lemma FirstByte(o: Out, texts: Texts)
    ensures var b := BytesOf(o, texts);
            if IsCut(o) && !Breaks(o) then b == [] else b != [] && (b[0] == 1 || b[0] == 4)
  {
    var frame := FrameOf(o, texts);
    var all := Encode(frame.opcode, frame.body);
    assert all[0] == Le4(Bits(frame.opcode))[0];
  }

  lemma {:induction false} FirstByteOnWire(output: seq<Out>, texts: Texts)
    requires Whole(output, texts) != []
    ensures var b := OnWire(output, texts); b != [] && (b[0] == 1 || b[0] == 4)
  {
    FirstByte(output[0], texts);
    if IsCut(output[0]) && !Breaks(output[0]) {
      FirstByteOnWire(output[1..], texts);
    }
  }

  lemma LowBytes(b: Bytes)
    requires |b| == 4
    ensures FromLe4(b) == 0 ==> b[0] == 0 && b[1] == 0 && b[2] == 0 && b[3] == 0
    ensures Signed(FromLe4(b)) == 4 ==> b[0] == 4 && b[1] == 0 && b[2] == 0 && b[3] == 0
    ensures Signed(FromLe4(b)) == 1 ==> b[0] == 1
  {
  }

  // What is read after some bytes of a pong is neither a pong nor a text, if it is anything.
  lemma AfterPongBytes(n: nat, data: Bytes)
    requires 1 <= n <= 7 && data != [] && (data[0] == 1 || data[0] == 4)
    ensures var read := ReadFrame(Encode(4, [])[..n] + data);
            read.Some? ==> read.value.0.opcode != 1 && read.value.0 != Frame(4, [])
  {
    var all := Encode(4, [])[..n] + data;
    assert Encode(4, []) == [4, 0, 0, 0, 0, 0, 0, 0];
    if |all| >= 8 {
      assert all[0] == 4 && all[n] == data[0];
      LowBytes(all[0..4]);
      LowBytes(all[4..8]);
      if n < 4 {
        assert all[0..4][n] != 0;
      } else {
        assert all[4..8][n - 4] != 0;
      }
    }
  }

  // ─── What the client reads ──────────────────────────────────────────────────

  lemma {:induction false} WholeOf(output: seq<Out>, texts: Texts)
    ensures Whole(output, texts) != [] <==> exists j :: 0 <= j < |output| && !IsCut(output[j])
  {
    if output != [] {
      WholeOf(output[1..], texts);
      if j :| 0 <= j < |output| && !IsCut(output[j]) {
        assert j > 0 ==> !IsCut(output[1..][j - 1]);
      }
    }
  }

  lemma GarbledFrom(output: seq<Out>, texts: Texts)
    requires output != []
    ensures Garbled(output) <==> (Breaks(output[0]) && Whole(output[1..], texts) != []) || Garbled(output[1..])
  {
    var rest := output[1..];
    WholeOf(rest, texts);
    if i, j :| 0 <= i < j < |output| && Breaks(output[i]) && !IsCut(output[j]) {
      assert !IsCut(rest[j - 1]);
      assert i > 0 ==> Breaks(rest[i - 1]);
    }
    if j :| 0 <= j < |rest| && !IsCut(rest[j]) {
      assert !IsCut(output[j + 1]);
    }
    if i, j :| 0 <= i < j < |rest| && Breaks(rest[i]) && !IsCut(rest[j]) {
      assert Breaks(output[i + 1]) && !IsCut(output[j + 1]);
    }
  }

  lemma Regrouped<T>(a: seq<T>, b: seq<T>, c: seq<T>)
    ensures a + (b + c) == (a + b) + c
  {
  }

  // One more output in front that did not break: what it adds to the frames, and to what is read.
  lemma InFront(o: Out, rest: seq<Out>, texts: Texts)
    requires Short(texts) && !Breaks(o)
    ensures Whole([o] + rest, texts) == Whole([o], texts) + Whole(rest, texts)
    ensures ReadAll(OnWire([o] + rest, texts)) == Whole([o], texts) + ReadAll(OnWire(rest, texts))
  {
    assert ([o] + rest)[1..] == rest && [o][1..] == [];
    if IsCut(o) {
      FirstByte(o, texts);
      assert OnWire([o] + rest, texts) == OnWire(rest, texts);
    } else {
      assert Whole([o], texts) == [FrameOf(o, texts)];
      BytesOfWhole(o, texts, OnWire(rest, texts));
    }
  }

  lemma {:induction false} SplitAtBreak(output: seq<Out>, texts: Texts)
    requires Short(texts)
    ensures Whole(output, texts) == Whole(Before(output), texts) + Whole(From(output), texts)
    ensures ReadAll(OnWire(output, texts)) == Whole(Before(output), texts) + ReadAll(OnWire(From(output), texts))
  {
    if output != [] && !Breaks(output[0]) {
      var o, rest := output[0], output[1..];
      assert output == [o] + rest;
      SplitAtBreak(rest, texts);
      InFront(o, rest, texts);
      InFront(o, Before(rest), texts);
      Regrouped(Whole([o], texts), Whole(Before(rest), texts), Whole(From(rest), texts));
      Regrouped(Whole([o], texts), Whole(Before(rest), texts), ReadAll(OnWire(From(rest), texts)));
    } else {
      assert Whole(Before(output), texts) == [];
    }
  }

  lemma {:induction false} FromBreaks(output: seq<Out>)
    ensures OnlyPongsCut(output) ==> OnlyPongsCut(From(output))
    ensures From(output) != [] ==> Breaks(From(output)[0])
  {
    if output != [] && !Breaks(output[0]) {
      FromBreaks(output[1..]);
    }
  }

  lemma {:induction false} GarbledFromFirstBreak(output: seq<Out>, texts: Texts)
    ensures Garbled(output) <==> Whole(From(output), texts) != []
  {
    if output != [] {
      GarbledFrom(output, texts);
      if !Breaks(output[0]) {
        GarbledFromFirstBreak(output[1..], texts);
      } else if Garbled(output[1..]) {
        WholeOf(output[1..], texts);
      }
    }
  }

  lemma {:induction false} FirstWhole(output: seq<Out>, texts: Texts)
    requires Whole(output, texts) != []
    ensures var f := Whole(output, texts)[0]; f.opcode == 1 || f == Frame(4, [])
  {
    if IsCut(output[0]) {
      FirstWhole(output[1..], texts);
    }
  }

  lemma NotReadFirst(frames: seq<Frame>, data: Bytes)
    requires frames != [] && (ReadFrame(data).Some? ==> ReadFrame(data).value.0 != frames[0])
    ensures !(frames <= ReadAll(data))
  {
  }

  // After a break no whole frame that follows is the next one read.
  lemma BreakGarbles(output: seq<Out>, texts: Texts)
    requires OnlyPongsCut(output) && output != [] && Breaks(output[0]) && Whole(output, texts) != []
    ensures !(Whole(output, texts) <= ReadAll(OnWire(output, texts)))
  {
    var rest, part := output[1..], BytesOf(output[0], texts);
    assert Whole(output, texts) == Whole(rest, texts);
    FirstByteOnWire(rest, texts);
    FirstWhole(rest, texts);
    assert part == Encode(4, [])[..|part|] && 1 <= |part| <= 7;
    AfterPongBytes(|part|, OnWire(rest, texts));
    NotReadFirst(Whole(rest, texts), part + OnWire(rest, texts));
  }

  lemma PrefixOfSum<T>(a: seq<T>, b: seq<T>, c: seq<T>)
    ensures a + b <= a + c <==> b <= c
    ensures a + b == a + c <==> b == c
    ensures a <= a + c
  {
    if a + b <= a + c {
      assert b == (a + b)[|a|..] && c[..|b|] == (a + c)[|a|..|a + b|];
    }
    if a + b == a + c {
      assert b == (a + b)[|a|..] && c == (a + c)[|a|..];
    }
  }

  /** The frames before the first broken write are always read. The client reads every frame
      written completely, in order, exactly when none follows a broken write; and reads
      nothing else exactly when, besides, the bytes of broken writes are no frame. */
  lemma WireReadsBack(output: seq<Out>, texts: Texts)
    requires Short(texts) && OnlyPongsCut(output)
    ensures var read := ReadAll(OnWire(output, texts));
            && Whole(Before(output), texts) <= read
            && (Whole(output, texts) <= read <==> !Garbled(output))
            && (Whole(output, texts) == read <==> !Garbled(output) && ReadFrame(OnWire(From(output), texts)).None?)
  {
    var from := From(output);
    SplitAtBreak(output, texts);
    FromBreaks(output);
    GarbledFromFirstBreak(output, texts);
    PrefixOfSum(Whole(Before(output), texts), Whole(from, texts), ReadAll(OnWire(from, texts)));
    if Garbled(output) {
      BreakGarbles(from, texts);
    }
  }

  // ─── Sessions ───────────────────────────────────────────────────────────────

  // While a session runs it has cut no reply.
  predicate CutsPongs(s: Session) {
    OnlyPongsCut(s.output) && (s.phase.Running? ==> forall i :: 0 <= i < |s.output| ==> !s.output[i].CutResponse?)
  }

  lemma TurnCutsPongs(id: nat, r: Run, input: Input)
    requires r.session.phase.Running? && CutsPongs(r.session)
    ensures CutsPongs(Turn(id, r, input).session)
  {
  }

  lemma {:induction false} TurnsCutPongs(id: nat, r: Run, inputs: seq<Input>)
    requires r.session.phase.Running? && CutsPongs(r.session)
    ensures CutsPongs(Turns(id, r, inputs).session)
  {
    if inputs != [] {
      var before := Turns(id, r, inputs[..|inputs| - 1]);
      TurnsCutPongs(id, r, inputs[..|inputs| - 1]);
      if before.session.phase.Running? {
        TurnCutsPongs(id, before, inputs[|inputs| - 1]);
      }
    }
  }

  // A single cut at the very end leaves less than a frame.
  lemma {:induction false} CutAtTheEnd(output: seq<Out>, texts: Texts)
    requires Short(texts) && forall i :: 0 <= i < |output| - 1 ==> !Breaks(output[i])
    ensures !Garbled(output) && ReadFrame(OnWire(From(output), texts)).None?
  {
    if output != [] {
      if Breaks(output[0]) {
        var frame, n := FrameOf(output[0], texts), |BytesOf(output[0], texts)|;
        assert OnWire(output, texts) == BytesOf(output[0], texts) + [] == Encode(frame.opcode, frame.body)[..n];
        PrefixReadsNothing(frame.opcode, frame.body, n);
      } else {
        CutAtTheEnd(output[1..], texts);
      }
    }
  }

  /** A client that reads a session's bytes frame by frame gets READY first and every frame
      before the first broken write. It gets every pong and reply written completely, in
      order, exactly when none was written after a broken pong; and it gets exactly those
      when only the last write broke. */
  lemma ClientReadsBack(id: nat, clientId: string, inputs: seq<Input>, texts: Texts)
    requires Short(texts)
    ensures var output := SessionRun(id, clientId, inputs).session.output;
            var read := ReadAll(OnWire(output, texts));
            && read != [] && read[0] == Frame(1, texts.ready)
            && Whole(Before(output), texts) <= read
            && (Whole(output, texts) <= read <==> !Garbled(output))
            && (Whole(output, texts) == read <==> !Garbled(output) && ReadFrame(OnWire(From(output), texts)).None?)
            && ((forall i :: 0 <= i < |output| - 1 ==> !Breaks(output[i])) ==> Whole(output, texts) == read)
  {
    var output := SessionRun(id, clientId, inputs).session.output;
    SessionConserves(id, clientId, inputs);
    TurnsCutPongs(id, Run(Greet(Fresh(clientId), true).(phase := Running), [], []), inputs);
    WireReadsBack(output, texts);
    if forall i :: 0 <= i < |output| - 1 ==> !Breaks(output[i]) {
      CutAtTheEnd(output, texts);
    }
    BytesOfWhole(Ready, texts, OnWire(output[1..], texts));
  }

  // The bodies of the text frames, and how many frames are pongs.
  function TextsIn(frames: seq<Frame>): seq<Bytes> {
    if frames == [] then []
    else
      var last := frames[|frames| - 1];
      TextsIn(frames[..|frames| - 1]) + if last.opcode == 1 then [last.body] else []
  }

  function PongsIn(frames: seq<Frame>): nat {
    if frames == [] then 0
    else PongsIn(frames[..|frames| - 1]) + if frames[|frames| - 1] == Frame(4, []) then 1 else 0
  }

  function Bodies(replies: seq<Reply>, json: Reply -> Bytes): seq<Bytes> {
    if replies == [] then [] else Bodies(replies[..|replies| - 1], json) + [json(replies[|replies| - 1])]
  }

  lemma {:induction false} WholeOneMore(output: seq<Out>, o: Out, texts: Texts)
    ensures Whole(output + [o], texts) == Whole(output, texts) + if IsCut(o) then [] else [FrameOf(o, texts)]
  {
    if output == [] {
      assert [o][1..] == [] && [] + [o] == [o];
    } else {
      assert (output + [o])[1..] == output[1..] + [o];
      WholeOneMore(output[1..], o, texts);
    }
  }

  lemma FrameMore(frames: seq<Frame>, frame: Frame)
    ensures TextsIn(frames + [frame]) == TextsIn(frames) + if frame.opcode == 1 then [frame.body] else []
    ensures PongsIn(frames + [frame]) == PongsIn(frames) + if frame == Frame(4, []) then 1 else 0
  {
    assert (frames + [frame])[..|frames|] == frames;
  }

  lemma BodiesMore(replies: seq<Reply>, reply: Reply, json: Reply -> Bytes)
    ensures Bodies(replies + [reply], json) == Bodies(replies, json) + [json(reply)]
  {
    assert (replies + [reply])[..|replies|] == replies;
  }

  // The frames of an output are the texts of its replies and its pongs.
  predicate TextsAndPongs(output: seq<Out>, texts: Texts) {
    var frames := Whole(output, texts);
    && TextsIn(frames) == Bodies(Replies(output), texts.json) && PongsIn(frames) == PongsOf(output)
    && |frames| == |TextsIn(frames)| + PongsIn(frames)
  }

  lemma OneMoreText(output: seq<Out>, reply: Reply, texts: Texts)
    requires TextsAndPongs(output, texts)
    ensures TextsAndPongs(output + [Response(reply)], texts)
  {
    WholeOneMore(output, Response(reply), texts);
    FrameMore(Whole(output, texts), Frame(1, texts.json(reply)));
    BodiesMore(Replies(output), reply, texts.json);
    RepliesOneMore(output, Response(reply));
    PongsOneMore(output, Response(reply));
  }

  lemma OneMorePong(output: seq<Out>, texts: Texts)
    requires TextsAndPongs(output, texts)
    ensures TextsAndPongs(output + [Pong], texts)
  {
    WholeOneMore(output, Pong, texts);
    FrameMore(Whole(output, texts), Frame(4, []));
    RepliesOneMore(output, Pong);
    PongsOneMore(output, Pong);
    AddNothing(TextsIn(Whole(output, texts)), Replies(output), output);
  }

  lemma {:induction false} WholeIsTextsAndPongs(output: seq<Out>, texts: Texts)
    requires IsWhole(output) && Ready !in output
    ensures TextsAndPongs(output, texts)
  {
    if output != [] {
      var init, o := output[..|output| - 1], output[|output| - 1];
      assert output == init + [o] && o in output;
      WholeIsTextsAndPongs(init, texts);
      if o.Response? {
        OneMoreText(init, o.reply, texts);
      } else {
        OneMorePong(init, texts);
      }
    }
  }

  lemma {:induction false} ReadyInFront(output: seq<Out>, texts: Texts)
    ensures Replies([Ready] + output) == Replies(output) && PongsOf([Ready] + output) == PongsOf(output)
  {
    var all := [Ready] + output;
    if output == [] {
      assert all == [Ready] && [Ready][..0] == [];
    } else {
      assert all[..|all| - 1] == [Ready] + output[..|output| - 1];
      ReadyInFront(output[..|output| - 1], texts);
    }
  }

  /** What the client of a session reads, as long as every write succeeds: READY, then, among
      the texts of the replies written, in order, one `Frame(4, [])` for each ping. */
  lemma OnePongPerPing(id: nat, clientId: string, inputs: seq<Input>, texts: Texts)
    requires Short(texts) && Unbroken(inputs)
    requires SessionRun(id, clientId, inputs).session.phase.Running?
    ensures var output := SessionRun(id, clientId, inputs).session.output;
            var read := ReadAll(OnWire(output, texts));
            && read != [] && read[0] == Frame(1, texts.ready)
            && TextsIn(read[1..]) == Bodies(Replies(output), texts.json)
            && PongsIn(read[1..]) == PingsOf(inputs)
            && |read| == 1 + |TextsIn(read[1..])| + PongsIn(read[1..])
  {
    var output := SessionRun(id, clientId, inputs).session.output;
    ClientReadsBack(id, clientId, inputs, texts);
    SessionConserves(id, clientId, inputs);
    UnbrokenIsWhole(id, clientId, inputs);
    PingsAreAnswered(id, clientId, inputs);
    assert output == [Ready] + output[1..];
    ReadyInFront(output[1..], texts);
    WholeIsTextsAndPongs(output[1..], texts);
    assert Whole(output, texts)[1..] == Whole(output[1..], texts);
  }

  // The session of the next example: a ping, a request, a flush.
  function PingThenRequest(rpc: Rpc): seq<Input> {
    [PingFrame(Broke(1)), Request(rpc), Flush(Written)]
  }

  lemma PingThenRequestRun(id: nat, clientId: string, rpc: Rpc)
    requires ReplyOf(clientId, rpc).Some?
    ensures SessionRun(id, clientId, PingThenRequest(rpc)).session.output ==
            [Ready, CutPong(1), Response(ReplyOf(clientId, rpc).value)]
  {
    var start := Run(Greet(Fresh(clientId), true).(phase := Running), [], []);
    TurnsOneMore(id, start, [], PingFrame(Broke(1)));
    TurnsOneMore(id, start, [PingFrame(Broke(1))], Request(rpc));
    TurnsOneMore(id, start, [PingFrame(Broke(1)), Request(rpc)], Flush(Written));
    assert [] + [PingFrame(Broke(1))] == [PingFrame(Broke(1))];
    assert [PingFrame(Broke(1))] + [Request(rpc)] == [PingFrame(Broke(1)), Request(rpc)];
    assert [PingFrame(Broke(1)), Request(rpc)] + [Flush(Written)] == PingThenRequest(rpc);
  }

  lemma AfterReady(reply: Reply, texts: Texts)
    ensures OnWire([Ready, CutPong(1), Response(reply)], texts) ==
            BytesOf(Ready, texts) + ([4] + Encode(1, texts.json(reply)))
  {
    var output := [Ready, CutPong(1), Response(reply)];
    assert output[1..] == [CutPong(1), Response(reply)] && output[1..][1..] == [Response(reply)];
    assert OnWire([Response(reply)], texts) == Encode(1, texts.json(reply)) + [] == Encode(1, texts.json(reply));
    assert Encode(4, [])[..1] == [4];
  }

  /** It happens: of the pong only one byte gets out, then the reply to a request is written
      whole. The client does not get it, whatever it says; of a reply below 2^24 bytes it
      sees nothing at all. */
  lemma BrokenPongHidesReply(id: nat, clientId: string, rpc: Rpc, texts: Texts)
    requires Short(texts) && ReplyOf(clientId, rpc).Some?
    ensures var reply := ReplyOf(clientId, rpc).value;
            var output := SessionRun(id, clientId, PingThenRequest(rpc)).session.output;
            && Whole(output, texts) == [Frame(1, texts.ready), Frame(1, texts.json(reply))]
            && !(Whole(output, texts) <= ReadAll(OnWire(output, texts)))
            && (1 <= |texts.json(reply)| < 0x100_0000 ==> ReadAll(OnWire(output, texts)) == [Frame(1, texts.ready)])
  {
    var reply := ReplyOf(clientId, rpc).value;
    var output := [Ready, CutPong(1), Response(reply)];
    PingThenRequestRun(id, clientId, rpc);
    WireReadsBack(output, texts);
    assert Breaks(output[1]) && !IsCut(output[2]);
    assert output[1..] == [CutPong(1), Response(reply)] && output[1..][1..] == [Response(reply)];
    assert Whole([Response(reply)], texts) == [Frame(1, texts.json(reply))] + [];
    if 1 <= |texts.json(reply)| < 0x100_0000 {
      AfterReady(reply, texts);
      BytesOfWhole(Ready, texts, [4] + Encode(1, texts.json(reply)));
      ShiftedFrame(4, 1, texts.json(reply));
    }
  }
}
