/** The whole program as one step system: any number of sessions, the scanner, the activity
    channel, the bridge feeder and the bridge's clients, interleaved in any way. */
module System {
  import opened Wrappers
  import opened Bridge
  import B = Bridge
  import opened Server
  import opened Session
  import opened Scanner

  const CHANNEL_CAPACITY: nat := 64

  // A scan under way: the sightings so far; then, `ended`, the lost pids still to clear.
  // When it began, `start` was tracked, and `shown` is what socket 0 was to show.
  datatype Scan = Scan(
    active: Active, seen: seq<Sighting>, ended: bool, lost: Active, start: Active, shown: Option<Event>)

  // `inputs` is what each session's turns were about. `emitted` is everything ever sent on
  // the activity channel, `received` how far the feeder is, and `lost` what it never got.
  datatype System = System(
    nextId: nat, sockets: map<nat, seq<Reply>>, sessions: map<nat, Session>, inputs: map<nat, seq<Input>>,
    scan: Scan, emitted: seq<Event>, received: nat, lost: set<nat>, bridge: Bridge)

  datatype Action =
    | Connect(clientId: string)
    | WriteReady(id: nat, written: bool)
    | Register(id: nat)
    | Select(id: nat, input: Input)
    | Remove(id: nat)
    | Clear(id: nat)
    | BeginScan
    | Sight(sighting: Sighting)
    | EndPass
    | Lose(pid: Pid)
    | Feed
    | BridgeStep(step: Step)

  const START: System := System(1, map[], map[], map[], Scan(map[], [], true, map[], map[], None), [], 0, {}, B.INIT)

  function QueueOf(s: System, id: nat): seq<Reply> {
    if id in s.sockets then s.sockets[id] else []
  }

  function InputsOf(s: System, id: nat): seq<Input> {
    if id in s.inputs then s.inputs[id] else []
  }

  predicate InPhase(s: System, id: nat, phase: Phase) {
    id in s.sessions && s.sessions[id].phase == phase
  }

  function SetPhase(s: System, id: nat, phase: Phase): System
    requires id in s.sessions
  {
    s.(sessions := s.sessions[id := s.sessions[id].(phase := phase)])
  }

  // Sending on the channel: when the feeder is a full channel behind, its oldest unread
  // event is overwritten.
  function Emit(s: System, e: Event): System {
    if |s.emitted| < s.received + CHANNEL_CAPACITY then s.(emitted := s.emitted + [e])
    else s.(emitted := s.emitted + [e], received := s.received + 1, lost := s.lost + {s.received})
  }

  function EmitAll(s: System, events: seq<Event>): System {
    if events == [] then s else Emit(EmitAll(s, events[..|events| - 1]), events[|events| - 1])
  }

  // What the scanner tracks: the games it keeps, and those it has yet to clear.
  function Tracked(scan: Scan): Active {
    scan.active + scan.lost
  }

  // The end of a pass over the process list: pids without a match are lost.
  function Ended(scan: Scan): Scan {
    var present := Matches(scan.seen).Keys;
    scan.(ended := true, active := scan.active - (scan.active.Keys - present), lost := scan.active - present)
  }

  // A scan that begins when another has ended.
  function Next(scan: Scan): Scan {
    scan.(seen := [], ended := false, start := scan.active, shown := Shown(scan.shown, scan.start, scan.seen))
  }

  // A scan after one more sighting, its event not sent yet.
  function WithSighting(scan: Scan, sighting: Sighting): Scan {
    scan.(active := Tracking(scan.active, sighting), seen := scan.seen + [sighting])
  }

  ghost predicate Enabled(s: System, a: Action) {
    match a
    case Connect(_) => s.nextId + 1 < U64
    case WriteReady(id, _) => InPhase(s, id, Greeting)
    case Register(id) => InPhase(s, id, Greeted)
    case Select(id, _) => InPhase(s, id, Running)
    case Remove(id) => InPhase(s, id, Leaving)
    case Clear(id) => InPhase(s, id, Removed)
    case BeginScan => s.scan.ended && s.scan.lost == map[]
    case Sight(_) => !s.scan.ended
    case EndPass => !s.scan.ended
    case Lose(pid) => pid in s.scan.lost
    case Feed => s.received < |s.emitted| && s.bridge.inflight.None?
    case BridgeStep(step) => !step.Update? && B.Enabled(s.bridge, step)
  }

  // A session after one turn, its events not sent yet.
  function Turned(s: System, id: nat, input: Input, r: Run): System {
    s.(sessions := s.sessions[id := r.session], sockets := s.sockets[id := r.queue],
       inputs := s.inputs[id := InputsOf(s, id) + [input]])
  }

  ghost function Apply(s: System, a: Action): System
    requires Inv(s) && Enabled(s, a)
  {
    match a
    case Connect(clientId) => s.(sessions := s.sessions[s.nextId := Fresh(clientId)], nextId := s.nextId + 1)
    case WriteReady(id, written) => s.(sessions := s.sessions[id := Greet(s.sessions[id], written)])
    case Register(id) => SetPhase(s, id, Running).(sockets := s.sockets[id := []])
    case Select(id, input) =>
      var r := Turn(id, Run(s.sessions[id], QueueOf(s, id), []), input);
      EmitAll(Turned(s, id, input, r), r.events)
    case Remove(id) => SetPhase(s, id, Removed).(sockets := s.sockets - {id})
    case Clear(id) => EmitAll(SetPhase(s, id, Done), [Event(None, None, id)])
    case BeginScan => s.(scan := Next(s.scan))
    case Sight(sighting) =>
      EmitAll(s.(scan := WithSighting(s.scan, sighting)), NewEvents(s.scan.active, sighting))
    case EndPass => s.(scan := Ended(s.scan))
    case Lose(pid) => EmitAll(s.(scan := s.scan.(lost := s.scan.lost - {pid})), [ClearEvent(pid)])
    case Feed => s.(bridge := FeedUpdate(s.bridge, s.emitted[s.received]), received := s.received + 1)
    case BridgeStep(step) => s.(bridge := B.Apply(s.bridge, step))
  }

  // ─── One socket's events ────────────────────────────────────────────────────

  function OfSocket(events: seq<Event>, k: nat): seq<Event> {
    if events == [] then []
    else
      var last := events[|events| - 1];
      OfSocket(events[..|events| - 1], k) + if last.socket == k then [last] else []
  }

  lemma OfSocketOneMore(events: seq<Event>, e: Event, k: nat)
    ensures OfSocket(events + [e], k) == OfSocket(events, k) + if e.socket == k then [e] else []
  {
    assert (events + [e])[..|events|] == events;
  }

  lemma {:induction false} LatestIsLast(events: seq<Event>, k: nat)
    ensures var mine := OfSocket(events, k);
            && (mine == [] <==> Latest(events, k).None?)
            && (mine != [] ==> mine[|mine| - 1] == events[Latest(events, k).value])
  {
    if events != [] {
      LatestIsLast(events[..|events| - 1], k);
    }
  }

  // ─── The invariant ──────────────────────────────────────────────────────────

  // The session, its queue and its events are those of a run of this session alone.
  ghost predicate Alone(s: System, id: nat)
    requires id in s.sessions
  {
    var session, mine := s.sessions[id], OfSocket(s.emitted, id);
    var r := SessionRun(id, session.clientId, InputsOf(s, id));
    match session.phase
    case Greeting => session == Fresh(session.clientId) && mine == [] && InputsOf(s, id) == []
    case Refused => session == Greet(Fresh(session.clientId), false) && mine == [] && InputsOf(s, id) == []
    case Greeted => session == Greet(Fresh(session.clientId), true) && mine == [] && InputsOf(s, id) == []
    case Running => r == Run(session, QueueOf(s, id), mine)
    case Leaving => r == Run(session, QueueOf(s, id), mine)
    case Removed => r.session == session.(phase := Leaving) && mine == r.events
    case Done => r.session == session.(phase := Leaving) && mine == r.events + [Event(None, None, id)]
  }

  ghost predicate SessionOk(s: System, id: nat) {
    && (id in s.sockets <==> InPhase(s, id, Running) || InPhase(s, id, Leaving))
    && (id in s.sessions ==> 1 <= id < s.nextId && Alone(s, id))
    && (id !in s.sessions ==> InputsOf(s, id) == [] && (id != 0 ==> OfSocket(s.emitted, id) == []))
  }

  // For socket k: the board holds nothing that was never emitted, and agrees with the
  // latest event once the feeder has passed it, unless that very event was overwritten.
  ghost predicate BoardOk(s: System, k: nat) {
    var at := Latest(s.emitted, k);
    && (k in s.bridge.last ==> at.Some?)
    && (at.Some? && at.value < s.received && at.value !in s.lost ==> Get(s.bridge.last, k) == Value(s.emitted[at.value]))
  }

  // What socket 0 is to show after these events.
  function LastShown(mine: seq<Event>): Option<Event> {
    if mine == [] then None else Value(mine[|mine| - 1])
  }

  // The scanner's events replay to what it tracks, and a pass leaves it with its matches.
  ghost predicate Follows(scan: Scan, mine: seq<Event>) {
    && AllScan(mine) && Replay(map[], mine) == Tracked(scan)
    && scan.active.Keys !! scan.lost.Keys
    && (scan.ended ==> scan.active == Matches(scan.seen))
    && (!scan.ended ==> scan.lost == map[] && scan.active == TrackAll(scan.start, scan.seen))
  }

  // And the last of them is what the scans so far come down to.
  ghost predicate Shows(scan: Scan, mine: seq<Event>) {
    var pass, losses := ShownAfterPass(scan.shown, scan.start, scan.seen), Losses(scan.start, scan.seen);
    && (!scan.ended ==> LastShown(mine) == pass)
    && (scan.ended ==> scan.lost.Keys <= losses && LastShown(mine) == if scan.lost.Keys == losses then pass else None)
  }

  ghost predicate ScanOk(scan: Scan, mine: seq<Event>) {
    Follows(scan, mine) && Shows(scan, mine)
  }

  ghost predicate Inv(s: System) {
    && 1 <= s.nextId < U64
    && s.received <= |s.emitted| && (forall i :: i in s.lost ==> i < s.received)
    && B.Inv(s.bridge)
    && (forall id: nat :: SessionOk(s, id))
    && (forall k: nat :: BoardOk(s, k))
    && ScanOk(s.scan, OfSocket(s.emitted, 0))
  }

  lemma EmitKeepsBoard(s: System, e: Event, k: nat)
    requires BoardOk(s, k) && s.received <= |s.emitted|
    ensures BoardOk(Emit(s, e), k)
  {
    LatestOfAppended(s.emitted, e, k);
  }

  // A turn and a sighting emit at most one event.
  predicate AtMostOne(events: seq<Event>, id: nat) {
    events == [] || (|events| == 1 && events[0].socket == id)
  }

  lemma EmitSome(s: System, events: seq<Event>, id: nat)
    requires AtMostOne(events, id) && s.received <= |s.emitted| && forall i :: i in s.lost ==> i < s.received
    ensures var s' := EmitAll(s, events);
            && s' == s.(emitted := s.emitted + events, received := s'.received, lost := s'.lost)
            && s'.received <= |s'.emitted| && (forall i :: i in s'.lost ==> i < s'.received)
            && (|s.emitted| < s.received + CHANNEL_CAPACITY ==> s'.lost == s.lost)
            && (forall k: nat :: BoardOk(s, k) ==> BoardOk(s', k))
            && (forall k: nat :: OfSocket(s'.emitted, k) == if k == id then OfSocket(s.emitted, k) + events else OfSocket(s.emitted, k))
  {
    if events == [] {
      assert s.emitted + events == s.emitted;
      assert forall k: nat :: OfSocket(s.emitted, k) + events == OfSocket(s.emitted, k);
    } else {
      assert events == [events[0]] && events[..0] == [];
      forall k: nat
        ensures BoardOk(s, k) ==> BoardOk(EmitAll(s, events), k)
        ensures OfSocket(s.emitted + events, k) == OfSocket(s.emitted, k) + if k == id then events else []
      {
        OfSocketOneMore(s.emitted, events[0], k);
        if BoardOk(s, k) {
          EmitKeepsBoard(s, events[0], k);
        }
      }
    }
  }

  lemma TurnEmits(id: nat, r: Run, input: Input)
    requires r.events == []
    ensures AtMostOne(Turn(id, r, input).events, id)
  {
  }

  // One turn of a session is one more turn of its run alone.
  lemma TurnStaysAlone(s: System, id: nat, input: Input)
    requires SessionOk(s, id) && InPhase(s, id, Running)
    ensures var turn := Turn(id, Run(s.sessions[id], QueueOf(s, id), []), input);
            SessionRun(id, s.sessions[id].clientId, InputsOf(s, id) + [input]) ==
            turn.(events := OfSocket(s.emitted, id) + turn.events)
    ensures var turn := Turn(id, Run(s.sessions[id], QueueOf(s, id), []), input);
            turn.session.clientId == s.sessions[id].clientId && (turn.session.phase.Running? || turn.session.phase.Leaving?)
  {
    var session := s.sessions[id];
    var r := Run(session, QueueOf(s, id), OfSocket(s.emitted, id));
    TurnsOneMore(id, Run(Greet(Fresh(session.clientId), true).(phase := Running), [], []), InputsOf(s, id), input);
    TurnEvents(id, r, input);
  }

  lemma OthersStay(s: System, s': System, j: nat)
    requires SessionOk(s, j)
    requires s.nextId <= s'.nextId
    requires j in s'.sessions <==> j in s.sessions
    requires j in s.sessions ==> s'.sessions[j] == s.sessions[j]
    requires j in s'.sockets <==> j in s.sockets
    requires QueueOf(s', j) == QueueOf(s, j) && InputsOf(s', j) == InputsOf(s, j)
    requires j != 0 ==> OfSocket(s'.emitted, j) == OfSocket(s.emitted, j)
    ensures SessionOk(s', j)
  {
  }

  lemma SelectKeeps(s: System, id: nat, input: Input)
    requires Inv(s) && Enabled(s, Select(id, input))
    ensures Inv(Apply(s, Select(id, input)))
  {
    var start := Run(s.sessions[id], QueueOf(s, id), []);
    var r := Turn(id, start, input);
    var s1 := Turned(s, id, input, r);
    var s' := Apply(s, Select(id, input));
    assert SessionOk(s, id);
    TurnEmits(id, start, input);
    TurnStaysAlone(s, id, input);
    EmitSome(s1, r.events, id);
    forall j: nat
      ensures SessionOk(s', j) && BoardOk(s', j)
    {
      assert SessionOk(s, j) && BoardOk(s, j);
      assert BoardOk(s1, j);
      if j != id {
        OthersStay(s, s', j);
      }
    }
  }

  // All sessions but `id` are as they were.
  lemma OthersKeep(s: System, s': System, id: nat)
    requires forall j: nat :: SessionOk(s, j)
    requires s.nextId <= s'.nextId && id in s'.sessions && s'.sessions == s.sessions[id := s'.sessions[id]]
    requires forall j :: j != id ==> (j in s'.sockets <==> j in s.sockets) && QueueOf(s', j) == QueueOf(s, j)
    requires forall j: nat :: j != id ==> InputsOf(s', j) == InputsOf(s, j) && OfSocket(s'.emitted, j) == OfSocket(s.emitted, j)
    ensures forall j: nat :: j != id ==> SessionOk(s', j)
  {
    forall j: nat | j != id
      ensures SessionOk(s', j)
    {
      assert SessionOk(s, j);
      OthersStay(s, s', j);
    }
  }

  lemma ClearedSession(s: System, id: nat)
    requires Inv(s) && Enabled(s, Clear(id))
    ensures SessionOk(Apply(s, Clear(id)), id)
  {
    assert SessionOk(s, id);
    EmitSome(SetPhase(s, id, Done), [Event(None, None, id)], id);
  }

  lemma ClearKeeps(s: System, id: nat)
    requires Inv(s) && Enabled(s, Clear(id))
    ensures Inv(Apply(s, Clear(id)))
  {
    var s1 := SetPhase(s, id, Done);
    var s' := Apply(s, Clear(id));
    assert SessionOk(s, id);
    EmitSome(s1, [Event(None, None, id)], id);
    ClearedSession(s, id);
    OthersKeep(s, s', id);
    forall j: nat
      ensures BoardOk(s', j)
    {
      assert BoardOk(s, j);
      assert BoardOk(s1, j);
    }
  }

  lemma ConnectKeeps(s: System, clientId: string)
    requires Inv(s) && Enabled(s, Connect(clientId))
    ensures Inv(Apply(s, Connect(clientId)))
  {
    var s' := Apply(s, Connect(clientId));
    assert SessionOk(s, s.nextId);
    forall j: nat
      ensures SessionOk(s', j) && BoardOk(s', j)
    {
      assert SessionOk(s, j) && BoardOk(s, j);
      if j != s.nextId {
        OthersStay(s, s', j);
      }
    }
  }

  // Only session `id` has moved, and nothing was emitted.
  lemma OneMoves(s: System, s': System, id: nat)
    requires Inv(s) && id in s.sessions && id in s'.sessions && SessionOk(s', id)
    requires s' == s.(sessions := s.sessions[id := s'.sessions[id]], sockets := s'.sockets)
    requires forall j :: j != id ==> (j in s'.sockets <==> j in s.sockets) && QueueOf(s', j) == QueueOf(s, j)
    ensures Inv(s')
  {
    forall j: nat
      ensures SessionOk(s', j) && BoardOk(s', j)
    {
      assert SessionOk(s, j) && BoardOk(s, j);
      if j != id {
        OthersStay(s, s', j);
      }
    }
  }

  lemma GreetKeeps(s: System, id: nat, written: bool)
    requires Inv(s) && Enabled(s, WriteReady(id, written))
    ensures Inv(Apply(s, WriteReady(id, written)))
  {
    assert SessionOk(s, id);
    OneMoves(s, Apply(s, WriteReady(id, written)), id);
  }

  lemma RegisterKeeps(s: System, id: nat)
    requires Inv(s) && Enabled(s, Register(id))
    ensures Inv(Apply(s, Register(id)))
  {
    assert SessionOk(s, id);
    OneMoves(s, Apply(s, Register(id)), id);
  }

  lemma RemoveKeeps(s: System, id: nat)
    requires Inv(s) && Enabled(s, Remove(id))
    ensures Inv(Apply(s, Remove(id)))
  {
    assert SessionOk(s, id);
    OneMoves(s, Apply(s, Remove(id)), id);
  }

  lemma ScanStepSessions(s: System, s': System, events: seq<Event>)
    requires s' == s.(scan := s'.scan, emitted := s.emitted + events, received := s'.received, lost := s'.lost)
    requires forall k: nat :: k != 0 ==> OfSocket(s'.emitted, k) == OfSocket(s.emitted, k)
    requires forall j: nat :: SessionOk(s, j)
    ensures forall j: nat :: SessionOk(s', j)
  {
    forall j: nat
      ensures SessionOk(s', j)
    {
      assert SessionOk(s, j);
      OthersStay(s, s', j);
    }
  }

  // The scanner's steps leave the sessions alone.
  lemma ScanStepKeeps(s: System, scan: Scan, events: seq<Event>)
    requires Inv(s) && AtMostOne(events, 0)
    requires ScanOk(scan, OfSocket(s.emitted, 0) + events)
    ensures Inv(EmitAll(s.(scan := scan), events))
  {
    var s1 := s.(scan := scan);
    var s' := EmitAll(s1, events);
    EmitSome(s1, events, 0);
    assert OfSocket(s'.emitted, 0) == OfSocket(s.emitted, 0) + events;
    ScanStepSessions(s, s', events);
    forall j: nat
      ensures BoardOk(s', j)
    {
      assert BoardOk(s, j);
      assert BoardOk(s1, j);
    }
  }

  lemma PassOneMore(start: Active, seen: seq<Sighting>, sighting: Sighting)
    ensures TrackAll(start, seen + [sighting]) == Tracking(TrackAll(start, seen), sighting)
    ensures EventsOfAll(start, seen + [sighting]) == EventsOfAll(start, seen) + NewEvents(TrackAll(start, seen), sighting)
  {
    assert (seen + [sighting])[..|seen|] == seen;
  }

  lemma SilentSightFollows(scan: Scan, mine: seq<Event>, sighting: Sighting)
    requires Follows(scan, mine) && !scan.ended && NewEvents(scan.active, sighting) == []
    ensures Follows(WithSighting(scan, sighting), mine)
  {
    PassOneMore(scan.start, scan.seen, sighting);
    assert Tracking(scan.active, sighting) == scan.active;
  }

  lemma NewSightFollows(scan: Scan, mine: seq<Event>, sighting: Sighting)
    requires Follows(scan, mine) && !scan.ended && sighting.game.Some?
    ensures Follows(WithSighting(scan, sighting), mine + [SetEvent(sighting.pid, sighting.game.value)])
  {
    PassOneMore(scan.start, scan.seen, sighting);
    OneMoreEvent(map[], mine, SetEvent(sighting.pid, sighting.game.value));
    assert Tracked(scan) == scan.active && Tracked(WithSighting(scan, sighting)) == WithSighting(scan, sighting).active;
  }

  lemma SightFollows(scan: Scan, mine: seq<Event>, sighting: Sighting)
    requires Follows(scan, mine) && !scan.ended
    ensures Follows(WithSighting(scan, sighting), mine + NewEvents(scan.active, sighting))
  {
    if NewEvents(scan.active, sighting) == [] {
      SilentSightFollows(scan, mine, sighting);
      assert mine + [] == mine;
    } else {
      NewSightFollows(scan, mine, sighting);
    }
  }

  lemma SightShows(scan: Scan, mine: seq<Event>, sighting: Sighting)
    requires ScanOk(scan, mine) && !scan.ended
    ensures Shows(WithSighting(scan, sighting), mine + NewEvents(scan.active, sighting))
  {
    var events := NewEvents(scan.active, sighting);
    PassOneMore(scan.start, scan.seen, sighting);
    if events == [] {
      assert mine + events == mine;
      assert EventsOfAll(scan.start, scan.seen) + events == EventsOfAll(scan.start, scan.seen);
    }
  }

  lemma EndPassFollows(scan: Scan, mine: seq<Event>)
    requires ScanOk(scan, mine) && !scan.ended
    ensures ScanOk(Ended(scan), mine)
  {
    PassTracks(scan.start, scan.seen);
    assert Tracked(scan) == scan.active == Tracked(Ended(scan));
    assert Ended(scan).lost.Keys == Losses(scan.start, scan.seen);
    SameEverywhere(Ended(scan).active, Matches(scan.seen));
  }

  lemma LoseFollows(scan: Scan, mine: seq<Event>, pid: Pid)
    requires ScanOk(scan, mine) && pid in scan.lost
    ensures ScanOk(scan.(lost := scan.lost - {pid}), mine + [ClearEvent(pid)])
  {
    OneMoreEvent(map[], mine, ClearEvent(pid));
    assert Tracked(scan) - {pid} == Tracked(scan.(lost := scan.lost - {pid}));
    assert pid in Losses(scan.start, scan.seen) && pid !in (scan.lost - {pid}).Keys;
  }

  lemma BeginFollows(scan: Scan, mine: seq<Event>)
    requires ScanOk(scan, mine) && scan.ended && scan.lost == map[]
    ensures ScanOk(Next(scan), mine)
  {
    assert scan.lost.Keys == {};
  }

  lemma ScannerKeeps(s: System, a: Action)
    requires Inv(s) && Enabled(s, a) && (a.BeginScan? || a.Sight? || a.EndPass? || a.Lose?)
    ensures Inv(Apply(s, a))
  {
    var scan, mine := s.scan, OfSocket(s.emitted, 0);
    assert mine + [] == mine;
    match a {
      case BeginScan =>
        BeginFollows(scan, mine);
        ScanStepKeeps(s, Next(scan), []);
      case Sight(sighting) =>
        SightFollows(scan, mine, sighting);
        SightShows(scan, mine, sighting);
        ScanStepKeeps(s, WithSighting(scan, sighting), NewEvents(scan.active, sighting));
      case EndPass =>
        EndPassFollows(scan, mine);
        ScanStepKeeps(s, Ended(scan), []);
      case Lose(pid) =>
        LoseFollows(scan, mine, pid);
        ScanStepKeeps(s, scan.(lost := scan.lost - {pid}), [ClearEvent(pid)]);
    }
  }

  lemma FeedKeepsBoard(s: System, k: nat)
    requires BoardOk(s, k) && s.received < |s.emitted| && s.bridge.inflight.None?
    ensures BoardOk(s.(bridge := FeedUpdate(s.bridge, s.emitted[s.received]), received := s.received + 1), k)
  {
  }

  lemma BridgeKeeps(s: System, a: Action)
    requires Inv(s) && Enabled(s, a) && (a.Feed? || a.BridgeStep?)
    ensures Inv(Apply(s, a))
  {
    var s' := Apply(s, a);
    B.StepKeeps(s.bridge, if a.Feed? then Update(s.emitted[s.received]) else a.step);
    forall j: nat
      ensures SessionOk(s', j) && BoardOk(s', j)
    {
      assert SessionOk(s, j) && BoardOk(s, j);
      OthersStay(s, s', j);
      if a.Feed? {
        FeedKeepsBoard(s, j);
      }
    }
  }

  /** Every action of any part keeps the invariant of the whole. */
  lemma ActionKeeps(s: System, a: Action)
    requires Inv(s) && Enabled(s, a)
    ensures Inv(Apply(s, a))
  {
    match a {
      case Connect(clientId) => ConnectKeeps(s, clientId);
      case WriteReady(id, written) => GreetKeeps(s, id, written);
      case Register(id) => RegisterKeeps(s, id);
      case Select(id, input) => SelectKeeps(s, id, input);
      case Remove(id) => RemoveKeeps(s, id);
      case Clear(id) => ClearKeeps(s, id);
      case BeginScan => ScannerKeeps(s, a);
      case Sight(_) => ScannerKeeps(s, a);
      case EndPass => ScannerKeeps(s, a);
      case Lose(_) => ScannerKeeps(s, a);
      case Feed => BridgeKeeps(s, a);
      case BridgeStep(_) => BridgeKeeps(s, a);
    }
  }

  // ─── Runs ───────────────────────────────────────────────────────────────────

  ghost predicate IsRun(s: System, actions: seq<Action>, s': System)
    requires Inv(s)
    decreases |actions|
  {
    if actions == [] then s' == s
    else Enabled(s, actions[0]) && (ActionKeeps(s, actions[0]); IsRun(Apply(s, actions[0]), actions[1..], s'))
  }

  lemma StartInv()
    ensures Inv(START)
  {
    B.InitInv();
  }

  ghost predicate Reachable(s: System) {
    StartInv();
    exists actions :: IsRun(START, actions, s)
  }

  lemma {:induction false} RunKeeps(s: System, actions: seq<Action>, s': System)
    requires Inv(s) && IsRun(s, actions, s')
    ensures Inv(s')
    decreases |actions|
  {
    if actions != [] {
      ActionKeeps(s, actions[0]);
      RunKeeps(Apply(s, actions[0]), actions[1..], s');
    }
  }

  lemma ReachableInv(s: System)
    requires Reachable(s)
    ensures Inv(s)
  {
    StartInv();
    var actions :| IsRun(START, actions, s);
    RunKeeps(START, actions, s);
  }

  // ─── What the board shows ───────────────────────────────────────────────────

  // What the feeder has not received yet.
  function Pending(s: System): seq<Event>
    requires s.received <= |s.emitted|
  {
    s.emitted[s.received..]
  }

  /** In every run, for every socket whose latest event was not overwritten: the board with
      the pending events applied agrees with all events ever emitted, applied in order. */
  lemma BoardFollows(s: System, k: nat)
    requires Reachable(s)
    requires Latest(s.emitted, k).Some? ==> Latest(s.emitted, k).value !in s.lost
    ensures s.received <= |s.emitted|
    ensures Get(PutAll(s.bridge.last, Pending(s)), k) == Get(PutAll(map[], s.emitted), k)
  {
    ReachableInv(s);
    assert BoardOk(s, k);
    LatestOfSuffix(s.emitted, s.received, k);
    PutAllAt(s.bridge.last, Pending(s), k);
    PutAllAt(map[], s.emitted, k);
  }

  /** So without overwritten events nothing is ever missing or made up. */
  lemma BoardIsEverythingEmitted(s: System)
    requires Reachable(s) && s.lost == {}
    ensures s.received <= |s.emitted|
    ensures PutAll(s.bridge.last, Pending(s)) == PutAll(map[], s.emitted)
  {
    ReachableInv(s);
    var shown, emitted := PutAll(s.bridge.last, Pending(s)), PutAll(map[], s.emitted);
    forall k
      ensures k in shown <==> k in emitted
      ensures k in shown ==> shown[k] == emitted[k]
    {
      BoardFollows(s, k);
      assert Get(shown, k) == Get(emitted, k);
    }
  }

  // Everything on its way has arrived at the client, and it lost nothing.
  ghost predicate CaughtUp(s: System, client: nat) {
    && s.received == |s.emitted| && s.bridge.inflight.None?
    && client in s.bridge.clients
    && var c := s.bridge.clients[client]; c.snapshotDone && c.next == |c.sent| && c.skipped == {}
  }

  /** A client that joined at any time and has caught up shows, for every socket, exactly its
      latest event, or nothing when that was a clearing one. */
  lemma ClientsShowTheLatest(s: System, client: nat, k: nat)
    requires Reachable(s) && s.lost == {} && CaughtUp(s, client)
    ensures var view, at := s.bridge.clients[client].view, Latest(s.emitted, k);
            view == s.bridge.last && Get(view, k) == if at.Some? then Value(s.emitted[at.value]) else None
  {
    ReachableInv(s);
    LateJoinerConverges(s.bridge, client);
    assert Ahead(s.bridge, s.bridge.clients[client]) == [];
    BoardFollows(s, k);
    assert Pending(s) == [];
    PutAllAt(map[], s.emitted, k);
  }

  predicate HasRun(phase: Phase) {
    phase.Running? || phase.Leaving? || phase.Removed? || phase.Done?
  }

  /** No stale activity, in every run: once the feeder has caught up, every socket on the
      board is the scanner's, or a session that has not finished unregistering, or one
      whose clearing event was overwritten. */
  lemma NoStaleActivity(s: System, k: nat)
    requires Reachable(s) && s.received == |s.emitted| && k in s.bridge.last
    ensures k == 0 || (k in s.sessions && HasRun(s.sessions[k].phase) && !InPhase(s, k, Done)) ||
            (InPhase(s, k, Done) && Latest(s.emitted, k).Some? && Latest(s.emitted, k).value in s.lost)
  {
    ReachableInv(s);
    assert BoardOk(s, k) && SessionOk(s, k);
    LatestIsLast(s.emitted, k);
  }

  /** And a client that has caught up shows nothing of a finished session. */
  lemma ClientsSeeNoStaleActivity(s: System, client: nat, k: nat)
    requires Reachable(s) && s.lost == {} && CaughtUp(s, client) && k in s.bridge.clients[client].view
    ensures k == 0 || (k in s.sessions && HasRun(s.sessions[k].phase) && !InPhase(s, k, Done))
  {
    ClientsShowTheLatest(s, client, k);
    NoStaleActivity(s, k);
  }

  // Between scans, with nothing overwritten and the feeder caught up.
  predicate Settled(s: System) {
    s.scan.ended && s.scan.lost == map[] && s.lost == {} && s.received == |s.emitted|
  }

  lemma LastOnBoard(s: System)
    requires Inv(s) && s.lost == {} && s.received == |s.emitted|
    ensures Get(s.bridge.last, 0) == LastShown(OfSocket(s.emitted, 0))
  {
    assert BoardOk(s, 0);
    LatestIsLast(s.emitted, 0);
  }

  /** The scanner on the board: when all is settled, socket 0 shows exactly what the scans
      so far come down to, by what each was given: nothing if the last one lost a game, else
      the last game it newly found, else what was shown before it. What it shows is a game
      the last scan matched, with its pid. */
  lemma ScannerOnBoard(s: System)
    requires Reachable(s) && Settled(s)
    ensures Get(s.bridge.last, 0) == Shown(s.scan.shown, s.scan.start, s.scan.seen)
    ensures 0 in s.bridge.last ==>
              var e := s.bridge.last[0];
              IsScan(e) && e.activity.Some? && At(Matches(s.scan.seen), e.pid.value) == e.activity
    ensures 0 in s.bridge.last <==>
            Latest(s.emitted, 0).Some? && s.emitted[Latest(s.emitted, 0).value].activity.Some?
  {
    ReachableInv(s);
    LastOnBoard(s);
    LatestIsLast(s.emitted, 0);
    assert s.scan.lost.Keys == {};
    var mine := OfSocket(s.emitted, 0);
    if 0 in s.bridge.last {
      TrackedSince(map[], mine, |mine| - 1);
      assert Tracked(s.scan) == s.scan.active;
    }
  }

  /** Exactly when games are tracked and the board shows none of them: when the last scan
      lost another one, or found nothing new while none was shown before. */
  lemma GamesHidden(s: System)
    requires Reachable(s) && Settled(s)
    ensures s.scan.active != map[] && 0 !in s.bridge.last <==>
            s.scan.active != map[] &&
            (Losses(s.scan.start, s.scan.seen) != {} || (NothingNew(s.scan.start, s.scan.seen) && s.scan.shown.None?))
  {
    ScannerOnBoard(s);
    SilentIff(s.scan.start, s.scan.seen);
  }

  // ─── Sessions ───────────────────────────────────────────────────────────────

  // What a run alone keeps, said of a session of the system.
  lemma AloneIsSound(s: System, id: nat)
    requires SessionOk(s, id) && id in s.sessions && HasRun(s.sessions[id].phase)
    ensures ReadyFirst(s.sessions[id].output)
    ensures Replies(s.sessions[id].output) <= Picked(s.sessions[id].log, true)
    ensures id in s.sockets ==> Accounts(s.sessions[id], s.sockets[id]) && |s.sockets[id]| <= 128
  {
    RunIsSound(id, s.sessions[id].clientId, InputsOf(s, id));
    SessionConserves(id, s.sessions[id].clientId, InputsOf(s, id));
  }

  /** However the sessions interleave with everything else: ids are never reused, exactly
      the sessions in or just out of their loop can be sent to, and each session's state,
      output, queue and events are those of the same inputs served on their own, followed
      by one clearing event once it is done. */
  lemma SessionsStaySeparate(s: System, id: nat)
    requires Reachable(s)
    ensures s.nextId !in s.sessions && 0 !in s.sessions
    ensures id in s.sockets <==> InPhase(s, id, Running) || InPhase(s, id, Leaving)
    ensures id in s.sessions && HasRun(s.sessions[id].phase) ==>
              var session, mine := s.sessions[id], OfSocket(s.emitted, id);
              var r := SessionRun(id, session.clientId, InputsOf(s, id));
              && (id in s.sockets ==> r == Run(session, s.sockets[id], mine))
              && (id !in s.sockets ==> r.session == session.(phase := Leaving))
              && mine == r.events + (if session.phase.Done? then [Event(None, None, id)] else [])
              && ReadyFirst(session.output)
              && Replies(session.output) <= Picked(session.log, true)
    ensures id in s.sockets ==>
              id in s.sessions && Accounts(s.sessions[id], s.sockets[id]) && |s.sockets[id]| <= 128
  {
    ReachableInv(s);
    assert SessionOk(s, id) && SessionOk(s, s.nextId) && SessionOk(s, 0);
    if id in s.sessions && HasRun(s.sessions[id].phase) {
      AloneIsSound(s, id);
      assert OfSocket(s.emitted, id) + [] == OfSocket(s.emitted, id);
    }
  }
}
