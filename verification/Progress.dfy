/** Runs of the whole program that exist: any scan can happen, a tracked game can be missing
    from the board, and every client can catch up. */
module Progress {
  import B = Bridge
  import opened Scanner
  import opened System

  // ─── Runs that exist ────────────────────────────────────────────────────────

  lemma {:induction false} RunOneMore(s: System, actions: seq<Action>, s': System, a: Action)
    requires Inv(s) && IsRun(s, actions, s') && Inv(s') && Enabled(s', a)
    ensures IsRun(s, actions + [a], Apply(s', a))
    decreases |actions|
  {
    if actions == [] {
      ActionKeeps(s, a);
      assert ([] + [a])[1..] == [];
    } else {
      ActionKeeps(s, actions[0]);
      RunOneMore(Apply(s, actions[0]), actions[1..], s', a);
      assert (actions + [a])[1..] == actions[1..] + [a];
    }
  }

  lemma ReachOneMore(s: System, a: Action)
    requires Reachable(s) && Inv(s) && Enabled(s, a)
    ensures Reachable(Apply(s, a)) && Inv(Apply(s, a))
  {
    StartInv();
    var actions :| IsRun(START, actions, s);
    RunOneMore(START, actions, s, a);
    ActionKeeps(s, a);
  }

  // Reachable with nothing on its way.
  ghost predicate Calm(s: System) {
    Reachable(s) && s.lost == {} && s.received == |s.emitted| && s.bridge.inflight.None?
  }

  // The feeder catches up; nothing else moves.
  lemma FeedAll(s: System) returns (s': System)
    requires Reachable(s) && Inv(s) && s.lost == {}
    ensures Calm(s') && s' == s.(received := s'.received, bridge := s'.bridge)
    decreases |s.emitted| - s.received, if s.bridge.inflight.Some? then 1 else 0
  {
    if s.bridge.inflight.Some? {
      ReachOneMore(s, BridgeStep(B.Send));
      s' := FeedAll(Apply(s, BridgeStep(B.Send)));
    } else if s.received < |s.emitted| {
      ReachOneMore(s, Feed);
      s' := FeedAll(Apply(s, Feed));
    } else {
      s' := s;
    }
  }

  lemma FewerKeys<K, V>(m: map<K, V>, k: K)
    requires k in m
    ensures |m - {k}| < |m|
  {
    assert m == (m - {k})[k := m[k]];
  }

  // The scanner's own steps.
  predicate ScanCan(scan: Scan, a: Action) {
    match a
    case BeginScan => scan.ended && scan.lost == map[]
    case Sight(_) => !scan.ended
    case EndPass => !scan.ended
    case Lose(pid) => pid in scan.lost
    case _ => false
  }

  function ScanAfter(scan: Scan, a: Action): Scan
    requires ScanCan(scan, a)
  {
    match a
    case BeginScan => Next(scan)
    case Sight(sighting) => WithSighting(scan, sighting)
    case EndPass => Ended(scan)
    case Lose(pid) => scan.(lost := scan.lost - {pid})
  }

  function ScanEvents(scan: Scan, a: Action): (events: seq<B.Event>)
    ensures AtMostOne(events, 0)
  {
    match a
    case Sight(sighting) => NewEvents(scan.active, sighting)
    case Lose(pid) => [ClearEvent(pid)]
    case _ => []
  }

  // A step of the scanner, and the feeder catching up with it.
  lemma CalmStep(s: System, a: Action) returns (s': System)
    requires Calm(s) && ScanCan(s.scan, a)
    ensures Calm(s') && s'.scan == ScanAfter(s.scan, a)
  {
    ReachableInv(s);
    ReachOneMore(s, a);
    var s1 := s.(scan := ScanAfter(s.scan, a));
    EmitSome(s1, ScanEvents(s.scan, a), 0);
    assert Apply(s, a) == EmitAll(s1, ScanEvents(s.scan, a));
    s' := FeedAll(Apply(s, a));
  }

  lemma SightAll(s: System, seen: seq<Sighting>, n: nat) returns (s': System)
    requires Calm(s) && !s.scan.ended && n <= |seen| && s.scan.seen == seen[..n]
    ensures Calm(s') && !s'.scan.ended && s'.scan.seen == seen
    ensures s'.scan.start == s.scan.start && s'.scan.shown == s.scan.shown && s'.scan.lost == s.scan.lost
    decreases |seen| - n
  {
    if n == |seen| {
      assert seen[..n] == seen;
      s' := s;
    } else {
      s' := CalmStep(s, Sight(seen[n]));
      assert seen[..n + 1] == seen[..n] + [seen[n]];
      s' := SightAll(s', seen, n + 1);
    }
  }

  lemma LoseAll(s: System) returns (s': System)
    requires Calm(s) && s.scan.ended
    ensures Calm(s') && s'.scan == s.scan.(lost := map[])
    decreases |s.scan.lost|
  {
    if s.scan.lost == map[] {
      s' := s;
    } else {
      var pid :| pid in s.scan.lost;
      s' := CalmStep(s, Lose(pid));
      assert |s'.scan.lost| < |s.scan.lost| by {
        FewerKeys(s.scan.lost, pid);
      }
      s' := LoseAll(s');
    }
  }

  /** Any scan can happen: from a settled state, whatever it is given. */
  lemma ScanHappens(s: System, seen: seq<Sighting>) returns (s': System)
    requires Calm(s) && Settled(s)
    ensures Calm(s') && Settled(s')
    ensures s'.scan.seen == seen && s'.scan.start == s.scan.active && s'.scan.active == Matches(seen)
    ensures s'.scan.shown == Shown(s.scan.shown, s.scan.start, s.scan.seen)
  {
    s' := CalmStep(s, BeginScan);
    s' := SightAll(s', seen, 0);
    s' := CalmStep(s', EndPass);
    s' := LoseAll(s');
    ReachableInv(s');
  }

  /** The board is not a mirror of the scanner: after one scan that found two games and one
      that found only the first, that one is tracked and not on the board. */
  lemma SharedSocketHidesGame() returns (s: System)
    ensures Reachable(s) && Settled(s)
    ensures s.scan.active == map[1 := "a"] && 0 !in s.bridge.last
  {
    StartInv();
    assert IsRun(START, [], START);
    var s1 := ScanHappens(START, BOTH);
    s := ScanHappens(s1, ONE);
    BothThenOne();
    GamesHidden(s);
  }

  // ─── Clients can catch up ───────────────────────────────────────────────────

  // The next step that brings the client nearer.
  ghost function NextStep(s: System, client: nat): Action
    requires client in s.bridge.clients && !CaughtUp(s, client) && s.bridge.clients[client].skipped == {} && Inv(s)
  {
    var c := s.bridge.clients[client];
    if !c.snapshotDone then
      if forall k: nat :: k in c.read then BridgeStep(B.Finish(client))
      else BridgeStep(B.Read(client, iset k: nat | k !in c.read))
    else if c.next < |c.sent| then BridgeStep(B.Recv(client))
    else if s.bridge.inflight.Some? then BridgeStep(B.Send)
    else Feed
  }

  ghost function SnapshotLeft(c: B.Client): nat {
    if c.snapshotDone then 0 else if forall k: nat :: k in c.read then 1 else 2
  }

  // The state is nearer to the client having caught up.
  ghost predicate Nearer(s: System, s': System, client: nat)
    requires client in s.bridge.clients
  {
    var b, b' := s.bridge, s'.bridge;
    && client in b'.clients && b'.clients[client].skipped == {}
    && s'.emitted == s.emitted && s'.lost == s.lost
    && var c, c' := b.clients[client], b'.clients[client];
       || s'.received > s.received
       || (s'.received == s.received && b.inflight.Some? && b'.inflight.None?)
       || (s'.received == s.received && b'.inflight == b.inflight &&
           (SnapshotLeft(c') < SnapshotLeft(c) ||
            (SnapshotLeft(c') == SnapshotLeft(c) && |c'.sent| - c'.next < |c.sent| - c.next)))
  }

  lemma SnapshotHelps(s: System, client: nat)
    requires Inv(s) && client in s.bridge.clients && s.bridge.clients[client].skipped == {}
    requires !s.bridge.clients[client].snapshotDone
    ensures var a := NextStep(s, client); Enabled(s, a) && Nearer(s, Apply(s, a), client)
  {
  }

  lemma DrainHelps(s: System, client: nat)
    requires Inv(s) && client in s.bridge.clients && s.bridge.clients[client].skipped == {}
    requires s.bridge.clients[client].snapshotDone && s.bridge.clients[client].next < |s.bridge.clients[client].sent|
    ensures var a := NextStep(s, client); Enabled(s, a) && Nearer(s, Apply(s, a), client)
  {
  }

  lemma FeederHelps(s: System, client: nat)
    requires Inv(s) && client in s.bridge.clients && s.bridge.clients[client].skipped == {} && !CaughtUp(s, client)
    requires s.bridge.clients[client].snapshotDone && s.bridge.clients[client].next >= |s.bridge.clients[client].sent|
    ensures var a := NextStep(s, client); Enabled(s, a) && Nearer(s, Apply(s, a), client)
  {
    assert B.ClientInv(s.bridge, s.bridge.clients[client]);
  }

  lemma NextStepHelps(s: System, client: nat)
    requires Inv(s) && client in s.bridge.clients && s.bridge.clients[client].skipped == {} && !CaughtUp(s, client)
    ensures var a := NextStep(s, client); (a.Feed? || a.BridgeStep?) && Enabled(s, a) && Nearer(s, Apply(s, a), client)
  {
    var c := s.bridge.clients[client];
    if !c.snapshotDone {
      SnapshotHelps(s, client);
    } else if c.next < |c.sent| {
      DrainHelps(s, client);
    } else {
      FeederHelps(s, client);
    }
  }

  /** No client is left behind: from every state, a subscribed client that has lost nothing
      so far can catch up, by steps of the feeder and of clients alone. */
  lemma ClientCanCatchUp(s: System, client: nat) returns (actions: seq<Action>, s': System)
    requires Inv(s) && client in s.bridge.clients && s.bridge.clients[client].skipped == {}
    ensures IsRun(s, actions, s') && (forall i :: 0 <= i < |actions| ==> actions[i].Feed? || actions[i].BridgeStep?)
    ensures CaughtUp(s', client) && s'.emitted == s.emitted && s'.lost == s.lost
    decreases |s.emitted| - s.received, if s.bridge.inflight.Some? then 1 else 0,
              SnapshotLeft(s.bridge.clients[client]), |s.bridge.clients[client].sent| - s.bridge.clients[client].next
  {
    if CaughtUp(s, client) {
      actions, s' := [], s;
    } else {
      var a := NextStep(s, client);
      NextStepHelps(s, client);
      ActionKeeps(s, a);
      var rest, end := ClientCanCatchUp(Apply(s, a), client);
      actions, s' := [a] + rest, end;
      assert actions[1..] == rest;
    }
  }

  /** Nor is one that joins at any time: it can subscribe, and then catch up. */
  lemma NewClientCanCatchUp(s: System, client: nat) returns (actions: seq<Action>, s': System)
    requires Inv(s) && client !in s.bridge.clients
    ensures IsRun(s, actions, s') && (forall i :: 0 <= i < |actions| ==> actions[i].Feed? || actions[i].BridgeStep?)
    ensures CaughtUp(s', client) && s'.emitted == s.emitted && s'.lost == s.lost
  {
    var a := BridgeStep(B.Join(client));
    ActionKeeps(s, a);
    var rest, end := ClientCanCatchUp(Apply(s, a), client);
    actions, s' := [a] + rest, end;
    assert actions[1..] == rest;
  }
}
