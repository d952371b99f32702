/** From what a client of the server asks for to what a client of the bridge shows, and
    sessions that happen: src/server.rs, src/bridge.rs, and both transports together. */
module EndToEnd {
  import opened Wrappers
  import B = Bridge
  import opened Server
  import opened Session
  import opened Service
  import opened Scanner
  import opened System
  import opened Progress

  // ─── What is shown ──────────────────────────────────────────────────────────

  /** In every run in which nothing was overwritten: a client of the bridge that has caught
      up shows for a running session exactly its last SET_ACTIVITY: the activity's own
      application, or else the session's client, with the low 32 bits of the pid; or nothing,
      when that activity was null or there was none. */
  lemma ClientsShowActivity(s: System, client: nat, id: nat)
    requires Reachable(s) && s.lost == {} && CaughtUp(s, client) && InPhase(s, id, Running)
    ensures var view, inputs := s.bridge.clients[client].view, InputsOf(s, id);
            && ((forall p :: 0 <= p < |inputs| ==> !SetsActivity(inputs[p])) ==> id !in view)
            && forall p :: LastSet(inputs, p) ==>
                 match inputs[p].rpc.command.activity
                 case None => id !in view
                 case Some(ActivityArg(own)) =>
                   id in view && view[id] == B.Event(if own.Some? then own else Some(s.sessions[id].clientId),
                                                     Low32(inputs[p].rpc.command.pid), id)
  {
    var clientId, inputs := s.sessions[id].clientId, InputsOf(s, id);
    ClientsShowTheLatest(s, client, id);
    SessionsStaySeparate(s, id);
    LatestIsLast(s.emitted, id);
    LastEvent(id, clientId, inputs);
    var mine := OfSocket(s.emitted, id);
    assert mine == SessionRun(id, clientId, inputs).events;
    forall p | LastSet(inputs, p)
      ensures mine != [] && Announces(mine[|mine| - 1], id, clientId, inputs[p])
    {
    }
  }

  // ─── Losing nothing ─────────────────────────────────────────────────────────

  // In every state of the run the feeder is less than 64 events behind.
  ghost predicate FeederKeepsUp(s: System, actions: seq<Action>)
    requires Inv(s)
    decreases |actions|
  {
    && |s.emitted| - s.received < 64
    && (actions != [] && Enabled(s, actions[0]) ==>
          (ActionKeeps(s, actions[0]); FeederKeepsUp(Apply(s, actions[0]), actions[1..])))
  }

  /** Sending overwrites an event exactly when the feeder is 64 events behind: the oldest. */
  lemma OverwritesIff(s: System, e: B.Event)
    ensures Emit(s, e).emitted == s.emitted + [e]
    ensures Emit(s, e).lost == s.lost + if |s.emitted| - s.received >= 64 then {s.received} else {}
  {
  }

  lemma ActionLosesNothing(s: System, a: Action)
    requires Inv(s) && Enabled(s, a) && |s.emitted| - s.received < 64
    ensures Apply(s, a).lost == s.lost
  {
    match a {
      case Select(id, input) =>
        var r := Turn(id, Run(s.sessions[id], QueueOf(s, id), []), input);
        TurnEmits(id, Run(s.sessions[id], QueueOf(s, id), []), input);
        EmitSome(Turned(s, id, input, r), r.events, id);
      case Clear(id) => EmitSome(SetPhase(s, id, Done), [B.Event(None, None, id)], id);
      case Sight(sighting) => EmitSome(s.(scan := WithSighting(s.scan, sighting)), NewEvents(s.scan.active, sighting), 0);
      case Lose(pid) => EmitSome(s.(scan := s.scan.(lost := s.scan.lost - {pid})), [ClearEvent(pid)], 0);
      case _ =>
    }
  }

  /** In every run, a feeder that is never 64 events behind has lost nothing. */
  lemma {:induction false} KeepingUpOverwritesNothing(s: System, actions: seq<Action>, s': System)
    requires Inv(s) && IsRun(s, actions, s') && FeederKeepsUp(s, actions)
    ensures s'.lost == s.lost
    decreases |actions|
  {
    if actions != [] {
      ActionKeeps(s, actions[0]);
      ActionLosesNothing(s, actions[0]);
      KeepingUpOverwritesNothing(Apply(s, actions[0]), actions[1..], s');
    }
  }

  // ─── Sessions that happen ───────────────────────────────────────────────────

  // The sessions' part of two states is the same.
  predicate SameSessions(s: System, s': System) {
    s'.nextId == s.nextId && s'.sockets == s.sockets && s'.sessions == s.sessions && s'.inputs == s.inputs
  }

  // A step of a session, and the feeder catching up with it.
  lemma CalmTurn(s: System, a: Action) returns (s': System)
    requires Calm(s) && Inv(s) && Enabled(s, a)
    requires a.Connect? || a.WriteReady? || a.Register? || a.Select? || a.Remove? || a.Clear?
    ensures Calm(s') && Inv(s') && SameSessions(Apply(s, a), s')
  {
    ReachOneMore(s, a);
    ActionLosesNothing(s, a);
    s' := FeedAll(Apply(s, a));
    ReachableInv(s');
  }

  // A session is in or just out of its loop, having handled these inputs.
  ghost predicate ServedWith(s: System, id: nat, clientId: string, inputs: seq<Input>) {
    && id in s.sockets && id in s.sessions && s.sessions[id].clientId == clientId
    && SessionRun(id, clientId, inputs) == Run(s.sessions[id], s.sockets[id], OfSocket(s.emitted, id))
    && (s.sessions[id].phase.Running? ==> InputsOf(s, id) == inputs)
  }

  lemma ServedNow(s: System, id: nat, inputs: seq<Input>)
    requires Reachable(s) && id in s.sockets && id in s.sessions && InputsOf(s, id) == inputs
    requires HasRun(s.sessions[id].phase)
    ensures ServedWith(s, id, s.sessions[id].clientId, inputs)
  {
    SessionsStaySeparate(s, id);
  }

  lemma OneSelect(s: System, id: nat, input: Input) returns (s': System)
    requires Calm(s) && Inv(s) && InPhase(s, id, Running)
    ensures Calm(s') && Inv(s') && id in s'.sessions && s'.sessions[id].clientId == s.sessions[id].clientId
    ensures InputsOf(s', id) == InputsOf(s, id) + [input]
    ensures InPhase(s', id, Running) || InPhase(s', id, Leaving)
  {
    assert SessionOk(s, id);
    TurnStaysAlone(s, id, input);
    var r := Turn(id, Run(s.sessions[id], QueueOf(s, id), []), input);
    TurnEmits(id, Run(s.sessions[id], QueueOf(s, id), []), input);
    EmitSome(Turned(s, id, input, r), r.events, id);
    s' := CalmTurn(s, Select(id, input));
  }

  lemma SelectAll(s: System, id: nat, clientId: string, inputs: seq<Input>, n: nat) returns (s': System)
    requires Calm(s) && Inv(s) && n <= |inputs| && ServedWith(s, id, clientId, inputs[..n])
    requires InPhase(s, id, Running) || InPhase(s, id, Leaving)
    ensures Calm(s') && Inv(s') && ServedWith(s', id, clientId, inputs)
    ensures InPhase(s', id, Running) || InPhase(s', id, Leaving)
    decreases |inputs| - n
  {
    if n == |inputs| {
      assert inputs[..n] == inputs;
      s' := s;
    } else if InPhase(s, id, Leaving) {
      NothingAfterTheEnd(id, clientId, inputs, n);
      s' := s;
    } else {
      s' := OneSelect(s, id, inputs[n]);
      assert inputs[..n + 1] == inputs[..n] + [inputs[n]];
      SessionsStaySeparate(s', id);
      ServedNow(s', id, inputs[..n + 1]);
      s' := SelectAll(s', id, clientId, inputs, n + 1);
    }
  }

  /** Any session can happen: for every client id and every list of inputs, from any calm
      state with ids left, a session with the next id is served with exactly those inputs, up
      to where it leaves the loop. */
  lemma SessionHappens(s: System, clientId: string, inputs: seq<Input>) returns (s': System)
    requires Calm(s) && s.nextId + 1 < U64
    ensures Calm(s') && ServedWith(s', s.nextId, clientId, inputs)
    ensures InPhase(s', s.nextId, Running) || InPhase(s', s.nextId, Leaving)
  {
    var id := s.nextId;
    ReachableInv(s);
    SessionsStaySeparate(s, id);
    assert SessionOk(s, id);
    s' := CalmTurn(s, Connect(clientId));
    s' := CalmTurn(s', WriteReady(id, true));
    s' := CalmTurn(s', Register(id));
    SessionsStaySeparate(s', id);
    ServedNow(s', id, []);
    assert inputs[..0] == [];
    s' := SelectAll(s', id, clientId, inputs, 0);
  }

  lemma ClearStep(s: System, id: nat) returns (s': System)
    requires Calm(s) && InPhase(s, id, Removed)
    ensures Calm(s') && InPhase(s', id, Done) && s'.sessions[id] == s.sessions[id].(phase := Done)
    ensures InputsOf(s', id) == InputsOf(s, id)
  {
    ReachableInv(s);
    EmitSome(SetPhase(s, id, Done), [B.Event(None, None, id)], id);
    s' := CalmTurn(s, Clear(id));
  }

  lemma RemoveStep(s: System, id: nat) returns (s': System)
    requires Calm(s) && InPhase(s, id, Leaving)
    ensures Calm(s') && InPhase(s', id, Removed) && s'.sessions[id] == s.sessions[id].(phase := Removed)
    ensures InputsOf(s', id) == InputsOf(s, id)
  {
    ReachableInv(s);
    s' := CalmTurn(s, Remove(id));
  }

  /** And a session that has left its loop can finish: then it is no longer registered or on
      the board, and its last event is the clearing one. */
  lemma SessionFinishes(s: System, id: nat) returns (s': System)
    requires Calm(s) && InPhase(s, id, Leaving)
    ensures Calm(s') && InPhase(s', id, Done) && id !in s'.sockets && id !in s'.bridge.last
    ensures OfSocket(s'.emitted, id) == OfSocket(s.emitted, id) + [B.Event(None, None, id)]
  {
    var s1 := RemoveStep(s, id);
    s' := ClearStep(s1, id);
    SessionsStaySeparate(s, id);
    SessionsStaySeparate(s', id);
    if id in s'.bridge.last {
      NoStaleActivity(s', id);
    }
  }
}
