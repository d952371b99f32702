/** The process scanner: src/process/mod.rs, `scan_once` and the loop of
    `start_process_scanner`. Its events all carry socket 0 and the pid of the process. */
module Scanner {
  import opened Wrappers
  import opened Paths
  import opened PathFacts
  import opened Matching
  import opened Index
  import opened Agreement
  import opened Bridge
  import opened Server

  type Pid = p: nat | p < U32

  datatype ProcessInfo = ProcessInfo(pid: Pid, path: string, args: seq<string>)

  // pid to application id of the games being tracked.
  type Active = map<Pid, string>

  // A process the scan came across, and the game it matches, if any.
  datatype Sighting = Sighting(pid: Pid, game: Option<string>)

  function SightingOf(db: Db, p: ProcessInfo): Sighting {
    Sighting(p.pid, match Search(db, p.path, p.args) case None => None case Some((id, _)) => Some(id))
  }

  function Each<T, R>(s: seq<T>, f: T -> R): seq<R> {
    seq(|s|, i requires 0 <= i < |s| => f(s[i]))
  }

  lemma EachOneMore<T, R>(s: seq<T>, f: T -> R, i: nat)
    requires i < |s|
    ensures Each(s[..i + 1], f) == Each(s[..i], f) + [f(s[i])]
  {
  }

  function Looking(db: Db): ProcessInfo -> Sighting {
    p => SightingOf(db, p)
  }

  function Sightings(db: Db, processes: seq<ProcessInfo>): seq<Sighting> {
    Each(processes, Looking(db))
  }

  function At(active: Active, pid: Pid): Option<string> {
    if pid in active then Some(active[pid]) else None
  }

  // The id a scan leaves each pid with: that of its last match.
  function Matches(seen: seq<Sighting>): Active {
    if seen == [] then map[]
    else
      var last := seen[|seen| - 1];
      var before := Matches(seen[..|seen| - 1]);
      if last.game.Some? then before[last.pid := last.game.value] else before
  }

  // ─── The event log ──────────────────────────────────────────────────────────

  // An event about one process of the scanner.
  predicate IsScan(e: Event) {
    e.socket == 0 && e.pid.Some? && e.pid.value < U32
  }

  function Replay1(active: Active, e: Event): Active
    requires IsScan(e)
  {
    if e.activity.Some? then active[e.pid.value := e.activity.value] else active - {e.pid.value}
  }

  predicate AllScan(events: seq<Event>) {
    forall i :: 0 <= i < |events| ==> IsScan(events[i])
  }

  function Replay(active: Active, events: seq<Event>): Active
    requires AllScan(events)
  {
    if events == [] then active else Replay1(Replay(active, events[..|events| - 1]), events[|events| - 1])
  }

  // Every event changes what is tracked: no set repeats, no clear of an untracked pid.
  predicate Effective(active: Active, events: seq<Event>)
    requires AllScan(events)
  {
    events == [] ||
    (Effective(active, events[..|events| - 1]) && Replay(active, events) != Replay(active, events[..|events| - 1]))
  }

  function Count(events: seq<Event>, pid: Pid): nat {
    if events == [] then 0
    else Count(events[..|events| - 1], pid) + if events[|events| - 1].pid == Some(pid) then 1 else 0
  }

  function SetEvent(pid: Pid, id: string): Event {
    Event(Some(id), Some(pid), 0)
  }

  function ClearEvent(pid: Pid): Event {
    Event(None, Some(pid), 0)
  }

  lemma OneMoreEvent(active: Active, events: seq<Event>, e: Event)
    requires AllScan(events) && IsScan(e)
    ensures AllScan(events + [e])
    ensures Replay(active, events + [e]) == Replay1(Replay(active, events), e)
    ensures Effective(active, events + [e]) <==>
            Effective(active, events) && Replay1(Replay(active, events), e) != Replay(active, events)
    ensures forall pid: Pid :: Count(events + [e], pid) == Count(events, pid) + if e.pid == Some(pid) then 1 else 0
  {
    assert (events + [e])[..|events|] == events;
  }

  lemma {:induction false} ReplayConcat(active: Active, a: seq<Event>, b: seq<Event>)
    requires AllScan(a) && AllScan(b)
    ensures AllScan(a + b)
    ensures Replay(active, a + b) == Replay(Replay(active, a), b)
    ensures Effective(active, a + b) <==> Effective(active, a) && Effective(Replay(active, a), b)
  {
    if b == [] {
      assert a + b == a;
    } else {
      var init := b[..|b| - 1];
      ReplayConcat(active, a, init);
      assert a + b == (a + init) + [b[|b| - 1]];
      OneMoreEvent(active, a + init, b[|b| - 1]);
    }
  }

  // Since the latest event for its pid, the replay holds what that event said.
  lemma {:induction false} TrackedSince(active: Active, events: seq<Event>, i: nat)
    requires AllScan(events) && i < |events|
    requires forall k :: i < k < |events| ==> events[k].pid != events[i].pid
    ensures At(Replay(active, events), events[i].pid.value) == events[i].activity
  {
    if i < |events| - 1 {
      TrackedSince(active, events[..|events| - 1], i);
    }
  }

  /** What `Effective` forbids, event by event: of two consecutive events for a pid, the
      second is never the same set again, and a clear always undoes a set. */
  lemma {:induction false} NothingRedundant(active: Active, events: seq<Event>, i: nat, j: nat)
    requires AllScan(events) && Effective(active, events)
    requires i < j < |events| && events[i].pid == events[j].pid
    requires forall k :: i < k < j ==> events[k].pid != events[i].pid
    ensures events[i] != events[j]
    ensures events[j].activity.None? ==> events[i].activity.Some?
  {
    if j < |events| - 1 {
      NothingRedundant(active, events[..|events| - 1], i, j);
    } else {
      TrackedSince(active, events[..j], i);
      assert events[..j + 1] == events;
    }
  }

  /** When a pid has at most one event, it has one exactly if its tracking changed. */
  lemma {:induction false} CountTells(active: Active, events: seq<Event>, pid: Pid)
    requires AllScan(events) && Effective(active, events) && Count(events, pid) <= 1
    ensures Count(events, pid) == if At(active, pid) != At(Replay(active, events), pid) then 1 else 0
  {
    if events != [] {
      var init, e := events[..|events| - 1], events[|events| - 1];
      CountTells(active, init, pid);
      if e.pid == Some(pid) {
        assert Replay(active, events) != Replay(active, init);
      }
    }
  }

  // ─── One scan ───────────────────────────────────────────────────────────────

  predicate DistinctPids(seen: seq<Sighting>) {
    forall i, j :: 0 <= i < j < |seen| ==> seen[i].pid != seen[j].pid
  }

  // All matching seen of a pid match with the same id.
  predicate Consistent(seen: seq<Sighting>) {
    forall i :: 0 <= i < |seen| && seen[i].game.Some? ==>
      At(Matches(seen), seen[i].pid) == seen[i].game
  }

  // What one scan did: its events turn the tracked games before it into those after it,
  // which are exactly the matches of the process list; each event changed something; with
  // distinct pids there is one event per changed pid; and nothing is emitted exactly when
  // the matches are consistent and already tracked.
  ghost predicate ScanDid(before: Active, seen: seq<Sighting>, after: Active, events: seq<Event>) {
    && AllScan(events)
    && after == Matches(seen)
    && Replay(before, events) == after
    && Effective(before, events)
    && (DistinctPids(seen) ==>
          forall pid: Pid :: Count(events, pid) == if At(before, pid) != At(after, pid) then 1 else 0)
    && (events == [] <==> before == after && Consistent(seen))
  }

  // Half-way through the list: the pids seen matching are tracked as matched, the others
  // as before.
  ghost predicate Scanned(start: Active, seen: seq<Sighting>, active: Active, events: seq<Event>) {
    var matches := Matches(seen);
    && AllScan(events) && Replay(start, events) == active && Effective(start, events)
    && (forall pid: Pid :: At(active, pid) == if pid in matches then Some(matches[pid]) else At(start, pid))
    && (forall pid: Pid :: Count(events, pid) > 0 ==> pid in matches)
    && (DistinctPids(seen) ==> forall pid: Pid :: Count(events, pid) <= 1)
    && (events == [] ==> Consistent(seen))
  }

  lemma {:induction false} MatchesOfListed(seen: seq<Sighting>, pid: Pid)
    requires pid in Matches(seen)
    ensures exists i :: 0 <= i < |seen| && seen[i].pid == pid
  {
    var last := |seen| - 1;
    if seen[last].pid != pid {
      MatchesOfListed(seen[..last], pid);
    }
  }

  // What one sighting does to the tracked games, and which event it causes.
  function Tracking(active: Active, s: Sighting): Active {
    if s.game.Some? then active[s.pid := s.game.value] else active
  }

  function NewEvents(active: Active, s: Sighting): seq<Event> {
    if s.game.None? || At(active, s.pid) == s.game then [] else [SetEvent(s.pid, s.game.value)]
  }

  lemma MatchesOneMore(seen: seq<Sighting>, p: Sighting)
    ensures Matches(seen + [p]) ==
            if p.game.Some? then Matches(seen)[p.pid := p.game.value] else Matches(seen)
  {
    assert (seen + [p])[..|seen|] == seen;
  }

  lemma ConsistentOneMore(start: Active, seen: seq<Sighting>, p: Sighting, active: Active, events: seq<Event>)
    requires Scanned(start, seen, active, events) && p.game.Some? && At(active, p.pid) == p.game
    ensures events == [] ==> Consistent(seen + [p])
  {
    if events == [] {
      var all := seen + [p];
      MatchesOneMore(seen, p);
      forall i | 0 <= i < |all| && all[i].game.Some?
        ensures At(Matches(all), all[i].pid) == all[i].game
      {
        if i < |seen| {
          assert all[i] == seen[i];
        }
      }
    }
  }

  lemma ScannedAsBefore(start: Active, seen: seq<Sighting>, p: Sighting, active: Active, events: seq<Event>)
    requires Scanned(start, seen, active, events) && (p.game.None? || At(active, p.pid) == p.game)
    ensures Scanned(start, seen + [p], active, events)
  {
    MatchesOneMore(seen, p);
    if p.game.Some? {
      ConsistentOneMore(start, seen, p, active, events);
    }
    assert forall i :: 0 <= i < |seen| ==> (seen + [p])[i] == seen[i];
    assert DistinctPids(seen + [p]) ==> DistinctPids(seen);
  }

  lemma DistinctPidIsNew(seen: seq<Sighting>, p: Sighting)
    requires DistinctPids(seen + [p])
    ensures p.pid !in Matches(seen) && DistinctPids(seen)
  {
    var all := seen + [p];
    assert forall i :: 0 <= i < |seen| ==> all[i] == seen[i] && all[i].pid != all[|seen|].pid;
    if p.pid in Matches(seen) {
      MatchesOfListed(seen, p.pid);
    }
  }

  lemma ScannedNew(start: Active, seen: seq<Sighting>, p: Sighting, active: Active, events: seq<Event>)
    requires Scanned(start, seen, active, events) && p.game.Some? && At(active, p.pid) != p.game
    ensures Scanned(start, seen + [p], active[p.pid := p.game.value], events + [SetEvent(p.pid, p.game.value)])
  {
    MatchesOneMore(seen, p);
    OneMoreEvent(start, events, SetEvent(p.pid, p.game.value));
    if DistinctPids(seen + [p]) {
      DistinctPidIsNew(seen, p);
    }
  }

  lemma ScannedNext(start: Active, seen: seq<Sighting>, p: Sighting, active: Active, events: seq<Event>)
    requires Scanned(start, seen, active, events)
    ensures Scanned(start, seen + [p], Tracking(active, p), events + NewEvents(active, p))
  {
    if p.game.None? || At(active, p.pid) == p.game {
      ScannedAsBefore(start, seen, p, active, events);
      assert Tracking(active, p) == active && events + NewEvents(active, p) == events;
    } else {
      ScannedNew(start, seen, p, active, events);
    }
  }

  function TrackAll(active: Active, seen: seq<Sighting>): Active {
    if seen == [] then active else Tracking(TrackAll(active, seen[..|seen| - 1]), seen[|seen| - 1])
  }

  function EventsOfAll(active: Active, seen: seq<Sighting>): seq<Event> {
    if seen == [] then []
    else
      var init := seen[..|seen| - 1];
      EventsOfAll(active, init) + NewEvents(TrackAll(active, init), seen[|seen| - 1])
  }

  lemma {:induction false} ScannedAll(start: Active, seen: seq<Sighting>)
    ensures Scanned(start, seen, TrackAll(start, seen), EventsOfAll(start, seen))
  {
    if seen != [] {
      var init := seen[..|seen| - 1];
      ScannedAll(start, init);
      ScannedNext(start, init, seen[|seen| - 1], TrackAll(start, init), EventsOfAll(start, init));
      assert init + [seen[|seen| - 1]] == seen;
    }
  }

  // A consistent scan of what is tracked already emits nothing.
  lemma {:induction false} SilentAll(start: Active, seen: seq<Sighting>, n: nat)
    requires n <= |seen| && Consistent(seen) && start == Matches(seen)
    ensures EventsOfAll(start, seen[..n]) == [] && TrackAll(start, seen[..n]) == start
  {
    if n > 0 {
      SilentAll(start, seen, n - 1);
      assert seen[..n][..n - 1] == seen[..n - 1];
    }
  }

  // Half-way through clearing the lost pids.
  ghost predicate Cleared(start: Active, seen: seq<Sighting>, lost: set<Pid>, events: seq<Event>) {
    var matches := Matches(seen);
    && AllScan(events) && Effective(start, events)
    && (forall pid :: pid in lost ==> pid in start && pid !in matches && Count(events, pid) == 0)
    && (forall pid: Pid :: At(Replay(start, events), pid) ==
          if pid in matches then Some(matches[pid]) else if pid in lost then At(start, pid) else None)
    && (DistinctPids(seen) ==> forall pid: Pid :: Count(events, pid) <= 1)
    && (events == [] ==> Consistent(seen))
  }

  lemma ClearedStart(start: Active, seen: seq<Sighting>, active: Active, events: seq<Event>)
    requires Scanned(start, seen, active, events)
    ensures Cleared(start, seen, active.Keys - Matches(seen).Keys, events)
  {
    forall pid: Pid
      ensures At(active, pid) == if pid in active then Some(active[pid]) else None
    {
    }
  }

  lemma ClearedStep(start: Active, seen: seq<Sighting>, lost: set<Pid>, events: seq<Event>, pid: Pid)
    requires Cleared(start, seen, lost, events) && pid in lost
    ensures Cleared(start, seen, lost - {pid}, events + [ClearEvent(pid)])
  {
    OneMoreEvent(start, events, ClearEvent(pid));
    var now := Replay(start, events);
    assert At(now, pid) == At(start, pid);
    assert pid in now && pid !in now - {pid};
  }

  // The clearing events of exactly the given pids, once each, in any order.
  ghost predicate ClearsOnce(pids: set<Pid>, clears: seq<Event>) {
    && AllScan(clears)
    && (forall i :: 0 <= i < |clears| ==> clears[i] == ClearEvent(clears[i].pid.value))
    && (forall pid: Pid :: Count(clears, pid) == if pid in pids then 1 else 0)
  }

  lemma ClearsOneMore(pids: set<Pid>, clears: seq<Event>, pid: Pid)
    requires ClearsOnce(pids, clears) && pid !in pids
    ensures ClearsOnce(pids + {pid}, clears + [ClearEvent(pid)])
  {
    assert (clears + [ClearEvent(pid)])[..|clears|] == clears;
  }

  lemma {:induction false} CountFirst(events: seq<Event>)
    requires events != []
    ensures forall pid: Pid :: Count(events, pid) == Count(events[1..], pid) + if events[0].pid == Some(pid) then 1 else 0
  {
    var init := events[..|events| - 1];
    if init != [] {
      CountFirst(init);
      assert events[1..][..|events| - 2] == init[1..];
    }
  }

  lemma ClearsOneLess(pids: set<Pid>, clears: seq<Event>)
    requires ClearsOnce(pids, clears) && clears != []
    ensures var first := clears[0].pid.value;
            first in pids && clears[0] == ClearEvent(first) && ClearsOnce(pids - {first}, clears[1..])
  {
    CountFirst(clears);
    assert Count(clears, clears[0].pid.value) <= 1;
  }

  lemma Regroup<T>(a: seq<T>, b: seq<T>, c: seq<T>)
    ensures a + b + c == a + (b + c)
    ensures a <= a + b + c && (a + b + c)[|a|..] == b + c
  {
  }

  lemma {:induction false} ClearedAll(start: Active, seen: seq<Sighting>, lost: set<Pid>, events: seq<Event>, clears: seq<Event>)
    requires Cleared(start, seen, lost, events) && ClearsOnce(lost, clears)
    ensures Cleared(start, seen, {}, events + clears)
    ensures lost == {} ==> clears == []
    decreases |clears|
  {
    if clears == [] {
      assert events + clears == events;
      forall pid: Pid
        ensures pid !in lost
      {
        assert Count(clears, pid) == 0;
      }
      assert lost == {};
    } else {
      var first := clears[0].pid.value;
      ClearsOneLess(lost, clears);
      ClearedStep(start, seen, lost, events, first);
      ClearedAll(start, seen, lost - {first}, events + [clears[0]], clears[1..]);
      Regroup(events, [clears[0]], clears[1..]);
      assert [clears[0]] + clears[1..] == clears;
    }
  }

  lemma SameEverywhere(a: Active, b: Active)
    requires forall pid: Pid :: At(a, pid) == At(b, pid)
    ensures a == b
  {
    forall pid
      ensures pid in a <==> pid in b
      ensures pid in a ==> a[pid] == b[pid]
    {
      assert At(a, pid) == At(b, pid);
    }
  }

  lemma ClearedEnd(start: Active, seen: seq<Sighting>, after: Active, events: seq<Event>)
    requires Cleared(start, seen, {}, events)
    requires after == Matches(seen)
    requires Consistent(seen) && start == Matches(seen) ==> events == []
    ensures ScanDid(start, seen, after, events)
  {
    var now := Replay(start, events);
    forall pid: Pid
      ensures At(now, pid) == At(after, pid)
    {
    }
    SameEverywhere(now, after);
    if DistinctPids(seen) {
      forall pid: Pid
        ensures Count(events, pid) == if At(start, pid) != At(after, pid) then 1 else 0
      {
        CountTells(start, events, pid);
      }
    }
  }

  lemma Appended<T>(a: seq<T>, b: seq<T>)
    ensures a <= a + b && (a + b)[|a|..] == b
  {
  }

  // ─── Which processes a scan tracks ──────────────────────────────────────────

  // The plain scan over the list answers for the process, and the process has a file name.
  predicate Found(entries: seq<Entry>, p: ProcessInfo) {
    Filename(p.path) != "" && FirstMatch(entries, QueryOf(p.path, p.args)).Some?
  }

  ghost predicate FoundAs(entries: seq<Entry>, p: ProcessInfo, id: string) {
    exists w :: IsWinner(entries, Keys(p.path), QueryOf(p.path, p.args), w) && entries[w].id == id
  }

  // The sighting is that of the process.
  ghost predicate Sees(entries: seq<Entry>, p: ProcessInfo, s: Sighting) {
    s.pid == p.pid && (s.game.Some? <==> Found(entries, p)) && (s.game.Some? ==> FoundAs(entries, p, s.game.value))
  }

  lemma SightingSees(entries: seq<Entry>, p: ProcessInfo)
    requires DistinctIds(entries)
    ensures Sees(entries, p, SightingOf(Built(entries), p))
  {
    IndexAnswersIff(entries, p.path, p.args);
    if Filename(p.path) != "" {
      IndexAgreesWithScan(entries, p.path, p.args);
      ExactWinner(entries, p.path, p.args);
    }
  }

  // Sighting i is of this pid, and matches; as this id.
  predicate Sighted(seen: seq<Sighting>, i: int, pid: Pid) {
    0 <= i < |seen| && seen[i].pid == pid && seen[i].game.Some?
  }

  predicate SightedAs(seen: seq<Sighting>, i: int, pid: Pid, id: string) {
    Sighted(seen, i, pid) && seen[i].game.value == id
  }

  lemma {:induction false} MatchesTell(seen: seq<Sighting>, pid: Pid)
    ensures pid in Matches(seen) <==> exists i :: Sighted(seen, i, pid)
    ensures pid in Matches(seen) ==> exists i :: SightedAs(seen, i, pid, Matches(seen)[pid])
  {
    if seen != [] {
      var last := |seen| - 1;
      var init := seen[..last];
      MatchesTell(init, pid);
      assert forall i :: i != last ==> (Sighted(seen, i, pid) <==> Sighted(init, i, pid));
      if Sighted(seen, last, pid) {
        assert SightedAs(seen, last, pid, Matches(seen)[pid]);
      } else if pid in Matches(init) {
        var i :| SightedAs(init, i, pid, Matches(init)[pid]);
        assert SightedAs(seen, i, pid, Matches(seen)[pid]);
      }
    }
  }

  lemma SeenAre(entries: seq<Entry>, processes: seq<ProcessInfo>, seen: seq<Sighting>, pid: Pid)
    requires |seen| == |processes| && forall i :: 0 <= i < |seen| ==> Sees(entries, processes[i], seen[i])
    ensures (exists i :: Sighted(seen, i, pid)) <==>
            exists i :: 0 <= i < |processes| && processes[i].pid == pid && Found(entries, processes[i])
    ensures forall i, id :: SightedAs(seen, i, pid, id) ==> processes[i].pid == pid && FoundAs(entries, processes[i], id)
  {
    if i :| 0 <= i < |processes| && processes[i].pid == pid && Found(entries, processes[i]) {
      assert Sees(entries, processes[i], seen[i]);
      assert Sighted(seen, i, pid);
    }
  }

  /** From the list to what is tracked: with distinct ids, a scan tracks a pid exactly when
      a listed process with that pid has a file name and the plain linear scan answers for
      it; and it tracks it as the winning entry of such a process. */
  lemma ScanTracks(entries: seq<Entry>, processes: seq<ProcessInfo>, pid: Pid)
    requires DistinctIds(entries)
    ensures var tracked := Matches(Sightings(Built(entries), processes));
            && (pid in tracked <==>
                exists i :: 0 <= i < |processes| && processes[i].pid == pid && Found(entries, processes[i]))
            && (pid in tracked ==>
                exists i :: 0 <= i < |processes| && processes[i].pid == pid && FoundAs(entries, processes[i], tracked[pid]))
  {
    var seen := Sightings(Built(entries), processes);
    forall i | 0 <= i < |processes|
      ensures Sees(entries, processes[i], seen[i])
    {
      SightingSees(entries, processes[i]);
    }
    MatchesTell(seen, pid);
    SeenAre(entries, processes, seen, pid);
  }

  // ─── What the board shows of a scan ─────────────────────────────────────────

  // The pids a scan loses.
  function Losses(start: Active, seen: seq<Sighting>): set<Pid> {
    start.Keys - Matches(seen).Keys
  }

  // Every sighting that matches is tracked already, with the same id.
  predicate NothingNew(start: Active, seen: seq<Sighting>) {
    forall i :: 0 <= i < |seen| && seen[i].game.Some? ==> At(start, seen[i].pid) == seen[i].game
  }

  lemma {:induction false} SilentIff(start: Active, seen: seq<Sighting>)
    ensures EventsOfAll(start, seen) == [] <==> NothingNew(start, seen)
    ensures NothingNew(start, seen) ==> TrackAll(start, seen) == start
  {
    if seen != [] {
      var init, last := seen[..|seen| - 1], seen[|seen| - 1];
      SilentIff(start, init);
      assert NothingNew(start, seen) <==> NothingNew(start, init) && (last.game.Some? ==> At(start, last.pid) == last.game);
    }
  }

  // What socket 0 shows after a pass that set games, and after a whole scan.
  function ShownAfterPass(before: Option<Event>, start: Active, seen: seq<Sighting>): Option<Event> {
    var sets := EventsOfAll(start, seen);
    if sets == [] then before else Some(sets[|sets| - 1])
  }

  function Shown(before: Option<Event>, start: Active, seen: seq<Sighting>): Option<Event> {
    if Losses(start, seen) != {} then None else ShownAfterPass(before, start, seen)
  }

  lemma LastShows(board: Board, events: seq<Event>)
    requires AllScan(events)
    ensures Get(PutAll(board, events), 0) == if events == [] then Get(board, 0) else Value(events[|events| - 1])
  {
  }

  lemma {:induction false} PassSets(start: Active, seen: seq<Sighting>)
    ensures AllScan(EventsOfAll(start, seen))
    ensures forall i :: 0 <= i < |EventsOfAll(start, seen)| ==> EventsOfAll(start, seen)[i].activity.Some?
  {
    if seen != [] {
      PassSets(start, seen[..|seen| - 1]);
    }
  }

  lemma ClearsWhenLost(pids: set<Pid>, clears: seq<Event>)
    requires ClearsOnce(pids, clears)
    ensures clears == [] <==> pids == {}
    ensures clears != [] ==> clears[|clears| - 1].activity.None?
  {
    if clears != [] {
      ClearsOneLess(pids, clears);
    }
    if pid :| pid in pids {
      assert Count(clears, pid) == 1;
    }
  }

  // The events of one scan: those of the pass, then one clear for each loss, in any order.
  ghost predicate ScanEmits(start: Active, seen: seq<Sighting>, events: seq<Event>) {
    exists clears :: ClearsOnce(Losses(start, seen), clears) && events == EventsOfAll(start, seen) + clears
  }

  /** What one scan leaves on the board for socket 0: nothing when any game was lost, else
      the last game newly set, else what was there. */
  lemma BoardAfterScan(board: Board, start: Active, seen: seq<Sighting>, events: seq<Event>)
    requires ScanEmits(start, seen, events)
    ensures Get(PutAll(board, events), 0) == Shown(Get(board, 0), start, seen)
  {
    var sets := EventsOfAll(start, seen);
    var clears :| ClearsOnce(Losses(start, seen), clears) && events == sets + clears;
    PassSets(start, seen);
    ClearsWhenLost(Losses(start, seen), clears);
    PutAllBoth(board, sets, clears);
    LastShows(board, sets);
    LastShows(PutAll(board, sets), clears);
  }

  /** Exactly when a scan leaves games tracked, but none of them on the board: when it also
      lost one, or found nothing new while the board showed none before. */
  lemma GamesHiddenIff(board: Board, start: Active, seen: seq<Sighting>, events: seq<Event>)
    requires ScanEmits(start, seen, events)
    ensures Matches(seen) != map[] && Get(PutAll(board, events), 0).None? <==>
            Matches(seen) != map[] &&
            (Losses(start, seen) != {} || (NothingNew(start, seen) && Get(board, 0).None?))
  {
    BoardAfterScan(board, start, seen, events);
    SilentIff(start, seen);
  }

  // The sightings of two scans: two games, then only the first.
  const BOTH: seq<Sighting> := [Sighting(1, Some("a")), Sighting(2, Some("b"))]
  const ONE: seq<Sighting> := [Sighting(1, Some("a"))]

  lemma BothThenOne()
    ensures Matches(BOTH) == map[1 := "a", 2 := "b"] && Matches(ONE) == map[1 := "a"]
    ensures Losses(map[], BOTH) == {} && Losses(Matches(BOTH), ONE) == {2}
  {
    MatchesOneMore([], Sighting(1, Some("a")));
    MatchesOneMore(ONE, Sighting(2, Some("b")));
    assert [] + [Sighting(1, Some("a"))] == ONE && ONE + [Sighting(2, Some("b"))] == BOTH;
  }

  // ─── One scan, all of it ────────────────────────────────────────────────────

  // What a pass leaves tracked: the matches as matched, the rest as before.
  lemma PassTracks(start: Active, seen: seq<Sighting>)
    ensures forall pid: Pid :: At(TrackAll(start, seen), pid) == At(if pid in Matches(seen) then Matches(seen) else start, pid)
    ensures TrackAll(start, seen).Keys - Matches(seen).Keys == Losses(start, seen)
  {
    ScannedAll(start, seen);
    var active, matches := TrackAll(start, seen), Matches(seen);
    forall pid: Pid
      ensures At(active, pid) == At(if pid in matches then matches else start, pid)
    {
    }
    forall pid: Pid
      ensures pid in active.Keys - matches.Keys <==> pid in Losses(start, seen)
    {
      assert At(active, pid) == At(if pid in matches then matches else start, pid);
    }
  }

  /** Whatever order the lost pids are cleared in, the events of the pass and the clears are
      what a scan is to emit. */
  lemma ScanIsDone(start: Active, seen: seq<Sighting>, clears: seq<Event>)
    requires ClearsOnce(Losses(start, seen), clears)
    ensures var events := EventsOfAll(start, seen) + clears;
            ScanDid(start, seen, Matches(seen), events) && ScanEmits(start, seen, events)
  {
    var sets := EventsOfAll(start, seen);
    ScannedAll(start, seen);
    PassTracks(start, seen);
    ClearedStart(start, seen, TrackAll(start, seen), sets);
    ClearedAll(start, seen, Losses(start, seen), sets, clears);
    if Consistent(seen) && start == Matches(seen) {
      assert seen[..|seen|] == seen;
      SilentAll(start, seen, |seen|);
    }
    ClearedEnd(start, seen, Matches(seen), sets + clears);
  }

  // ─── A whole run ────────────────────────────────────────────────────────────

  // Five seconds of the scanner's loop: a refreshed database, if any, and the processes seen.
  datatype Tick = Tick(refreshed: Option<DetectableDb>, processes: seq<ProcessInfo>)

  // The database in use at a tick: the last one refreshed up to then.
  function DbAt(first: DetectableDb, ticks: seq<Tick>, i: nat): DetectableDb
    requires i < |ticks|
  {
    if ticks[i].refreshed.Some? then ticks[i].refreshed.value
    else if i == 0 then first
    else DbAt(first, ticks, i - 1)
  }

  // Tick p is the latest one up to tick i that refreshed the database.
  predicate LatestRefresh(ticks: seq<Tick>, i: nat, p: int) {
    0 <= p <= i < |ticks| && ticks[p].refreshed.Some? && forall q :: p < q <= i ==> ticks[q].refreshed.None?
  }

  /** The last scan of a run uses the database of the latest tick that refreshed it, or the
      first one when none did. */
  lemma {:induction false} DbAtIsLatest(first: DetectableDb, ticks: seq<Tick>, i: nat)
    requires i < |ticks|
    ensures forall p :: LatestRefresh(ticks, i, p) ==> DbAt(first, ticks, i) == ticks[p].refreshed.value
    ensures (forall p :: 0 <= p <= i ==> ticks[p].refreshed.None?) ==> DbAt(first, ticks, i) == first
  {
    if ticks[i].refreshed.None? && i > 0 {
      DbAtIsLatest(first, ticks, i - 1);
      forall p | LatestRefresh(ticks, i, p)
        ensures LatestRefresh(ticks, i - 1, p)
      {
      }
    }
  }

  // A whole run: its events replay to the tracked games, and none was redundant.
  ghost predicate RunDid(before: Active, after: Active, events: seq<Event>) {
    AllScan(events) && Replay(before, events) == after && Effective(before, events)
  }

  lemma RunDidConcat(a: Active, b: Active, c: Active, events: seq<Event>, added: seq<Event>)
    requires RunDid(a, b, events) && RunDid(b, c, added)
    ensures RunDid(a, c, events + added)
  {
    ReplayConcat(a, events, added);
  }

  // ─── The imperative forms ───────────────────────────────────────────────────

  class ProcessScanner {
    var active: Active

    constructor ()
      ensures active == map[]
    {
      active := map[];
    }

    method LookUpOne(db: DetectableDb, p: ProcessInfo) returns (s: Sighting)
      ensures s == SightingOf(db.View(), p)
    {
      var found := db.MatchProcess(p.path, p.args);
      s := Sighting(p.pid, if found.Some? then Some(found.value.0) else None);
    }

    method LookUp(db: DetectableDb, processes: seq<ProcessInfo>) returns (seen: seq<Sighting>)
      ensures seen == Sightings(db.View(), processes)
    {
      seen := [];
      for i := 0 to |processes|
        invariant seen == Sightings(db.View(), processes[..i])
      {
        EachOneMore(processes, Looking(db.View()), i);
        var sighting := LookUpOne(db, processes[i]);
        seen := seen + [sighting];
      }
      assert processes[..|processes|] == processes;
    }

    method Track(server: ServerState, s: Sighting, present: set<Pid>) returns (present': set<Pid>)
      requires server.Valid()
      modifies this, server`events
      ensures server.Valid()
      ensures active == Tracking(old(active), s)
      ensures server.events == old(server.events) + NewEvents(old(active), s)
      ensures present' == if s.game.Some? then present + {s.pid} else present
    {
      present' := present;
      if s.game.Some? {
        var id := s.game.value;
        present' := present + {s.pid};
        if !(s.pid in active && active[s.pid] == id) {
          var _ := server.HandleMessage(0, id, Rpc(SetActivity(Some(s.pid), Some(ActivityArg(Some(id)))), None));
        }
        active := active[s.pid := id];
      }
    }

    /** The pass over the sightings: which pids match, and the set events emitted. */
    method Observe(server: ServerState, seen: seq<Sighting>) returns (present: set<Pid>)
      requires server.Valid()
      modifies this, server`events
      ensures server.Valid()
      ensures active == TrackAll(old(active), seen)
      ensures server.events == old(server.events) + EventsOfAll(old(active), seen)
      ensures present == Matches(seen).Keys
    {
      present := {};
      for i := 0 to |seen|
        invariant server.Valid()
        invariant active == TrackAll(old(active), seen[..i])
        invariant server.events == old(server.events) + EventsOfAll(old(active), seen[..i])
        invariant present == Matches(seen[..i]).Keys
      {
        assert seen[..i + 1][..i] == seen[..i];
        Regroup(old(server.events), EventsOfAll(old(active), seen[..i]), NewEvents(active, seen[i]));
        present := Track(server, seen[i], present);
      }
      assert seen[..|seen|] == seen;
    }

    method ClearOne(server: ServerState, pid: Pid)
      requires server.Valid()
      modifies server`events
      ensures server.Valid() && server.events == old(server.events) + [ClearEvent(pid)]
    {
      var _ := server.HandleMessage(0, "", Rpc(SetActivity(Some(pid), None), None));
    }

    /** Clearing the lost pids, in any order. */
    method ClearLost(server: ServerState, lost: set<Pid>) returns (ghost clears: seq<Event>)
      requires server.Valid()
      modifies server`events
      ensures server.Valid() && server.events == old(server.events) + clears
      ensures ClearsOnce(lost, clears)
    {
      clears := [];
      var left := lost;
      while left != {}
        invariant server.Valid() && server.events == old(server.events) + clears
        invariant left <= lost && ClearsOnce(lost - left, clears)
        decreases |left|
      {
        var pid :| pid in left;
        assert lost - (left - {pid}) == (lost - left) + {pid};
        ClearsOneMore(lost - left, clears, pid);
        Regroup(old(server.events), clears, [ClearEvent(pid)]);
        left := left - {pid};
        clears := clears + [ClearEvent(pid)];
        ClearOne(server, pid);
      }
      assert lost - {} == lost;
    }

    method Scan(server: ServerState, seen: seq<Sighting>) returns (ghost added: seq<Event>)
      requires server.Valid()
      modifies this, server`events
      ensures server.Valid() && server.events == old(server.events) + added
      ensures active == Matches(seen)
      ensures ScanDid(old(active), seen, Matches(seen), added) && ScanEmits(old(active), seen, added)
    {
      var present := Observe(server, seen);
      PassTracks(old(active), seen);
      var lost := active.Keys - present;
      active := map pid | pid in active && pid in present :: active[pid];
      SameEverywhere(active, Matches(seen));
      ghost var clears := ClearLost(server, lost);
      ScanIsDone(old(active), seen, clears);
      added := EventsOfAll(old(active), seen) + clears;
      Regroup(old(server.events), EventsOfAll(old(active), seen), clears);
    }

    /** One scan over a process list. Looking a process up changes nothing, so the list is
        looked up as a whole before the sightings are gone through. */
    method ScanOnce(server: ServerState, db: DetectableDb, processes: seq<ProcessInfo>)
      returns (ghost added: seq<Event>)
      requires server.Valid()
      modifies this, server`events
      ensures server.Valid() && server.events == old(server.events) + added
      ensures active == Matches(Sightings(db.View(), processes))
      ensures ScanDid(old(active), Sightings(db.View(), processes), active, added)
      ensures ScanEmits(old(active), Sightings(db.View(), processes), added)
    {
      var seen := LookUp(db, processes);
      added := Scan(server, seen);
    }

    /** The scanner's life: before each scan the database may have been refreshed. */
    method Run(server: ServerState, first: DetectableDb, ticks: seq<Tick>)
      requires server.Valid()
      modifies this, server`events
      ensures server.Valid()
      ensures old(server.events) <= server.events
      ensures RunDid(old(active), active, server.events[|old(server.events)|..])
      ensures ticks != [] ==>
                active == Matches(Sightings(DbAt(first, ticks, |ticks| - 1).View(), ticks[|ticks| - 1].processes))
    {
      var db := first;
      ghost var events: seq<Event> := [];
      for i := 0 to |ticks|
        invariant server.Valid() && server.events == old(server.events) + events
        invariant RunDid(old(active), active, events)
        invariant db == if i == 0 then first else DbAt(first, ticks, i - 1)
        invariant i > 0 ==> active == Matches(Sightings(db.View(), ticks[i - 1].processes))
      {
        if ticks[i].refreshed.Some? {
          db := ticks[i].refreshed.value;
        }
        ghost var before := active;
        ghost var added := ScanOnce(server, db, ticks[i].processes);
        RunDidConcat(old(active), before, active, events, added);
        Regroup(old(server.events), events, added);
        events := events + added;
      }
      Appended(old(server.events), events);
    }
  }
}
