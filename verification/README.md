# dirpc: a verified model

This project models the parts of dirpc whose correctness is not visible in any single
function, and proves what they promise together:

- the index over detectable games (FST key set, name index, stored entries) against the
  plain linear scan it speeds up, its persisted form, and what a crash leaves of it;
- the string loops that turn a process path into lookup names;
- the tolerant search for entries in a payload of unknown shape, against its strict fast paths;
- the bridge's late-joiner protocol, with any number of clients and with lag;
- sessions over IPC and WebSocket, the bounded reply queue and the IPC wire format;
- the process scanner's event log;
- all of these tasks interleaved as one step system.

Code that changes state step by step is a class or a method with a loop, proved against a
specification function (`Paths.PathVariants` against `Variants`, `DetectableDb.MatchProcess`
against `Search`, `FileSystem.Rebuild` against the list of disk changes, `Session.ServeIpc`
against `SessionRun`); the theorems are lemmas about those functions. Tasks that run
concurrently are step relations with an inductive invariant (`Bridge`, `System`).

| file | contents |
|---|---|
| `Text.dfy`, `Paths.dfy`, `PathFacts.dfy` | splitting and joining; path variants, marker stripping, file name; distinctness and what a query sees of a path |
| `Matching.dfy`, `Index.dfy`, `Agreement.dfy`, `Ranking.dfy` | entries and the linear scan; building and searching the index; the two compared; a search spelled out |
| `Store.dfy` | the files, rebuild and open, crashes and recovery |
| `Payload.dfy` | the search for entries in a JSON document |
| `Bridge.dfy` | feeder, clients, lag |
| `Server.dfy`, `Codec.dfy`, `Session.dfy`, `Service.dfy`, `Wire.dfy` | server state, the wire format, one session, what it does for its client, what its client reads |
| `Scanner.dfy` | scans and the scanner's loop |
| `System.dfy`, `Progress.dfy`, `EndToEnd.dfy` | everything interleaved; runs that exist; from a client's request to what the bridge shows |
| `Timestamps.dfy` | seconds or milliseconds |

Taken as inputs: the clock, process lists, what the sockets and the disk do (each read, write
or disk change succeeds or fails as a parameter says), JSON parsing (a partial function from
bytes or documents) and UTF-8 validity (a predicate on bytes). Every `await` in a session's
loop is a point where the other tasks may step. A frame read is one step, or is given up
half-way with the bytes it had taken when a reply is flushed instead.

Where the code falls short of what its comments say, the model follows the code:

- `load_fst_from_db` is documented to detect a stale FST, but compares sizes only, and with no
  rows in EXES nothing at all. `Store.RecoveryIsExact` and `Store.CrashThenOpen` say exactly
  when the loaded keys are right, for every disk and for any two lists; `Store.CrashHidesGame`
  shows a crash after which a game is no longer found.
- Killed right after the new database file was created, the scanner accepts an FST full of
  names over a database without entries, at every later start (`Store.CrashBlindsScanner`).
  `Store.CrashThenStart` says exactly what a start-up ends with, whatever list it can fetch.
- The tag of a list is saved before the list is stored, so a list whose rebuild died is not
  fetched again: after a crash right after the removal the database stays empty
  (`Store.CrashForgetsList`). In both cases the weekly refresh gets an empty list too and keeps
  what there is, until the server has another list.
- The index drops an entry whose id is repeated later: `Agreement.IndexAnswersIff` is the
  exact condition, `Agreement.RepeatedIdIsLost` an example.
- Ids holding a newline do not survive a reopen: `Store.ReopenIsIdentity` is an equivalence on
  what is stored, `Store.RestartLosesIff` on what is answered, `Store.NewlineLosesGame` an
  example.
- Where the JSON library reads a structure from an array, the strict reading of a payload takes
  a wrapper written as a one-element array, which the tolerant search does not:
  `Payload.ParseIsSearch` is the exact condition, `Payload.ArrayWrapperExample` an example.
- A pong that breaks half-way is ignored, and what follows it on the wire is garbled:
  `Wire.ClientReadsBack` is the exact condition, `Wire.BrokenPongHidesReply` an example.
- Flushing a reply gives up a frame read under way, and the bytes it had taken are lost:
  `Session.FramesArriveInOrder` is the exact condition, `Session.GivenUpReadEndsSession` an
  example.
- All games of the scanner share socket 0, so losing one hides the others: `System.GamesHidden`
  is the exact condition, `Progress.SharedSocketHidesGame` an example.

## Model

| member | source | states |
|---|---|---|
| Text.SplitJoin | src/process/detectable.rs:457-464 | splitting at a separator undoes joining exactly when no part holds the separator |
| Paths.PathVariants | src/process/detectable.rs:837-868 | the offset loop emits exactly the specified variants, at most eight |
| Paths.SuffixVariants | src/process/detectable.rs:848-865 | cutting substrings out of one joined string gives each shorter component suffix in turn, longest first |
| Paths.PathFilename | src/process/detectable.rs:911-927 | the backward scan finds the last component of the forward split, and the empty string exactly when there is none |
| Paths.CutsAMarker | src/process/detectable.rs:882-905 | stripping a name ending in 64 cuts one of the four markers off its end |
| Paths.CutsLongestMarker | src/process/detectable.rs:886-904 | no longer marker fits: the most specific one is cut |
| Ranking.ComponentsByCharacter | src/process/detectable.rs:838-839 | slash and backslash split a path, nothing else does, and no component is empty |
| Ranking.VariantsAre | src/process/detectable.rs:842-865 | the variants are exactly the last one to four components joined by slashes, and each without its longest 64-bit marker |
| Paths.ComponentsConcat | src/process/detectable.rs:839 | splitting a path at any separator splits its component list |
| PathFacts.VariantsMembers | src/process/detectable.rs:842-865 | a name is a variant exactly when it is a suffix of the components, or such a suffix stripped |
| PathFacts.StripCommutesWithDirectories | src/process/detectable.rs:855-860 | stripping a joined path strips its last component only |
| PathFacts.LookupOrder | src/process/detectable.rs:594-600 | names of more components are looked up first, each before its stripped form, and the marked file name last |
| PathFacts.KeysAreDistinct | src/process/detectable.rs:567-576 | no name is looked up twice in one query, and there are none exactly when the path has no file name |
| PathFacts.SeparatorRunsAreAlike | src/process/detectable.rs:839 | repeated, leading and trailing separators of either kind change no component |
| PathFacts.SwappedSeparators | src/process/detectable.rs:838-839 | swapping slash and backslash anywhere changes no component |
| PathFacts.DeepPrefixIgnored | src/process/detectable.rs:842 | directories above the last four components do not matter |
| Matching.ArchivedMatch | src/process/detectable.rs:795-828 | the check of a stored entry holds exactly when one of its executables matches |
| Matching.AnyMatches | src/process/detectable.rs:939-963 | so does the scan's inner loop, written differently |
| Matching.FirstMatch | src/process/detectable.rs:930-967 | the linear scan returns the first matching entry, or nothing exactly when none matches |
| Index.BuildTables | src/process/detectable.rs:433-465 | the ingest loops build, per name, the ids in ingest order, and, per id, the last entry |
| Index.IdsForMembers | src/process/detectable.rs:449-454 | an id is listed for a name exactly when an entry with that id declares the name |
| Index.DetectableDb.MatchProcess | src/process/detectable.rs:562-639 | the pre-filter never changes the answer of going through all candidates of the query's keys |
| Index.DetectableDb.TryKeys | src/process/detectable.rs:594-636 | going through the keys with one dedup buffer gives the first hit of all candidates |
| Index.DetectableDb.TryIds | src/process/detectable.rs:606-635 | skipping ids already tried gives the first hit of the list |
| Agreement.StoredSurvive | src/process/detectable.rs:447 | the apps table holds exactly the entries no later entry with the same id replaced |
| Agreement.SearchIsSound | src/process/detectable.rs:594-636 | whatever FST and index hold, an answer is a stored entry that matches |
| Agreement.IndexAnswersIff | src/process/detectable.rs:562-639 | the index answers exactly when the path has a file name and a surviving entry matches |
| Agreement.IndexAgreesWithScan | src/process/detectable.rs:930-967 | with distinct ids and a file name, index and scan find a match on exactly the same inputs |
| Agreement.IndexRefinesScan | src/process/detectable.rs:562-639 | for every list, path and arguments, an indexed answer implies a scan answer |
| Agreement.ScanWithoutFilename | src/process/detectable.rs:569-570 | on a path of separators the index is silent and the scan matches exactly an executable named `>` |
| Agreement.RepeatedIdIsLost | src/process/detectable.rs:443-455 | a repeated id makes index and scan differ |
| Agreement.ExactWinner | src/process/detectable.rs:597-636 | with distinct ids the answer is the matching entry least by first declared key, then ingest order |
| Ranking.SearchSpelledOut | src/process/detectable.rs:562-639 | on every input, when an indexed search answers, in terms of components, markers, `>` and arguments alone |
| Ranking.WinnerSpelledOut | src/process/detectable.rs:594-636 | with distinct ids the answer is the fitting entry with the earliest place of a declared name: four components first, full before stripped, the marked file name last; then ingest order |
| Agreement.MatchersSeeTheTail | src/process/detectable.rs:567-568 | both matchers see only the last four components of a path |
| Agreement.MatchersIgnoreSwaps | src/process/detectable.rs:838-839 | swapping slash and backslash anywhere changes no answer of either matcher |
| Agreement.MatchersIgnore | src/process/detectable.rs:567-576 | nor do repeated, leading and trailing separators and deeper directories |
| Store.FileSystem.WriteFstFile | src/process/detectable.rs:701-733 | wherever it fails, the FST file is untouched or completely replaced |
| Store.FileSystem.Rebuild | src/process/detectable.rs:398-417 | performs exactly the listed disk changes up to the first failure, and yields the built database exactly when none fails |
| Store.FileSystem.Open | src/process/detectable.rs:364-377 | yields what the files hold, rewriting the FST only by the recovery rule |
| Store.OpenedWithoutTables | src/process/detectable.rs:503-509 | what opening a database without tables yields, for every FST file |
| Store.FirstRebuildThenStart | src/process/detectable.rs:398-417 | after a crash of the very first rebuild start-up ends with the fetched list or all of the first one |
| Store.RebuildPrefixes | src/process/detectable.rs:403-416 | stopped anywhere, a rebuild leaves the old FST or all of the new one, and the old database, none, an empty one, or all of the new one |
| Store.FileSystem.StartUp | src/process/mod.rs:84-110 | open, and rebuild from the fetched list when that fails or yields no names |
| Store.RecoveryIsExact | src/process/detectable.rs:499-547 | what open loads over any table; it is the table's key set unless the FST found is accepted and wrong: with no rows when it has any key, with rows when it has as many and neither set includes the other |
| Store.OpenIsRestartable | src/process/detectable.rs:535-546 | an open that dies while rewriting the FST loses nothing |
| Store.LoadUndoesSave | src/process/detectable.rs:511-520 | the name index comes back from its newline-joined form exactly when no listed id holds a newline |
| Store.ReopenIsIdentity | src/process/detectable.rs:499-547 | open after a rebuild gives the same database exactly when no listed id holds a newline |
| Store.ReopenAnswersAlike | src/process/detectable.rs:499-547 | without newlines in ids, answers survive a restart, for every path and arguments |
| Store.RestartLosesIff | src/process/detectable.rs:511-520 | a restart loses an answer exactly when only surviving entries whose ids hold a newline match, and makes none up |
| Store.NewlineLosesGame | src/process/detectable.rs:516-517 | a game whose id holds a newline is found until the restart |
| Store.OpenedIsSound | src/process/detectable.rs:523-546 | an opened database answers only what the scan over the stored list accepts, whatever the FST held |
| Store.CrashThenOpen | src/process/detectable.rs:398-417 | what an open yields after a rebuild was killed at each step, for any two lists, exactly |
| Store.CrashThenStart | src/process/mod.rs:84-110 | after such a crash, what start-up ends with, exactly, for any two lists and whatever list is fetched |
| Store.CrashThenRefetch | src/process/mod.rs:93-95 | if the new list is fetched again: exactly when start-up ends with it |
| Store.RefreshTakesNewList | src/process/mod.rs:121-138 | a refresh ends with the server's list exactly when that has another tag than the saved one and has entries |
| Store.CrashForgetsList | src/process/detectable.rs:290-299 | a list whose rebuild died is not fetched again: killed right after the removal, start-ups end with an empty database and refreshes keep it |
| Store.CrashBlindsScanner | src/process/mod.rs:84-91 | killed before the commit over a list with names, every later start-up keeps a database that answers nothing, and so does a refresh until the server has another list |
| Store.CrashHidesGame | src/process/detectable.rs:524-529 | killed between commit and rename, a swap of one game for another hides the new game from the next open |
| Payload.FoundIsReached | src/process/detectable.rs:174-209 | a result is read off every parsable item, and no other, in order, of an array some chain of keys leads to |
| Payload.SearchIsComplete | src/process/detectable.rs:174-209 | the search succeeds exactly when a chain of keys leads to an array that is empty or has a parsable item |
| Payload.SearchOrder | src/process/detectable.rs:178-190 | `applications` wins, then `data`, then `results`, then members in their order |
| Payload.ParseIsSearch | src/process/detectable.rs:148-172 | parsing returns what the search returns, repeated keys or not, exactly when the body is not a wrapper written as a one-element array, or, for a body that is no value, when no strict reading takes it |
| Payload.WrapperTakes | src/process/detectable.rs:153-160 | the strict wrapper is an object with exactly one member `applications`, a list of entries, whatever else it holds |
| Payload.ArrayWrapperExample | src/process/detectable.rs:153-160 | of `[[]]` the strict reading makes an empty list, the search nothing |
| Payload.StrictItemsAreParsable | src/process/detectable.rs:149-151 | a strict list succeeds exactly when every item parses, and then equals the tolerant one |
| Bridge.StepKeeps | src/bridge.rs:73-82 | every feeder and client step keeps: the latest message for a socket agrees with the map, and so does a client that has read and handled it |
| Bridge.LossIff | src/bridge.rs:26 | a client loses a message, its oldest, exactly when one is sent while it is 256 behind |
| Bridge.KeepingUpLosesNothing | src/bridge.rs:143-167 | in every run, a client never 256 messages behind has lost nothing |
| Bridge.LateJoinerConverges | src/bridge.rs:136-169 | after the snapshot, view plus queue plus message in flight is exactly the map, if nothing was lost |
| Bridge.LagLosesOnlyWhatItDropped | src/bridge.rs:164-166 | a lagging client is right on every socket whose latest update it did not lose |
| Bridge.DrainedClientAgrees | src/bridge.rs:131-187 | in every reachable state a drained client shows the map, and a lagged one agrees wherever it lost nothing |
| Bridge.BridgeState.Feed | src/bridge.rs:48-90 | the map ends as the events applied in order, and all of them are broadcast |
| Bridge.BridgeState.HandleClient | src/bridge.rs:143-169 | what a client is written, up to the first failed write, is a prefix of messages that, applied in order, are the queue applied to the map, whatever the iteration order |
| Bridge.BridgeState.Snapshot | src/bridge.rs:143-152 | the snapshot payloads in any order rebuild the map |
| Server.ServerState.constructor | src/server.rs:30-38 | ids start at one |
| Server.ServerState.NextId | src/server.rs:41-50 | returns the counter and advances it modulo 2^64 |
| Server.ServerState.RegisterSocket | src/server.rs:53-55 | the socket gets an empty queue, nothing else changes |
| Server.ServerState.UnregisterSocket | src/server.rs:58-65 | the socket is forgotten and its activity cleared |
| Server.ServerState.SendToSocket | src/server.rs:68-89 | appends unless 128 replies are queued or the socket is unknown |
| Server.ServerState.HandleMessage | src/server.rs:94-237 | which event and which reply a command causes; spelled out for whole sessions by `Service.RequestsAreHandled` |
| Service.RequestsAreHandled | src/server.rs:94-237 | a running session's events and replies are exactly those of the requests it read, in order: each SET_ACTIVITY announced under its own application id or the client's with the pid's low 32 bits, and answered, each CONNECTIONS_CALLBACK answered, nothing else |
| Service.LastEvent | src/server.rs:94-237 | a running session's last event announces its last SET_ACTIVITY |
| Service.RepliesGetWritten | src/server.rs:68-89 | every reply the queue took is written, in order, once flushed |
| Service.PingsAreAnswered | src/transports/ipc.rs:155-158 | each ping gets one pong |
| Service.TextsAreHandled | src/transports/websocket.rs:199-221 | over WebSocket exactly the text frames that parse are handled, in order; other frames change nothing |
| Service.FirstCloseEnds | src/transports/websocket.rs:214-219 | the first close, end or error leaves the loop |
| Service.BrokenReplyEnds | src/transports/ipc.rs:140-146 | a reply that cannot be written leaves the loop |
| Service.FramesAreHandled | src/transports/ipc.rs:151-179 | over IPC, what a frame of each opcode does, and what no frame does |
| Service.TransportsAgree | src/transports/websocket.rs:186-223 | the same texts sent as IPC frames, with flushes in the same places, make the same session |
| Session.TurnKeeps | src/transports/ipc.rs:135-182 | every turn of the loop keeps the session's accounts |
| Session.SessionConserves | src/transports/ipc.rs:124-182 | READY first and once; written replies are a prefix of the accepted ones; produced equals written plus failed plus queued plus dropped |
| Session.DroppedOnlyWhenFull | src/server.rs:69-79 | a reply is dropped only while 128 are queued |
| Session.FramesArriveInOrder | src/transports/ipc.rs:135-179 | the n-th frame read is the n-th of the client's bytes, and after the last the session ends, for whatever the client sends, exactly when nothing is read after a read was given up that had taken bytes |
| Session.SentFramesAreHandled | src/transports/ipc.rs:151-174 | a client that encodes its frames one after the other is understood frame by frame until such a read is given up |
| Session.GivenUpReadEndsSession | src/transports/ipc.rs:136-151 | a reply flushed while a ping was being read leaves the ping unanswered and ends the session |
| Wire.WireReadsBack | src/transports/ipc.rs:141-157 | which frames come out of the bytes of an output with broken writes |
| Wire.ClientReadsBack | src/transports/ipc.rs:125-157 | a session's client reads READY and all frames before a broken write; all frames written completely exactly when none follows a broken pong; nothing else exactly when, besides, the broken writes are no frame |
| Wire.OnePongPerPing | src/transports/ipc.rs:141-157 | while writes succeed, a client reads READY, then the texts of the replies in order and one frame of opcode 4 per ping |
| Wire.BrokenPongHidesReply | src/transports/ipc.rs:155-158 | a session answers a ping with one byte of the pong and then a request: its client never reads the reply |
| Session.Serve | src/transports/websocket.rs:183-225 | the loop computes the specified run and unregisters on every way out |
| Session.ServeIpc | src/transports/ipc.rs:132-184 | so does the loop over the byte stream, reading frames off it as it goes |
| Session.HandleIpcIo | src/transports/ipc.rs:85-186 | a session starts exactly on a first frame of opcode 0 that parses to version 1; without READY only an id is used; otherwise the session is served off the rest of the stream |
| Session.HandleConnection | src/transports/websocket.rs:166-228 | without READY only an id is used; otherwise the session is served |
| Codec.Stream.Next | src/transports/ipc.rs:40-49 | one frame is taken off the stream, or the stream ends |
| Codec.FrameLayout | src/transports/ipc.rs:13-21 | opcode in two's complement, then length, four bytes each, least significant first, then the body |
| Codec.ReadAllEncoded | src/transports/ipc.rs:13-49 | any list of frames with bodies below 2^32 bytes is recovered from its concatenated encoding |
| Codec.DecodeEncoded | src/transports/ipc.rs:13-37 | decoding an encoded frame, whatever follows, works exactly for bodies below 2^31 bytes |
| Codec.ProperPrefixYieldsNothing | src/transports/ipc.rs:25-32 | no proper prefix of a frame decodes |
| Codec.DecodedStartsWithEncoding | src/transports/ipc.rs:24-37 | accepted input starts with the re-encoding of its result, and the stream reader agrees |
| Codec.DecodeAgainstReadFrame | src/transports/ipc.rs:29-45 | the signed and the unsigned reading of the length agree where it is not negative; elsewhere nothing decodes |
| Scanner.ProcessScanner.ScanOnce | src/process/mod.rs:149-207 | events replay to the tracked games, which are the matches of this scan; each event changes something; one per changed pid; none exactly when nothing is new; first the new games in order, then one clear per loss |
| Scanner.ProcessScanner.Observe | src/process/mod.rs:158-187 | a set event exactly when the tracked id differs |
| Scanner.ProcessScanner.ClearLost | src/process/mod.rs:189-206 | each lost pid is cleared exactly once, in any order |
| Scanner.ProcessScanner.Run | src/process/mod.rs:113-145 | over any run with refreshes, all events replay to what is tracked and none is redundant |
| Scanner.DbAtIsLatest | src/process/mod.rs:121-144 | a scan uses the database of the latest tick that refreshed it |
| Scanner.ScanTracks | src/process/mod.rs:158-187 | with distinct ids, a pid is tracked exactly when a listed process with it has a file name and the linear scan answers for it, and as the winning entry of such a process |
| Scanner.BoardAfterScan | src/process/mod.rs:163-206 | what one scan leaves for socket 0: nothing when it lost a game, else the last one newly set, else what was there |
| Scanner.GamesHiddenIff | src/process/mod.rs:182-205 | exactly when one scan leaves games tracked and none of them shown |
| Scanner.ScanIsDone | src/process/mod.rs:189-206 | in whatever order the lost pids are cleared, a scan emits what it is to emit |
| Scanner.NothingRedundant | src/process/mod.rs:163-181 | no pid gets the same set twice in a row, and a clear always follows a set |
| Scanner.CountTells | src/process/mod.rs:163-206 | a pid with at most one event has one exactly if its tracking changed |
| Scanner.ClearedAll | src/process/mod.rs:198-206 | any order of clearing ends in the same tracked games |
| System.ActionKeeps | src/transports/ipc.rs:118-184 | every action of any task keeps the invariant of the whole |
| System.BoardFollows | src/bridge.rs:50-87 | for every socket whose latest event was not overwritten, the board with the pending events applied is everything ever emitted, applied in order |
| System.BoardIsEverythingEmitted | src/bridge.rs:50-87 | if nothing was overwritten, that holds of the board as a whole |
| System.ClientsShowTheLatest | src/bridge.rs:131-187 | without lag, a client that has caught up shows every socket's latest event, or nothing if that was a clear |
| EndToEnd.ClientsShowActivity | src/server.rs:94-237 | in every run without loss, a caught-up bridge client shows for a running session exactly its last SET_ACTIVITY, or nothing when that was null or there was none |
| EndToEnd.OverwritesIff | src/server.rs:31 | an event overwrites the oldest unread one exactly when the feeder is 64 behind |
| EndToEnd.KeepingUpOverwritesNothing | src/bridge.rs:48-90 | in every run, a feeder never 64 events behind has lost nothing |
| EndToEnd.SessionHappens | src/transports/websocket.rs:172-223 | for every client id and list of inputs there is a run that serves a session with exactly those |
| EndToEnd.SessionFinishes | src/server.rs:58-65 | a session that left its loop can finish, and is then neither registered nor on the board |
| System.NoStaleActivity | src/server.rs:58-65 | once the feeder caught up, every socket on the board is the scanner's, a session that has not finished unregistering, or one whose clearing event was overwritten |
| System.ClientsSeeNoStaleActivity | src/bridge.rs:131-187 | without lag, a client that has caught up sees activity only of the scanner and of unfinished sessions |
| System.ScannerOnBoard | src/process/mod.rs:155-206 | between scans, without lag, socket 0 shows exactly what the scans come down to by what each was given; what it shows is a pid and game the last scan matched |
| System.GamesHidden | src/process/mod.rs:182-205 | exactly when games are tracked and none is on the board: the last scan lost one, or found nothing new while none was shown |
| System.SessionsStaySeparate | src/server.rs:41-65 | under every interleaving ids are fresh, sockets are registered exactly while a session is in or just out of its loop, and each session's state, output, queue and events are those of its inputs served alone |
| Progress.ScanHappens | src/process/mod.rs:155-206 | from any settled state a scan of any process list can run, to a settled state |
| Progress.SharedSocketHidesGame | src/process/mod.rs:182-205 | a reachable state: one scan found two games, the next only the first, which is tracked and not on the board |
| Progress.ClientCanCatchUp | src/bridge.rs:131-187 | from every state, a subscribed client that has lost nothing can catch up by steps of the feeder and of clients alone |
| Progress.NewClientCanCatchUp | src/bridge.rs:131-187 | so can one that joins at any time |
| Timestamps.DigitBounds | src/server.rs:260-262 | d digits means between 10^(d-1) and 10^d |
| Timestamps.ScaledBound | src/server.rs:251-252 | a scaled timestamp stays below 10^N in magnitude |
| Timestamps.NoOverflowIff | src/server.rs:246-256 | the product stays in i64 for every timestamp exactly when the current time has at most 18 digits |
| Timestamps.ScalesByMagnitude | src/server.rs:246-256 | with the current time between 10^(n-1) and 10^n, exactly the timestamps below 10^(n-3) are multiplied by 1000 |
| Timestamps.IdempotentIff | src/server.rs:246-256 | converting twice is converting once exactly when the timestamp is zero or has at least N - 5 digits |

## Left out

- FST encoding, memory mapping, redb, rkyv, papaya and tokio: the FST is a key set, tables and maps are maps, a rename is one atomic change, channels are bounded sequences.
- A power loss, and a database file that cannot be removed: only the process stops, and the removal before a rebuild succeeds.
- A lagging broadcast receiver skips the oldest message when the queue overflows, not at its next receive; the messages it gets are the same.
- Payload.ParseIsSearch: what the JSON library makes of a repeated key, and whether it reads a structure from an array, are parameters, and so is which bodies parse as a value.
- Agreement.IndexAgreesWithScan: says whether a match is found, not which; the scan takes list order, the index key order (`Agreement.ExactWinner`).
- System.NoStaleActivity: runs in which the id counter wraps around at 2^64 are not modelled.
- Scanner.ProcessScanner.ScanOnce: does not relate the bridge's map to the tracked games, because all games share socket 0; the list is looked up as a whole before the sightings are gone through. What the map shows of a scan is `System.ScannerOnBoard`.
- Bridge.BridgeState.HandleClient: the map stands still during the snapshot, and the client does not disconnect of its own accord; the step system in `Bridge` has both.
- Server.ServerState.HandleMessage: of an event only application id, pid and socket, of a reply only the command and the client id.
- Session.HandleIpcIo: one select turn is one step, and the other tasks' steps are in `System`, not in the method; a flush turn with nothing queued, which never comes up, is allowed and changes no more than the unread bytes.
- Bodies of 2^32 bytes and more, whose length the encoder truncates, are not claimed to round-trip.
- Fetching the list: of it only the list, its tag and the saved tag, and saving the tag succeeds.
- Cache directories, listeners, socket probing, process enumeration, command line, logging: plumbing around the modelled core.
- The WebSocket upgrade, origin and query checks: driven by a library or a single branch.
- Fields of the SET_ACTIVITY reply, buttons and the other commands' payloads: only the event, its application id and pid, and whether a reply exists.
- Error texts: describing payload shapes and HTTP errors.
