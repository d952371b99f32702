/** The persisted form of the index, what a crash leaves of it, and what `open` makes of
    that: src/process/detectable.rs, `rebuild_with_fst`, `open_with_fst`, `write_fst_file`. */
module Store {
  import opened Wrappers
  import opened Text
  import opened Paths
  import opened PathFacts
  import opened Matching
  import opened Index
  import opened Agreement

  datatype DbFile =
    | Missing
    | NotADatabase
    | NoTables
    | Tables(apps: map<string, Entry>, exes: map<string, string>)

  datatype FstFile = Absent | ZeroBytes | Unparsable | Fst(keys: set<string>)

  // The two files, and the sibling temp file nothing ever reads.
  datatype Disk = Disk(db: DbFile, fst: FstFile, tmp: FstFile)

  // One atomic change to the files; a process can stop between any two.
  datatype Op =
    | RemoveDb
    | CreateDb
    | Commit(apps: map<string, Entry>, exes: map<string, string>)
    | OpenTemp
    | FillTemp(keys: set<string>)
    | RenameTemp

  function Exec(d: Disk, op: Op): Disk {
    match op
    case RemoveDb => d.(db := Missing)
    case CreateDb => d.(db := NoTables)
    case Commit(apps, exes) => d.(db := Tables(apps, exes))
    case OpenTemp => d.(tmp := Unparsable)
    case FillTemp(keys) => d.(tmp := Fst(keys))
    case RenameTemp => d.(fst := d.tmp, tmp := Absent)
  }

  function ExecAll(d: Disk, ops: seq<Op>): Disk {
    if ops == [] then d else Exec(ExecAll(d, ops[..|ops| - 1]), ops[|ops| - 1])
  }

  // What the first n changes of a list leave.
  function After(d: Disk, ops: seq<Op>, n: nat): Disk {
    ExecAll(d, ops[..if n < |ops| then n else |ops|])
  }

  const NEWLINE: set<char> := {'\n'}

  function SaveIndex(index: map<string, seq<string>>): map<string, string> {
    map name | name in index :: Join(index[name], '\n')
  }

  function LoadIndex(exes: map<string, string>): map<string, seq<string>> {
    map name | name in exes :: Split(exes[name], NEWLINE)
  }

  function WriteOps(keys: set<string>): seq<Op> {
    [OpenTemp, FillTemp(keys), RenameTemp]
  }

  function RebuildOps(entries: seq<Entry>): seq<Op> {
    [RemoveDb, CreateDb, Commit(AppsOf(entries), SaveIndex(IndexOf(entries)))] + WriteOps(ExeNames(entries))
  }

  // Opening rewrites the FST when it is unreadable or its size differs from the table's.
  function OpenOps(d: Disk): seq<Op> {
    match d.db
    case Missing => []
    case NotADatabase => []
    case NoTables => if d.fst.Absent? || d.fst.ZeroBytes? then WriteOps({}) else []
    case Tables(_, exes) =>
      if (d.fst.Fst? && |d.fst.keys| == |exes|) || exes == map[] then [] else WriteOps(exes.Keys)
  }

  function Loaded(d: Disk): Option<Db> {
    if !d.fst.Fst? then None
    else match d.db
         case Tables(apps, exes) => Some(Db(d.fst.keys, LoadIndex(exes), apps))
         case NoTables => Some(Db(d.fst.keys, map[], map[]))
         case _ => None
  }

  // What opening the files of `d` yields, when nothing goes wrong on the way.
  function Opened(d: Disk): Option<Db> {
    Loaded(ExecAll(d, OpenOps(d)))
  }

  function Rebuilt(d: Disk, entries: seq<Entry>): Disk {
    ExecAll(d, RebuildOps(entries))
  }

  // The entries as they come back from the files.
  function Reloaded(entries: seq<Entry>): Db {
    Db(ExeNames(entries), LoadIndex(SaveIndex(IndexOf(entries))), AppsOf(entries))
  }

  // Start-up keeps what opening yields unless that fails or has no names; then it rebuilds
  // from the fetched list.
  predicate Kept(d: Disk) {
    Opened(d).Some? && Opened(d).value.fst != {}
  }

  function StartedUp(d: Disk, fetched: seq<Entry>): Db {
    if Kept(d) then Opened(d).value else Built(fetched)
  }

  function StartOps(d: Disk, fetched: seq<Entry>): seq<Op> {
    OpenOps(d) + if Kept(d) then [] else RebuildOps(fetched)
  }

  // ─── What stopping half-way leaves ──────────────────────────────────────────

  lemma OneMore(d: Disk, ops: seq<Op>, n: nat)
    requires n < |ops|
    ensures After(d, ops, n + 1) == Exec(After(d, ops, n), ops[n])
  {
    assert ops[..n + 1][..n] == ops[..n];
  }

  lemma WritePrefixes(d: Disk, keys: set<string>)
    ensures var ops := WriteOps(keys);
            && After(d, ops, 0) == d
            && After(d, ops, 1) == d.(tmp := Unparsable)
            && After(d, ops, 2) == d.(tmp := Fst(keys))
            && (forall n :: n >= 3 ==> After(d, ops, n) == d.(fst := Fst(keys), tmp := Absent))
  {
    var ops := WriteOps(keys);
    OneMore(d, ops, 0);
    OneMore(d, ops, 1);
    OneMore(d, ops, 2);
  }

  /** Wherever a rebuild stops, the FST file is untouched or completely the new one, and
      the database is the old one, gone, without tables, or completely the new one. */
  lemma RebuildPrefixes(d: Disk, entries: seq<Entry>)
    ensures var ops := RebuildOps(entries);
            var tables := Tables(AppsOf(entries), SaveIndex(IndexOf(entries)));
            && After(d, ops, 0) == d
            && After(d, ops, 1) == d.(db := Missing)
            && After(d, ops, 2) == d.(db := NoTables)
            && After(d, ops, 3) == d.(db := tables)
            && After(d, ops, 4) == d.(db := tables, tmp := Unparsable)
            && After(d, ops, 5) == d.(db := tables, tmp := Fst(ExeNames(entries)))
            && (forall n :: n >= 6 ==> After(d, ops, n) == Disk(tables, Fst(ExeNames(entries)), Absent))
            && Rebuilt(d, entries) == After(d, ops, 6)
  {
    var ops := RebuildOps(entries);
    OneMore(d, ops, 0);
    OneMore(d, ops, 1);
    OneMore(d, ops, 2);
    OneMore(d, ops, 3);
    OneMore(d, ops, 4);
    OneMore(d, ops, 5);
    assert ops[..6] == ops;
  }

  lemma {:induction false} ExecBoth(d: Disk, a: seq<Op>, b: seq<Op>)
    ensures ExecAll(d, a + b) == ExecAll(ExecAll(d, a), b)
  {
    if b == [] {
      assert a + b == a;
    } else {
      var init := b[..|b| - 1];
      assert (a + b)[..|a + b| - 1] == a + init;
      ExecBoth(d, a, init);
    }
  }

  lemma AfterBoth(d: Disk, a: seq<Op>, b: seq<Op>, n: nat)
    ensures After(d, a + b, n) == After(After(d, a, n), b, if n < |a| then 0 else n - |a|)
  {
    if n < |a| {
      assert (a + b)[..n] == a[..n];
    } else {
      var m := if n - |a| < |b| then n - |a| else |b|;
      assert (a + b)[..|a| + m] == a + b[..m];
      ExecBoth(d, a, b[..m]);
      assert a[..|a|] == a;
    }
  }

  // ─── The imperative forms ───────────────────────────────────────────────────

  /** The file system. `left` changes still succeed; every later one fails, as it does
      when the process is killed or the device gives up. */
  class FileSystem {
    var disk: Disk
    var left: nat

    method Do(op: Op) returns (ok: bool)
      modifies this
      ensures ok <==> old(left) > 0
      ensures disk == if ok then Exec(old(disk), op) else old(disk)
      ensures left == if ok then old(left) - 1 else 0
    {
      ok := left > 0;
      if ok {
        disk := Exec(disk, op);
        left := left - 1;
      }
    }

    method WriteFstFile(keys: set<string>) returns (ok: bool)
      modifies this
      ensures ok <==> old(left) >= 3
      ensures disk == After(old(disk), WriteOps(keys), old(left))
      ensures left == if ok then old(left) - 3 else 0
    {
      WritePrefixes(disk, keys);
      ok := Do(OpenTemp);
      if !ok { return; }
      ok := Do(FillTemp(keys));
      if !ok { return; }
      ok := Do(RenameTemp);
    }

    method Rebuild(entries: seq<Entry>) returns (r: Option<DetectableDb>)
      modifies this
      ensures disk == After(old(disk), RebuildOps(entries), old(left))
      ensures r.Some? <==> old(left) >= 6
      ensures r.Some? ==> r.value.View() == Built(entries)
    {
      RebuildPrefixes(disk, entries);
      var _ := Do(RemoveDb);
      var ok := Do(CreateDb);
      if !ok { return None; }
      var exeToIds, apps := BuildTables(entries);
      ok := Do(Commit(apps, SaveIndex(exeToIds)));
      if !ok { return None; }
      assert exeToIds.Keys == ExeNames(entries);
      WritePrefixes(disk, exeToIds.Keys);
      ok := WriteFstFile(exeToIds.Keys);
      if !ok {
        assert old(left) == 3 || old(left) == 4 || old(left) == 5;
        return None;
      }
      var handle := new DetectableDb(Db(disk.fst.keys, exeToIds, apps));
      r := Some(handle);
    }

    method Open() returns (r: Option<DetectableDb>)
      modifies this
      ensures disk == After(old(disk), OpenOps(old(disk)), old(left))
      ensures left == if old(left) >= |OpenOps(old(disk))| then old(left) - |OpenOps(old(disk))| else 0
      ensures r.Some? <==> old(left) >= |OpenOps(old(disk))| && Opened(old(disk)).Some?
      ensures r.Some? ==> Opened(old(disk)) == Some(r.value.View())
    {
      var ops := OpenOps(disk);
      assert ops[..|ops|] == ops;
      match disk.db {
        case Missing => return None;
        case NotADatabase => return None;
        case NoTables =>
          if !disk.fst.Fst? {
            if disk.fst.Unparsable? { return None; }
            WritePrefixes(disk, {});
            var ok := WriteFstFile({});
            if !ok { return None; }
          }
          var handle := new DetectableDb(Db(disk.fst.keys, map[], map[]));
          r := Some(handle);
        case Tables(apps, exes) =>
          if !(disk.fst.Fst? && |disk.fst.keys| == |exes|) && exes != map[] {
            WritePrefixes(disk, exes.Keys);
            var ok := WriteFstFile(exes.Keys);
            if !ok { return None; }
          }
          if !disk.fst.Fst? { return None; }
          var handle := new DetectableDb(Db(disk.fst.keys, LoadIndex(exes), apps));
          r := Some(handle);
      }
    }

    /** The scanner's start-up: open, and rebuild when that fails or yields no names. */
    method StartUp(fetched: seq<Entry>) returns (r: Option<DetectableDb>)
      modifies this
      ensures disk == After(old(disk), StartOps(old(disk), fetched), old(left))
      ensures r.Some? <==> old(left) >= |StartOps(old(disk), fetched)|
      ensures r.Some? ==> r.value.View() == StartedUp(old(disk), fetched)
    {
      AfterBoth(disk, OpenOps(disk), [], left);
      AfterBoth(disk, OpenOps(disk), RebuildOps(fetched), left);
      r := Open();
      if r.Some? {
        if r.value.fst != {} {
          return;
        }
      }
      r := Rebuild(fetched);
    }
  }

  // ─── Recovery ───────────────────────────────────────────────────────────────

  lemma SubsetOfEqualSize<T>(a: set<T>, b: set<T>)
    requires a <= b && |a| == |b|
    ensures a == b
  {
    assert b == a + (b - a);
  }

  // An FST that open takes as it is: with rows in EXES one of their number, without rows any.
  predicate Accepted(fst: FstFile, exes: map<string, string>) {
    fst.Fst? && (|fst.keys| == |exes| || exes == map[])
  }

  /** The recovery rule, exactly: the table's rows come back as they are, and so does its key
      set, unless the FST file found is accepted and wrong: with no rows, when it has any
      key; with rows, when it has as many keys and neither set includes the other. */
  lemma RecoveryIsExact(d: Disk)
    requires d.db.Tables?
    ensures Opened(d).Some? <==> d.fst.Fst? || d.db.exes != map[]
    ensures Opened(d).Some? ==>
              var keys := d.db.exes.Keys;
              && Opened(d).value == Db(if Accepted(d.fst, d.db.exes) then d.fst.keys else keys, LoadIndex(d.db.exes), d.db.apps)
              && (Opened(d).value.fst == keys <==>
                  !(d.fst.Fst? && if d.db.exes == map[] then d.fst.keys != {}
                                  else |d.fst.keys| == |d.db.exes| && !(d.fst.keys <= keys) && !(keys <= d.fst.keys)))
  {
    var keys := d.db.exes.Keys;
    WritePrefixes(d, keys);
    assert WriteOps(keys)[..3] == WriteOps(keys);
    assert |keys| == |d.db.exes|;
    if d.fst.Fst? && |d.fst.keys| == |keys| {
      if d.fst.keys <= keys {
        SubsetOfEqualSize(d.fst.keys, keys);
      }
      if keys <= d.fst.keys {
        SubsetOfEqualSize(keys, d.fst.keys);
      }
    }
  }

  /** An open that dies while rewriting the FST loses nothing: the next one yields what it
      would have yielded. */
  lemma OpenIsRestartable(d: Disk, n: nat)
    ensures Opened(After(d, OpenOps(d), n)) == Opened(d)
  {
    var ops := OpenOps(d);
    if ops != [] {
      var keys := if d.db.Tables? then d.db.exes.Keys else {};
      assert d.db.Tables? ==> |keys| == |d.db.exes|;
      WritePrefixes(d, keys);
      assert ops[..3] == ops;
      if n >= 3 {
        assert OpenOps(After(d, ops, n)) == [];
      } else {
        WritePrefixes(After(d, ops, n), keys);
        assert OpenOps(After(d, ops, n)) == ops;
      }
    }
  }

  // ─── Reopening ──────────────────────────────────────────────────────────────

  // No id of an entry with executables holds the character that separates ids.
  ghost predicate IdsHoldNoNewline(entries: seq<Entry>) {
    forall i :: 0 <= i < |entries| && entries[i].executables != [] ==> Free(entries[i].id, NEWLINE)
  }

  lemma ListedIdsFree(entries: seq<Entry>, name: string)
    requires IdsHoldNoNewline(entries)
    ensures AllFree(IdsFor(entries, name), NEWLINE)
  {
    var ids := IdsFor(entries, name);
    forall j | 0 <= j < |ids|
      ensures Free(ids[j], NEWLINE)
    {
      IdsForMembers(entries, name, ids[j]);
      var i :| DeclaredAs(entries, name, ids[j], i);
    }
  }

  /** Loading undoes saving exactly when no listed id holds a newline. */
  lemma LoadUndoesSave(entries: seq<Entry>)
    ensures LoadIndex(SaveIndex(IndexOf(entries))) == IndexOf(entries) <==> IdsHoldNoNewline(entries)
  {
    var index := IndexOf(entries);
    var loaded := LoadIndex(SaveIndex(index));
    forall name | name in index
      ensures name in loaded && (loaded[name] == index[name] <==> AllFree(index[name], NEWLINE))
    {
      NamesHaveIds(entries, name);
      SplitJoin(index[name], '\n');
    }
    if IdsHoldNoNewline(entries) {
      forall name | name in index
        ensures loaded[name] == index[name]
      {
        ListedIdsFree(entries, name);
      }
    }
    if loaded == index {
      forall i | 0 <= i < |entries| && entries[i].executables != []
        ensures Free(entries[i].id, NEWLINE)
      {
        var name := entries[i].executables[0].name;
        assert Declares(entries[i], name);
        NamesHaveIds(entries, name);
        IdsForMembers(entries, name, entries[i].id);
        assert DeclaredAs(entries, name, entries[i].id, i);
        assert AllFree(index[name], NEWLINE) && entries[i].id in index[name];
      }
    }
  }

  lemma ReopenReloads(d: Disk, entries: seq<Entry>)
    ensures Opened(Rebuilt(d, entries)) == Some(Reloaded(entries))
  {
    RebuildPrefixes(d, entries);
    var exes := Rebuilt(d, entries).db.exes;
    assert exes.Keys == ExeNames(entries) && |exes| == |exes.Keys|;
  }

  /** Opening what a completed rebuild left gives back the very same database exactly when
      no listed id holds a newline; its key set and entries come back in any case. */
  lemma ReopenIsIdentity(d: Disk, entries: seq<Entry>)
    ensures Opened(Rebuilt(d, entries)).Some?
    ensures var db := Opened(Rebuilt(d, entries)).value;
            && db.fst == ExeNames(entries) && db.apps == AppsOf(entries)
            && (db == Built(entries) <==> IdsHoldNoNewline(entries))
  {
    ReopenReloads(d, entries);
    LoadUndoesSave(entries);
  }

  /** Without newlines in ids, answers survive a restart. */
  lemma ReopenAnswersAlike(d: Disk, entries: seq<Entry>, path: string, args: seq<string>)
    requires IdsHoldNoNewline(entries)
    ensures Opened(Rebuilt(d, entries)).Some?
    ensures Search(Opened(Rebuilt(d, entries)).value, path, args) == Search(Built(entries), path, args)
  {
    ReopenIsIdentity(d, entries);
  }

  // ─── What a newline in an id loses ──────────────────────────────────────────

  // Some surviving entry matches whose id comes back whole.
  ghost predicate ReadableMatches(entries: seq<Entry>, q: Query) {
    exists i :: Survives(entries, i) && EntryMatches(entries[i], q) && Free(entries[i].id, NEWLINE)
  }

  lemma {:induction false} WholeIdComesBack(ids: seq<string>, id: string)
    requires id in ids && Free(id, NEWLINE)
    ensures id in Split(Join(ids, '\n'), NEWLINE)
  {
    if ids[0] == id {
      SplitFree(id, NEWLINE, "");
      assert "" + id == id;
    }
    if |ids| > 1 {
      SplitConcat(ids[0], '\n', Join(ids[1..], '\n'), NEWLINE, "");
      if ids[0] != id {
        WholeIdComesBack(ids[1..], id);
      }
    }
  }

  // Every id that comes back is free of newlines.
  lemma ReloadedCandidateIsFree(entries: seq<Entry>, keys: seq<string>, id: string)
    requires id in Candidates(Reloaded(entries), keys)
    ensures Free(id, NEWLINE) && keys != []
  {
    var db := Reloaded(entries);
    CandidatesMembers(db, keys, id);
    var key :| key in keys && key in db.fst && id in Lookup(db.index, key);
    PiecesAreFree(Join(IdsFor(entries, key), '\n'), NEWLINE, "");
  }

  lemma ReloadedAnswerIsReadable(entries: seq<Entry>, path: string, args: seq<string>)
    ensures Search(Reloaded(entries), path, args).Some? ==>
              Filename(path) != "" && ReadableMatches(entries, QueryOf(path, args))
  {
    var apps, q := AppsOf(entries), QueryOf(path, args);
    var ids := Candidates(Reloaded(entries), Keys(path));
    FirstHitIff(apps, ids, q);
    if id :| id in ids && Hit(apps, id, q) {
      ReloadedCandidateIsFree(entries, Keys(path), id);
      StoredSurvive(entries, id);
      KeysAreDistinct(path);
    }
  }

  // A newline-free id listed for a name comes back under that name.
  lemma ReloadedCandidate(entries: seq<Entry>, keys: seq<string>, key: string, i: nat)
    requires key in keys && i < |entries| && Declares(entries[i], key) && Free(entries[i].id, NEWLINE)
    ensures entries[i].id in Candidates(Reloaded(entries), keys)
  {
    var db, id := Reloaded(entries), entries[i].id;
    NamesHaveIds(entries, key);
    IdsForMembers(entries, key, id);
    assert DeclaredAs(entries, key, id, i);
    WholeIdComesBack(IdsFor(entries, key), id);
    assert id in Lookup(db.index, key);
    CandidatesMembers(db, keys, id);
  }

  lemma ReadableEntryIsFound(entries: seq<Entry>, path: string, args: seq<string>, i: nat)
    requires Filename(path) != "" && Survives(entries, i) && Free(entries[i].id, NEWLINE)
    requires EntryMatches(entries[i], QueryOf(path, args))
    ensures Search(Reloaded(entries), path, args).Some?
  {
    var q, id := QueryOf(path, args), entries[i].id;
    MatchedEntryIsCandidate(entries, path, args, i);
    var key :| key in Keys(path) && Declares(entries[i], key);
    ReloadedCandidate(entries, Keys(path), key, i);
    StoredSurvive(entries, id);
    assert Hit(AppsOf(entries), id, q);
    FirstHitIff(AppsOf(entries), Candidates(Reloaded(entries), Keys(path)), q);
  }

  /** For every list, path and arguments: a restart loses the answer exactly when some
      surviving entry matches, but only ones whose id holds a newline; and it never makes
      one up. */
  lemma RestartLosesIff(d: Disk, entries: seq<Entry>, path: string, args: seq<string>)
    ensures Opened(Rebuilt(d, entries)).Some?
    ensures var before := Search(Built(entries), path, args);
            var after := Search(Opened(Rebuilt(d, entries)).value, path, args);
            var q := QueryOf(path, args);
            && (after.Some? <==> Filename(path) != "" && ReadableMatches(entries, q))
            && (after.Some? ==> before.Some?)
            && (before.Some? && after.None? <==>
                Filename(path) != "" && SurvivorMatches(entries, q) && !ReadableMatches(entries, q))
  {
    ReopenReloads(d, entries);
    IndexAnswersIff(entries, path, args);
    var q := QueryOf(path, args);
    ReloadedAnswerIsReadable(entries, path, args);
    if Filename(path) != "" && ReadableMatches(entries, q) {
      var i :| Survives(entries, i) && EntryMatches(entries[i], q) && Free(entries[i].id, NEWLINE);
      ReadableEntryIsFound(entries, path, args, i);
    }
  }

  // ─── Crash, then open ───────────────────────────────────────────────────────

  /** Whatever the files hold, an opened database only answers with stored entries the
      linear scan accepts too. */
  lemma OpenedIsSound(d: Disk, entries: seq<Entry>, path: string, args: seq<string>)
    requires d.db.Tables? && d.db.apps == AppsOf(entries) && Opened(d).Some?
    ensures Search(Opened(d).value, path, args).Some? ==> FirstMatch(entries, QueryOf(path, args)).Some?
  {
    WritePrefixes(d, d.db.exes.Keys);
    assert WriteOps(d.db.exes.Keys)[..3] == WriteOps(d.db.exes.Keys);
    SearchIsSound(Opened(d).value, entries, path, args);
  }

  lemma CrashedAfterCommit(d: Disk, was: seq<Entry>, now: seq<Entry>, k: nat)
    requires k >= 3
    ensures var crashed := After(Rebuilt(d, was), RebuildOps(now), k);
            && crashed.db == Tables(AppsOf(now), SaveIndex(IndexOf(now)))
            && crashed.fst == Fst(if k >= 6 then ExeNames(now) else ExeNames(was))
  {
    RebuildPrefixes(d, was);
    RebuildPrefixes(Rebuilt(d, was), now);
  }

  // Whether the old key set gives itself away over the new table, or is the new one.
  predicate FreshKeys(was: seq<Entry>, now: seq<Entry>) {
    ExeNames(was) == ExeNames(now) || (ExeNames(now) != {} && |ExeNames(was)| != |ExeNames(now)|)
  }

  lemma CommittedThenOpen(d: Disk, was: seq<Entry>, now: seq<Entry>, k: nat)
    requires k >= 3
    ensures Opened(After(Rebuilt(d, was), RebuildOps(now), k)) ==
            Some(Reloaded(now).(fst := if k >= 6 || FreshKeys(was, now) then ExeNames(now) else ExeNames(was)))
  {
    var crashed := After(Rebuilt(d, was), RebuildOps(now), k);
    CrashedAfterCommit(d, was, now, k);
    var exes := crashed.db.exes;
    assert exes.Keys == ExeNames(now) && |exes| == |exes.Keys|;
    RecoveryIsExact(crashed);
  }

  /** A rebuild over a completed one is killed after k changes and the files are opened, for
      any two lists. Before the removal nothing has happened; then there is no database;
      then one without entries over the old key set; from the commit on the entries are the
      new ones, and their names too exactly when the FST got replaced or the old key set
      gives itself away or is the new one. */
  lemma CrashThenOpen(d: Disk, was: seq<Entry>, now: seq<Entry>, k: nat)
    ensures var r := Opened(After(Rebuilt(d, was), RebuildOps(now), k));
            && (k == 0 ==> r == Some(Reloaded(was)))
            && (k == 1 ==> r == None)
            && (k == 2 ==> r == Some(Db(ExeNames(was), map[], map[])))
            && (k >= 3 ==> r.Some? && r.value.(fst := {}) == Reloaded(now).(fst := {}))
            && (k >= 3 ==> (r.value.fst == ExeNames(now) <==> k >= 6 || FreshKeys(was, now)))
            && (k >= 3 ==> (r.value == Built(now) <==> IdsHoldNoNewline(now) && (k >= 6 || FreshKeys(was, now))))
  {
    RebuildPrefixes(d, was);
    RebuildPrefixes(Rebuilt(d, was), now);
    ReopenReloads(d, was);
    if k >= 3 {
      CommittedThenOpen(d, was, now, k);
      LoadUndoesSave(now);
    }
  }

  // ─── Crash, then start up ───────────────────────────────────────────────────

  lemma NamelessHoldsNoNewline(entries: seq<Entry>)
    ensures IdsHoldNoNewline(entries) || ExeNames(entries) != {}
  {
    if i :| 0 <= i < |entries| && entries[i].executables != [] {
      assert entries[i].executables[0].name in ExeNames(entries);
    }
  }

  // The names found after the crash, once the new entries are committed.
  function NamesLeft(was: seq<Entry>, now: seq<Entry>, k: nat): set<string> {
    if k >= 6 || FreshKeys(was, now) then ExeNames(now) else ExeNames(was)
  }

  /** Start-up after that crash, for any two lists and whatever list it could fetch: it ends
      with the fetched list wherever no names are left, and keeps what it finds elsewhere. */
  lemma CrashThenStart(d: Disk, was: seq<Entry>, now: seq<Entry>, fetched: seq<Entry>, k: nat)
    ensures var db := StartedUp(After(Rebuilt(d, was), RebuildOps(now), k), fetched);
            && (k == 0 ==> db == if ExeNames(was) == {} then Built(fetched) else Reloaded(was))
            && (k == 1 ==> db == Built(fetched))
            && (k == 2 ==> db == if ExeNames(was) == {} then Built(fetched) else Db(ExeNames(was), map[], map[]))
            && (k >= 3 ==> var names := NamesLeft(was, now, k);
                           db == if names == {} then Built(fetched) else Reloaded(now).(fst := names))
  {
    CrashThenOpen(d, was, now, k);
    if k >= 3 {
      CommittedThenOpen(d, was, now, k);
    }
  }

  /** Exactly when start-up ends with the new list, if that is what it fetches again. */
  lemma CrashThenRefetch(d: Disk, was: seq<Entry>, now: seq<Entry>, k: nat)
    ensures var db := StartedUp(After(Rebuilt(d, was), RebuildOps(now), k), now);
            && (k == 0 ==> db == if ExeNames(was) == {} then Built(now) else Reloaded(was))
            && (k == 1 ==> db == Built(now))
            && (k == 2 ==> (db == Built(now) <==> ExeNames(was) == {}))
            && (k >= 3 ==> (db == Built(now) <==> IdsHoldNoNewline(now) && (k >= 6 || FreshKeys(was, now))))
  {
    CrashThenStart(d, was, now, now, k);
    NamelessHoldsNoNewline(now);
    LoadUndoesSave(now);
    assert IndexOf(now).Keys == ExeNames(now);
  }

  /** Without tables there is nothing to recover from: opening takes any FST that parses,
      writes an empty one where there is none, and fails on one that does not parse. */
  lemma OpenedWithoutTables(d: Disk)
    requires !d.db.Tables?
    ensures Opened(d) ==
            match d.db
            case NoTables =>
              (match d.fst
               case Fst(keys) => Some(Db(keys, map[], map[]))
               case Unparsable => None
               case _ => Some(Db({}, map[], map[])))
            case _ => None
  {
    WritePrefixes(d, {});
    assert WriteOps({})[..3] == WriteOps({});
  }

  /** The very first rebuild cannot leave the scanner blind: wherever it was killed, start-up
      ends with the fetched list or with all of the first one. */
  lemma FirstRebuildThenStart(d: Disk, now: seq<Entry>, fetched: seq<Entry>, k: nat)
    requires d.db.Missing? && d.fst.Absent?
    ensures StartedUp(After(d, RebuildOps(now), k), fetched) ==
            if k < 3 || ExeNames(now) == {} then Built(fetched) else Reloaded(now)
  {
    var crashed := After(d, RebuildOps(now), k);
    RebuildPrefixes(d, now);
    if k < 3 {
      OpenedWithoutTables(crashed);
    } else {
      assert crashed.db == Tables(AppsOf(now), SaveIndex(IndexOf(now)));
      var exes := crashed.db.exes;
      assert exes.Keys == ExeNames(now) && |exes| == |exes.Keys|;
      RecoveryIsExact(crashed);
    }
  }

  // ─── Fetching the list ──────────────────────────────────────────────────────

  // The list as the server has it, and the tag it is known by.
  datatype Remote = Remote(tag: Option<string>, list: seq<Entry>)

  // A fetch that fails yields the empty list, and so does one whose saved tag is current.
  function Fetch(saved: Option<string>, remote: Option<Remote>): seq<Entry> {
    if remote.None? || (saved.Some? && saved == remote.value.tag) then [] else remote.value.list
  }

  // The tag is saved as soon as the list has been fetched, before any rebuild.
  function SavedTag(saved: Option<string>, remote: Option<Remote>): Option<string> {
    if remote.Some? && remote.value.tag.Some? then remote.value.tag else saved
  }

  // The weekly refresh keeps its database when the fetched list is empty.
  function Refreshed(db: Db, fetched: seq<Entry>): Db {
    if fetched == [] then db else Built(fetched)
  }

  /** What a refresh ends with: the server's list if that is another than the one whose tag
      was saved, and has entries; else the database as it was. And after a fetch the saved
      tag is the server's. */
  lemma RefreshTakesNewList(db: Db, saved: Option<string>, remote: Option<Remote>)
    ensures Refreshed(db, Fetch(saved, remote)) ==
            if remote.Some? && (saved.None? || saved != remote.value.tag) && remote.value.list != []
            then Built(remote.value.list) else db
    ensures remote.Some? && remote.value.tag.Some? ==>
              SavedTag(saved, remote) == remote.value.tag && Fetch(SavedTag(saved, remote), remote) == []
    ensures remote.None? || remote.value.tag.None? ==> SavedTag(saved, remote) == saved
  {
  }

  lemma NothingBuilt(path: string, args: seq<string>)
    ensures Search(Built([]), path, args).None?
  {
    IndexAnswersIff([], path, args);
  }

  /** A list that was fetched, but whose rebuild died, is not fetched again: killed right
      after the removal, every later start-up ends with an empty database, and every refresh
      keeps it, until the server has another list. */
  lemma CrashForgetsList(
    d: Disk, was: seq<Entry>, now: seq<Entry>, saved: Option<string>, remote: Remote, path: string, args: seq<string>)
    requires remote.tag.Some? && now == Fetch(saved, Some(remote))
    ensures var crashed := After(Rebuilt(d, was), RebuildOps(now), 1);
            var fetched := Fetch(SavedTag(saved, Some(remote)), Some(remote));
            && fetched == []
            && StartedUp(crashed, fetched) == StartedUp(Rebuilt(crashed, fetched), fetched) == Built([])
            && Refreshed(Built([]), fetched) == Built([])
            && Search(Built([]), path, args).None?
  {
    var crashed := After(Rebuilt(d, was), RebuildOps(now), 1);
    CrashThenStart(d, was, now, [], 1);
    ReopenReloads(crashed, []);
    NothingBuilt(path, args);
  }

  // ─── Blind start-ups ────────────────────────────────────────────────────────

  /** Killed right after the new, still empty database was created, the scanner finds no
      game any more: every later start-up keeps what it finds, changes no file, whatever
      list it could fetch, and answers nothing; and a refresh keeps it too as long as the
      server has no other list than the one whose tag was saved. */
  lemma CrashBlindsScanner(
    d: Disk, was: seq<Entry>, now: seq<Entry>, fetched: seq<Entry>, path: string, args: seq<string>)
    requires ExeNames(was) != {}
    ensures var crashed := After(Rebuilt(d, was), RebuildOps(now), 2);
            var db := StartedUp(crashed, fetched);
            && StartOps(crashed, fetched) == [] && Search(db, path, args).None?
            && forall saved, remote: Remote :: remote.tag.Some? ==>
                 Refreshed(db, Fetch(SavedTag(saved, Some(remote)), Some(remote))) == db
  {
    CrashThenOpen(d, was, now, 2);
    RebuildPrefixes(d, was);
    RebuildPrefixes(Rebuilt(d, was), now);
    FirstHitIff(map[], Candidates(Db(ExeNames(was), map[], map[]), Keys(path)), QueryOf(path, args));
  }

  // ─── Examples ───────────────────────────────────────────────────────────────

  // A list with a single game that has a single executable.
  function OneGame(id: string, exe: string): seq<Entry> {
    [Entry(id, exe, [Executable(exe, false, None, None)])]
  }

  lemma OneGameNames(id: string, exe: string)
    ensures ExeNames(OneGame(id, exe)) == {exe}
  {
    assert OneGame(id, exe)[0].executables[0].name in ExeNames(OneGame(id, exe));
  }

  lemma OneGameMatches(id: string, exe: string)
    requires Free(exe, SEPARATORS) && exe != "" && exe[0] != '>' && !EndsWith64(exe)
    ensures FirstMatch(OneGame(id, exe), QueryOf(exe, [])).Some?
  {
    SingleName(exe);
    assert ExecutableMatches(OneGame(id, exe)[0].executables[0], QueryOf(exe, []));
    assert EntryMatches(OneGame(id, exe)[0], QueryOf(exe, []));
  }

  lemma UnknownNameMisses(db: Db, known: string, name: string)
    requires db.fst == {known} && name != known && ">" + name != known
    requires Free(name, SEPARATORS) && name != "" && !EndsWith64(name)
    ensures Search(db, name, []).None?
  {
    SingleName(name);
    var keys := [name] + [">" + name];
    assert Keys(name) == keys;
    NoKeyNoCandidate(db, keys);
  }

  /** The gap in the recovery rule is real: swap one game for another, die between commit
      and rename, and the next open no longer finds the new game. */
  lemma CrashHidesGame(d: Disk, k: nat)
    requires 3 <= k <= 5
    ensures var r := Opened(After(Rebuilt(d, OneGame("1", "a")), RebuildOps(OneGame("2", "b")), k));
            r.Some? && Search(r.value, "b", []).None?
    ensures FirstMatch(OneGame("2", "b"), QueryOf("b", [])).Some?
  {
    OneGameNames("1", "a");
    OneGameNames("2", "b");
    CommittedThenOpen(d, OneGame("1", "a"), OneGame("2", "b"), k);
    UnknownNameMisses(Opened(After(Rebuilt(d, OneGame("1", "a")), RebuildOps(OneGame("2", "b")), k)).value, "a", "b");
    OneGameMatches("2", "b");
  }

  lemma OnlyEntry(id: string, exe: string, q: Query)
    ensures SurvivorMatches(OneGame(id, exe), q) <==> EntryMatches(OneGame(id, exe)[0], q)
    ensures ReadableMatches(OneGame(id, exe), q) ==> Free(id, NEWLINE)
  {
    assert Survives(OneGame(id, exe), 0);
  }

  /** And so is the newline's: a game whose id holds one is found until the restart. */
  lemma NewlineLosesGame(d: Disk)
    ensures Search(Built(OneGame("1\n2", "a")), "a", []).Some?
    ensures Opened(Rebuilt(d, OneGame("1\n2", "a"))).Some?
    ensures Search(Opened(Rebuilt(d, OneGame("1\n2", "a"))).value, "a", []).None?
  {
    SingleName("a");
    OneGameMatches("1\n2", "a");
    OnlyEntry("1\n2", "a", QueryOf("a", []));
    assert "1\n2"[1] in NEWLINE;
    IndexAnswersIff(OneGame("1\n2", "a"), "a", []);
    RestartLosesIff(d, OneGame("1\n2", "a"), "a", []);
  }
}
