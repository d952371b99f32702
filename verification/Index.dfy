/** The in-memory index over the detectable entries and the search through it:
    src/process/detectable.rs, `ingest_entries` and `DetectableDb::match_process`. */
module Index {
  import opened Wrappers
  import opened Paths
  import opened PathFacts
  import opened Matching

  // What a lookup reads: the key set of the FST, the name index, the stored entries.
  datatype Db = Db(fst: set<string>, index: map<string, seq<string>>, apps: map<string, Entry>)

  // ─── Building ───────────────────────────────────────────────────────────────

  function ExeNames(entries: seq<Entry>): set<string> {
    set i, j | 0 <= i < |entries| && 0 <= j < |entries[i].executables| :: entries[i].executables[j].name
  }

  function IdsOf(executables: seq<Executable>, id: string, name: string): seq<string> {
    if executables == [] then []
    else
      var last := |executables| - 1;
      IdsOf(executables[..last], id, name) + if executables[last].name == name then [id] else []
  }

  // The ids declared for an executable name, in ingest order, repeats included.
  function IdsFor(entries: seq<Entry>, name: string): seq<string> {
    if entries == [] then []
    else
      var last := |entries| - 1;
      IdsFor(entries[..last], name) + IdsOf(entries[last].executables, entries[last].id, name)
  }

  // Of entries that repeat an id, the last one is stored.
  function AppsOf(entries: seq<Entry>): map<string, Entry> {
    if entries == [] then map[]
    else
      var last := |entries| - 1;
      AppsOf(entries[..last])[entries[last].id := entries[last]]
  }

  function IndexOf(entries: seq<Entry>): map<string, seq<string>> {
    map name | name in ExeNames(entries) :: IdsFor(entries, name)
  }

  function Built(entries: seq<Entry>): Db {
    Db(ExeNames(entries), IndexOf(entries), AppsOf(entries))
  }

  lemma IdsOfOneMore(executables: seq<Executable>, j: nat, id: string, name: string)
    requires j < |executables|
    ensures IdsOf(executables[..j + 1], id, name) ==
            IdsOf(executables[..j], id, name) + if executables[j].name == name then [id] else []
  {
    assert executables[..j + 1][..j] == executables[..j];
  }

  lemma {:induction false} IdsOfMembers(entry: Entry, n: nat, name: string, id: string)
    requires n <= |entry.executables|
    ensures id in IdsOf(entry.executables[..n], entry.id, name) <==>
            id == entry.id && exists i :: 0 <= i < n && entry.executables[i].name == name
  {
    if n > 0 {
      IdsOfOneMore(entry.executables, n - 1, entry.id, name);
      IdsOfMembers(entry, n - 1, name, id);
    }
  }

  lemma OwnIds(entry: Entry, name: string, id: string)
    ensures id in IdsOf(entry.executables, entry.id, name) <==> id == entry.id && Declares(entry, name)
  {
    assert entry.executables[..|entry.executables|] == entry.executables;
    IdsOfMembers(entry, |entry.executables|, name, id);
  }

  ghost predicate DeclaredAs(entries: seq<Entry>, name: string, id: string, i: int) {
    0 <= i < |entries| && entries[i].id == id && Declares(entries[i], name)
  }

  /** An id is listed for a name exactly when an entry with that id declares the name. */
  lemma {:induction false} IdsForMembers(entries: seq<Entry>, name: string, id: string)
    ensures id in IdsFor(entries, name) <==> exists i :: DeclaredAs(entries, name, id, i)
  {
    if entries != [] {
      var last := |entries| - 1;
      var init := entries[..last];
      IdsForMembers(init, name, id);
      OwnIds(entries[last], name, id);
      assert DeclaredAs(entries, name, id, last) <==> id in IdsOf(entries[last].executables, entries[last].id, name);
      assert forall i :: i != last ==> (DeclaredAs(init, name, id, i) <==> DeclaredAs(entries, name, id, i));
    }
  }

  function Lookup(index: map<string, seq<string>>, name: string): seq<string> {
    if name in index then index[name] else []
  }

  ghost predicate Indexes(index: map<string, seq<string>>, entries: seq<Entry>) {
    && (forall name :: Lookup(index, name) == IdsFor(entries, name))
    && (forall name :: name in index ==> index[name] != [])
  }

  lemma NamesHaveIds(entries: seq<Entry>, name: string)
    ensures name in ExeNames(entries) <==> IdsFor(entries, name) != []
    ensures name in ExeNames(entries) <==> exists i :: 0 <= i < |entries| && Declares(entries[i], name)
  {
    if IdsFor(entries, name) != [] {
      var id := IdsFor(entries, name)[0];
      IdsForMembers(entries, name, id);
      var i :| DeclaredAs(entries, name, id, i);
    }
    if i :| 0 <= i < |entries| && Declares(entries[i], name) {
      IdsForMembers(entries, name, entries[i].id);
      assert DeclaredAs(entries, name, entries[i].id, i);
    }
  }

  lemma IndexesIsIndexOf(index: map<string, seq<string>>, entries: seq<Entry>)
    requires Indexes(index, entries)
    ensures index == IndexOf(entries)
  {
    forall name
      ensures name in ExeNames(entries) <==> IdsFor(entries, name) != []
    {
      NamesHaveIds(entries, name);
    }
    forall name
      ensures name in index <==> name in IndexOf(entries)
      ensures name in index ==> index[name] == IndexOf(entries)[name]
    {
      assert Lookup(index, name) == IdsFor(entries, name);
    }
  }

  // `r` is `index` with `id` pushed once for each of the executables.
  ghost predicate Pushed(r: map<string, seq<string>>, index: map<string, seq<string>>, executables: seq<Executable>, id: string) {
    && (forall name :: Lookup(r, name) == Lookup(index, name) + IdsOf(executables, id, name))
    && (forall name :: name in r ==> r[name] != [])
  }

  lemma PushOneAt(now: seq<string>, before: seq<string>, ids: seq<string>, id: string)
    requires now == before + ids
    ensures now + [id] == before + (ids + [id])
    ensures now == before + (ids + [])
  {
    assert ids + [] == ids;
  }

  lemma PushOne(r: map<string, seq<string>>, index: map<string, seq<string>>, executables: seq<Executable>, j: nat, id: string)
    requires j < |executables| && Pushed(r, index, executables[..j], id)
    ensures var name := executables[j].name;
            Pushed(r[name := Lookup(r, name) + [id]], index, executables[..j + 1], id)
  {
    var pushed := executables[j].name;
    var r' := r[pushed := Lookup(r, pushed) + [id]];
    forall name
      ensures Lookup(r', name) == Lookup(index, name) + IdsOf(executables[..j + 1], id, name)
    {
      assert Lookup(r, name) == Lookup(index, name) + IdsOf(executables[..j], id, name);
      IdsOfOneMore(executables, j, id, name);
      PushOneAt(Lookup(r, name), Lookup(index, name), IdsOf(executables[..j], id, name), id);
    }
  }

  method PushExecutables(index: map<string, seq<string>>, entry: Entry) returns (r: map<string, seq<string>>)
    requires forall name :: name in index ==> index[name] != []
    ensures Pushed(r, index, entry.executables, entry.id)
  {
    r := index;
    for j := 0 to |entry.executables|
      invariant Pushed(r, index, entry.executables[..j], entry.id)
    {
      var name := entry.executables[j].name;
      PushOne(r, index, entry.executables, j, entry.id);
      r := r[name := Lookup(r, name) + [entry.id]];
    }
    assert entry.executables[..|entry.executables|] == entry.executables;
  }

  /** Building the two tables, entry by entry and executable by executable. */
  method BuildTables(entries: seq<Entry>) returns (exeToIds: map<string, seq<string>>, apps: map<string, Entry>)
    ensures exeToIds == IndexOf(entries)
    ensures apps == AppsOf(entries)
  {
    exeToIds, apps := map[], map[];
    for i := 0 to |entries|
      invariant Indexes(exeToIds, entries[..i])
      invariant apps == AppsOf(entries[..i])
    {
      assert entries[..i + 1][..i] == entries[..i];
      apps := apps[entries[i].id := entries[i]];
      exeToIds := PushExecutables(exeToIds, entries[i]);
    }
    assert entries[..|entries|] == entries;
    IndexesIsIndexOf(exeToIds, entries);
  }

  // ─── Searching ──────────────────────────────────────────────────────────────

  predicate Hit(apps: map<string, Entry>, id: string, q: Query) {
    id in apps && ArchivedMatch(apps[id].executables, q)
  }

  function FirstHit(apps: map<string, Entry>, ids: seq<string>, q: Query): Option<(string, string)> {
    if ids == [] then None
    else if Hit(apps, ids[0], q) then Some((apps[ids[0]].id, apps[ids[0]].name))
    else FirstHit(apps, ids[1..], q)
  }

  // The ids a query goes through, key by key, ignoring that it tries each only once.
  function Candidates(db: Db, keys: seq<string>): seq<string> {
    if keys == [] then []
    else (if keys[0] in db.fst then Lookup(db.index, keys[0]) else []) + Candidates(db, keys[1..])
  }

  function Search(db: Db, path: string, args: seq<string>): Option<(string, string)> {
    FirstHit(db.apps, Candidates(db, Keys(path)), QueryOf(path, args))
  }

  lemma {:induction false} FirstHitConcat(apps: map<string, Entry>, a: seq<string>, b: seq<string>, q: Query)
    ensures FirstHit(apps, a + b, q) ==
            if FirstHit(apps, a, q).Some? then FirstHit(apps, a, q) else FirstHit(apps, b, q)
  {
    if a == [] {
      assert a + b == b;
    } else {
      assert (a + b)[1..] == a[1..] + b;
      FirstHitConcat(apps, a[1..], b, q);
    }
  }

  lemma {:induction false} FirstHitIff(apps: map<string, Entry>, ids: seq<string>, q: Query)
    ensures FirstHit(apps, ids, q).Some? <==> exists id :: id in ids && Hit(apps, id, q)
    ensures FirstHit(apps, ids, q).Some? ==>
              exists id :: id in ids && Hit(apps, id, q) && FirstHit(apps, ids, q).value == (apps[id].id, apps[id].name)
  {
    if ids != [] {
      FirstHitIff(apps, ids[1..], q);
      if id :| id in ids && Hit(apps, id, q) {
        assert id == ids[0] || id in ids[1..];
      }
    }
  }

  lemma {:induction false} CandidatesMembers(db: Db, keys: seq<string>, id: string)
    ensures id in Candidates(db, keys) <==>
            exists key :: key in keys && key in db.fst && id in Lookup(db.index, key)
  {
    if keys != [] {
      CandidatesMembers(db, keys[1..], id);
    }
  }

  lemma {:induction false} NoKeyNoCandidate(db: Db, keys: seq<string>)
    requires forall i :: 0 <= i < |keys| ==> keys[i] !in db.fst
    ensures Candidates(db, keys) == []
  {
    if keys != [] {
      NoKeyNoCandidate(db, keys[1..]);
    }
  }

  /** The handle on an open database. `apps` is the table the redb handle reads. */
  class DetectableDb {
    var fst: set<string>
    var exeIndex: map<string, seq<string>>
    var apps: map<string, Entry>

    function View(): Db
      reads this
    {
      Db(fst, exeIndex, apps)
    }

    constructor (view: Db)
      ensures View() == view
    {
      fst, exeIndex, apps := view.fst, view.index, view.apps;
    }

    method TryIds(ids: seq<string>, q: Query, tried: seq<string>) returns (r: Option<(string, string)>, seen: seq<string>)
      requires forall id :: id in tried ==> !Hit(apps, id, q)
      ensures r == FirstHit(apps, ids, q)
      ensures r.None? ==> forall id :: id in seen ==> !Hit(apps, id, q)
    {
      seen := tried;
      for j := 0 to |ids|
        invariant forall id :: id in seen ==> !Hit(apps, id, q)
        invariant FirstHit(apps, ids, q) == FirstHit(apps, ids[j..], q)
      {
        if ids[j] !in seen {
          seen := seen + [ids[j]];
          if ids[j] in apps {
            var entry := apps[ids[j]];
            if ArchivedMatch(entry.executables, q) {
              return Some((entry.id, entry.name)), seen;
            }
          }
        }
        assert ids[j..][1..] == ids[j + 1..];
      }
      r := None;
    }

    /** Key by key through the index, trying each id only once: the `seen` buffer never
        changes the answer. */
    method TryKeys(keys: seq<string>, q: Query) returns (r: Option<(string, string)>)
      ensures r == FirstHit(apps, Candidates(View(), keys), q)
    {
      var seen: seq<string> := [];
      for k := 0 to |keys|
        invariant forall id :: id in seen ==> !Hit(apps, id, q)
        invariant FirstHit(apps, Candidates(View(), keys), q) == FirstHit(apps, Candidates(View(), keys[k..]), q)
      {
        assert keys[k..][1..] == keys[k + 1..];
        if keys[k] in fst {
          var ids := Lookup(exeIndex, keys[k]);
          FirstHitConcat(apps, ids, Candidates(View(), keys[k + 1..]), q);
          r, seen := TryIds(ids, q, seen);
          if r.Some? {
            return;
          }
        } else {
          assert Candidates(View(), keys[k..]) == Candidates(View(), keys[k + 1..]);
        }
      }
      r := None;
    }

    /** Pre-filter first: it never changes the answer either. */
    method MatchProcess(path: string, args: seq<string>) returns (r: Option<(string, string)>)
      ensures r == Search(View(), path, args)
    {
      var variants := PathVariants(path);
      var filename := PathFilename(path);
      var keys := variants + if filename == "" then [] else [">" + filename];
      if forall i :: 0 <= i < |keys| ==> keys[i] !in fst {
        NoKeyNoCandidate(View(), keys);
        return None;
      }

      r := TryKeys(keys, Query(variants, filename, args));
    }
  }
}
