/** The indexed search against the linear scan it speeds up. */
module Agreement {
  import opened Wrappers
  import opened Text
  import opened Paths
  import opened PathFacts
  import opened Matching
  import opened Index

  ghost predicate DistinctIds(entries: seq<Entry>) {
    forall i, j :: 0 <= i < j < |entries| ==> entries[i].id != entries[j].id
  }

  // No later entry takes this entry's place in the store.
  ghost predicate Survives(entries: seq<Entry>, i: int) {
    0 <= i < |entries| && forall j :: i < j < |entries| ==> entries[j].id != entries[i].id
  }

  // Some surviving entry matches.
  ghost predicate SurvivorMatches(entries: seq<Entry>, q: Query) {
    exists i :: Survives(entries, i) && EntryMatches(entries[i], q)
  }

  /** The store holds exactly the surviving entries, each under its own id. */
  lemma {:induction false} StoredSurvive(entries: seq<Entry>, id: string)
    ensures id in AppsOf(entries) ==> exists i :: Survives(entries, i) && entries[i].id == id && AppsOf(entries)[id] == entries[i]
    ensures forall i :: Survives(entries, i) && entries[i].id == id ==> id in AppsOf(entries) && AppsOf(entries)[id] == entries[i]
  {
    if entries != [] {
      var last := |entries| - 1;
      var init := entries[..last];
      StoredSurvive(init, id);
      assert Survives(entries, last);
      if entries[last].id != id {
        forall i | 0 <= i < last && entries[i].id == id
          ensures Survives(entries, i) <==> Survives(init, i)
        {
          assert forall j :: i < j < last ==> init[j] == entries[j];
        }
      }
    }
  }

  lemma HitSurvives(entries: seq<Entry>, ids: seq<string>, q: Query)
    ensures var r := FirstHit(AppsOf(entries), ids, q);
            r.Some? ==> exists i :: Survives(entries, i) && EntryMatches(entries[i], q) &&
                                    r.value == (entries[i].id, entries[i].name)
  {
    FirstHitIff(AppsOf(entries), ids, q);
    if FirstHit(AppsOf(entries), ids, q).Some? {
      var id :| id in ids && Hit(AppsOf(entries), id, q) &&
                FirstHit(AppsOf(entries), ids, q).value == (AppsOf(entries)[id].id, AppsOf(entries)[id].name);
      StoredSurvive(entries, id);
    }
  }

  /** Whatever the FST and the index hold, an answer is a stored entry that matches. */
  lemma SearchIsSound(db: Db, entries: seq<Entry>, path: string, args: seq<string>)
    requires db.apps == AppsOf(entries)
    ensures var r := Search(db, path, args);
            r.Some? ==> exists i :: Survives(entries, i) && EntryMatches(entries[i], QueryOf(path, args)) &&
                                    r.value == (entries[i].id, entries[i].name)
  {
    HitSurvives(entries, Candidates(db, Keys(path)), QueryOf(path, args));
  }

  // A query with a file name looks up every name it could match by.
  lemma MatchedNameIsKey(path: string, args: seq<string>, name: string)
    requires Filename(path) != "" && NameMatches(name, QueryOf(path, args))
    ensures name in Keys(path)
  {
    if name != "" && name[0] == '>' {
      assert name == ">" + name[1..];
      assert Keys(path)[|Variants(path)|] == name;
    }
  }

  lemma MatchedEntryIsCandidate(entries: seq<Entry>, path: string, args: seq<string>, i: nat)
    requires Filename(path) != "" && i < |entries| && EntryMatches(entries[i], QueryOf(path, args))
    ensures entries[i].id in Candidates(Built(entries), Keys(path))
    ensures exists key :: key in Keys(path) && Declares(entries[i], key)
  {
    var q := QueryOf(path, args);
    var j :| 0 <= j < |entries[i].executables| && ExecutableMatches(entries[i].executables[j], q);
    var key := entries[i].executables[j].name;
    MatchedNameIsKey(path, args, key);
    NamesHaveIds(entries, key);
    IdsForMembers(entries, key, entries[i].id);
    assert DeclaredAs(entries, key, entries[i].id, i);
    CandidatesMembers(Built(entries), Keys(path), entries[i].id);
  }

  /** For every entry list, path and arguments, the index answers exactly when the path
      has a file name and some surviving entry matches. */
  lemma IndexAnswersIff(entries: seq<Entry>, path: string, args: seq<string>)
    ensures Search(Built(entries), path, args).Some? <==>
            Filename(path) != "" && SurvivorMatches(entries, QueryOf(path, args))
  {
    var q := QueryOf(path, args);
    var db := Built(entries);
    KeysAreDistinct(path);
    SearchIsSound(db, entries, path, args);
    if Filename(path) != "" && SurvivorMatches(entries, q) {
      var i :| Survives(entries, i) && EntryMatches(entries[i], q);
      MatchedEntryIsCandidate(entries, path, args, i);
      StoredSurvive(entries, entries[i].id);
      assert Hit(db.apps, entries[i].id, q);
      FirstHitIff(db.apps, Candidates(db, Keys(path)), q);
    }
  }

  /** With distinct ids and a file name, the index answers exactly when the scan does. */
  lemma IndexAgreesWithScan(entries: seq<Entry>, path: string, args: seq<string>)
    requires DistinctIds(entries) && Filename(path) != ""
    ensures Search(Built(entries), path, args).Some? <==> FirstMatch(entries, QueryOf(path, args)).Some?
  {
    var q := QueryOf(path, args);
    IndexAnswersIff(entries, path, args);
    if i :| 0 <= i < |entries| && EntryMatches(entries[i], q) {
      assert Survives(entries, i);
    }
  }

  /** Even with repeated ids or no file name, an indexed answer is one the scan accepts. */
  lemma IndexRefinesScan(entries: seq<Entry>, path: string, args: seq<string>)
    ensures Search(Built(entries), path, args).Some? ==> FirstMatch(entries, QueryOf(path, args)).Some?
  {
    IndexAnswersIff(entries, path, args);
  }

  /** Without a file name the scan can only match an executable named exactly `>`. */
  lemma ScanWithoutFilename(entries: seq<Entry>, path: string, args: seq<string>)
    requires Filename(path) == ""
    ensures Search(Built(entries), path, args).None?
    ensures FirstMatch(entries, QueryOf(path, args)).Some? <==>
            exists i, j :: 0 <= i < |entries| && 0 <= j < |entries[i].executables| &&
                           entries[i].executables[j].name == ">" &&
                           ArgumentsOk(entries[i].executables[j].arguments, QueryOf(path, args))
  {
    var q := QueryOf(path, args);
    IndexAnswersIff(entries, path, args);
    ComponentsAreFree(path);
    assert q.variants == [];
    if i, j :| 0 <= i < |entries| && 0 <= j < |entries[i].executables| &&
               entries[i].executables[j].name == ">" && ArgumentsOk(entries[i].executables[j].arguments, q) {
      assert ExecutableMatches(entries[i].executables[j], q);
      assert EntryMatches(entries[i], q);
    }
    if FirstMatch(entries, q).Some? {
      var e := entries[FirstMatch(entries, q).value];
      var j :| 0 <= j < |e.executables| && ExecutableMatches(e.executables[j], q);
      assert e.executables[j].name == [e.executables[j].name[0]] + e.executables[j].name[1..];
    }
  }

  // A bare name without a marker is its own only variant.
  lemma SingleName(name: string)
    requires Free(name, SEPARATORS) && name != "" && !EndsWith64(name)
    ensures Variants(name) == [name] && Filename(name) == name
  {
    ComponentsOfName(name);
    var parts := [name];
    assert parts[1..] == [] && Join(parts, '/') == name;
    assert VariantsOf(parts) == Head(name) + VariantsOf([]);
  }

  /** The two can differ: an entry whose id comes again is lost to the index. */
  lemma RepeatedIdIsLost()
    ensures var a := Entry("1", "A", [Executable("a", false, None, None)]);
            var b := Entry("1", "B", [Executable("b", false, None, None)]);
            && FirstMatch([a, b], QueryOf("a", [])).Some?
            && Search(Built([a, b]), "a", []).None?
  {
    var a := Entry("1", "A", [Executable("a", false, None, None)]);
    var b := Entry("1", "B", [Executable("b", false, None, None)]);
    SingleName("a");
    var q := QueryOf("a", []);
    assert ExecutableMatches(a.executables[0], q);
    assert EntryMatches([a, b][0], q);
    assert !EntryMatches(b, q);
    IndexAnswersIff([a, b], "a", []);
    assert [a, b][1].id == [a, b][0].id;
  }

  // ─── Which entry the index answers with ─────────────────────────────────────

  // Position of the first key the entry declares; the number of keys if none.
  function FirstDeclared(keys: seq<string>, entry: Entry): nat {
    if keys == [] || Declares(entry, keys[0]) then 0 else 1 + FirstDeclared(keys[1..], entry)
  }

  // `i` comes no later than `j` by (first declared key, ingest order).
  predicate NoLater(entries: seq<Entry>, keys: seq<string>, i: nat, j: nat)
    requires i < |entries| && j < |entries|
  {
    var a, b := FirstDeclared(keys, entries[i]), FirstDeclared(keys, entries[j]);
    a < b || (a == b && i <= j)
  }

  ghost predicate IsWinner(entries: seq<Entry>, keys: seq<string>, q: Query, i: int) {
    && 0 <= i < |entries| && EntryMatches(entries[i], q)
    && forall j :: 0 <= j < |entries| && EntryMatches(entries[j], q) ==> NoLater(entries, keys, i, j)
  }

  // The first matching entry declaring `key`, among the first n.
  ghost predicate FirstDeclaring(entries: seq<Entry>, n: nat, key: string, q: Query, i: int) {
    && 0 <= i < n <= |entries| && EntryMatches(entries[i], q) && Declares(entries[i], key)
    && forall j :: 0 <= j < i ==> !(EntryMatches(entries[j], q) && Declares(entries[j], key))
  }

  lemma {:induction false} FirstHitOfKey(entries: seq<Entry>, n: nat, key: string, q: Query)
    requires DistinctIds(entries) && n <= |entries|
    ensures var r := FirstHit(AppsOf(entries), IdsFor(entries[..n], key), q);
            && (r.Some? ==> exists i :: FirstDeclaring(entries, n, key, q, i) && r.value == (entries[i].id, entries[i].name))
            && (r.None? ==> forall j :: 0 <= j < n ==> !(EntryMatches(entries[j], q) && Declares(entries[j], key)))
  {
    if n > 0 {
      var e := entries[n - 1];
      var ids := IdsOf(e.executables, e.id, key);
      var apps := AppsOf(entries);
      FirstHitOfKey(entries, n - 1, key, q);
      assert entries[..n][..n - 1] == entries[..n - 1];
      FirstHitConcat(apps, IdsFor(entries[..n - 1], key), ids, q);
      StoredSurvive(entries, e.id);
      assert Survives(entries, n - 1);
      FirstHitIff(apps, ids, q);
      OwnIds(e, key, e.id);
      forall id | id in ids
        ensures id == e.id
      {
        OwnIds(e, key, id);
      }
      assert Hit(apps, e.id, q) <==> EntryMatches(e, q);
      forall i | FirstDeclaring(entries, n - 1, key, q, i)
        ensures FirstDeclaring(entries, n, key, q, i)
      {
      }
    }
  }

  lemma {:induction false} WinnerOfKeys(entries: seq<Entry>, keys: seq<string>, q: Query)
    requires DistinctIds(entries)
    requires forall j :: 0 <= j < |entries| && EntryMatches(entries[j], q) ==>
               exists key :: key in keys && Declares(entries[j], key)
    ensures var r := FirstHit(AppsOf(entries), Candidates(Built(entries), keys), q);
            && (r.Some? ==> exists i :: IsWinner(entries, keys, q, i) && r.value == (entries[i].id, entries[i].name))
            && (r.None? ==> forall j :: 0 <= j < |entries| ==> !EntryMatches(entries[j], q))
  {
    if keys != [] {
      var db := Built(entries);
      var ids := IdsFor(entries, keys[0]);
      NamesHaveIds(entries, keys[0]);
      assert Candidates(db, keys) == ids + Candidates(db, keys[1..]);
      FirstHitConcat(db.apps, ids, Candidates(db, keys[1..]), q);
      assert entries[..|entries|] == entries;
      FirstHitOfKey(entries, |entries|, keys[0], q);
      if i :| FirstDeclaring(entries, |entries|, keys[0], q, i) && FirstHit(db.apps, ids, q) == Some((entries[i].id, entries[i].name)) {
        forall j | 0 <= j < |entries| && EntryMatches(entries[j], q)
          ensures NoLater(entries, keys, i, j)
        {
        }
        assert IsWinner(entries, keys, q, i);
      } else {
        WinnerOfKeys(entries, keys[1..], q);
        if i :| IsWinner(entries, keys[1..], q, i) {
          forall j | 0 <= j < |entries| && EntryMatches(entries[j], q)
            ensures NoLater(entries, keys, i, j)
          {
            assert NoLater(entries, keys[1..], i, j);
          }
          assert IsWinner(entries, keys, q, i);
        }
      }
    }
  }

  /** With distinct ids the index answers with the matching entry that is least by
      (first candidate key it declares, ingest order). */
  lemma ExactWinner(entries: seq<Entry>, path: string, args: seq<string>)
    requires DistinctIds(entries) && Filename(path) != ""
    ensures var r := Search(Built(entries), path, args);
            && (r.Some? ==> exists i :: IsWinner(entries, Keys(path), QueryOf(path, args), i) &&
                                        r.value == (entries[i].id, entries[i].name))
            && (r.None? ==> FirstMatch(entries, QueryOf(path, args)).None?)
  {
    var q := QueryOf(path, args);
    forall j | 0 <= j < |entries| && EntryMatches(entries[j], q)
      ensures exists key :: key in Keys(path) && Declares(entries[j], key)
    {
      MatchedEntryIsCandidate(entries, path, args, j);
    }
    WinnerOfKeys(entries, Keys(path), q);
  }

  // ─── What neither matcher can tell apart ────────────────────────────────────

  // Both matchers answer alike for the two paths.
  ghost predicate SameAnswers(db: Db, entries: seq<Entry>, args: seq<string>, p: string, p': string) {
    && Search(db, p, args) == Search(db, p', args)
    && FirstMatch(entries, QueryOf(p, args)) == FirstMatch(entries, QueryOf(p', args))
  }

  /** Both matchers see only the last four components of a path: so separator kind,
      repeated, leading and trailing separators, and deeper directories do not matter. */
  lemma MatchersSeeTheTail(db: Db, entries: seq<Entry>, args: seq<string>, p: string, p': string)
    requires LastFour(Components(p)) == LastFour(Components(p'))
    ensures SameAnswers(db, entries, args, p, p')
  {
    SameTailSameQuery(p, p');
  }

  /** Swapping the two separators anywhere changes no answer. */
  lemma MatchersIgnoreSwaps(db: Db, entries: seq<Entry>, args: seq<string>, p: string, swapped: string)
    requires |p| == |swapped|
    requires forall i :: 0 <= i < |p| ==> p[i] == swapped[i] || (p[i] in SEPARATORS && swapped[i] in SEPARATORS)
    ensures SameAnswers(db, entries, args, swapped, p)
  {
    SwappedSeparators(p, swapped);
    MatchersSeeTheTail(db, entries, args, swapped, p);
  }

  lemma SameTails(a: string, run: string, b: string)
    requires run != "" && forall c :: c in run ==> c in SEPARATORS
    ensures LastFour(Components(a + run + b)) == LastFour(Components(a + "/" + b))
    ensures LastFour(Components(run + b)) == LastFour(Components(b)) == LastFour(Components(b + run))
    ensures |Components(b)| >= 4 ==> LastFour(Components(a + run + b)) == LastFour(Components(b))
  {
    SeparatorRunsAreAlike(a, run, b);
    SeparatorRunsAreAlike(a, "/", b);
    SeparatorRunsAreAlike(b, run, "");
  }

  /** Nor does a run of separators where one would do, or at either end of the path, nor
      anything above the last four components. */
  lemma MatchersIgnore(db: Db, entries: seq<Entry>, args: seq<string>, a: string, run: string, b: string)
    requires run != "" && forall c :: c in run ==> c in SEPARATORS
    ensures SameAnswers(db, entries, args, a + run + b, a + "/" + b)
    ensures SameAnswers(db, entries, args, run + b, b)
    ensures SameAnswers(db, entries, args, b + run, b)
    ensures |Components(b)| >= 4 ==> SameAnswers(db, entries, args, a + run + b, b)
  {
    SameTails(a, run, b);
    MatchersSeeTheTail(db, entries, args, a + run + b, a + "/" + b);
    MatchersSeeTheTail(db, entries, args, run + b, b);
    MatchersSeeTheTail(db, entries, args, b + run, b);
    if |Components(b)| >= 4 {
      MatchersSeeTheTail(db, entries, args, a + run + b, b);
    }
  }
}
