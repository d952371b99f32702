/** The lookup of a path spelled out: which names are looked up, in which order, and which
    entry answers: src/process/detectable.rs, `match_process` and `path_variants`. */
module Ranking {
  import opened Text
  import opened Paths
  import opened PathFacts
  import opened Matching
  import opened Index
  import opened Agreement

  // The last k of some components, joined by slashes.
  function Tail(parts: seq<string>, k: int): string
    requires 0 <= k <= |parts|
  {
    Join(parts[|parts| - k..], '/')
  }

  predicate EndsIn(s: string, c: char) {
    s != "" && s[|s| - 1] == c
  }

  // `name` is `full` without its 64-bit marker, the longest that fits.
  predicate StrippedFrom(name: string, full: string) {
    || full == name + ".x64"
    || full == name + "_64"
    || (full == name + "x64" && !EndsIn(name, '.'))
    || (full == name + "64" && !EndsIn(name, 'x') && !EndsIn(name, '_'))
  }

  // One of the names looked up for the components: k of them, from one to four, with or
  // without the marker.
  predicate IsForm(parts: seq<string>, k: int, name: string) {
    1 <= k <= 4 && k <= |parts| && (name == Tail(parts, k) || StrippedFrom(name, Tail(parts, k)))
  }

  // ─── Components ─────────────────────────────────────────────────────────────

  /** Components by character: both separators split, nothing else does, and no component
      is empty or holds a separator. */
  lemma ComponentsByCharacter(a: string, b: string, name: string)
    requires '/' !in name && '\\' !in name && name != ""
    ensures Components("") == [] && Components(name) == [name]
    ensures Components(a + "/" + b) == Components(a) + Components(b)
    ensures Components(a + "\\" + b) == Components(a) + Components(b)
    ensures forall i :: 0 <= i < |Components(a)| ==>
              Components(a)[i] != "" && '/' !in Components(a)[i] && '\\' !in Components(a)[i]
  {
    ComponentsOfName("");
    ComponentsOfName(name);
    ComponentsConcat(a, '/', b);
    ComponentsConcat(a, '\\', b);
    ComponentsAreFree(a);
    forall i | 0 <= i < |Components(a)|
      ensures '/' !in Components(a)[i] && '\\' !in Components(a)[i]
    {
      assert Free(Components(a)[i], SEPARATORS);
    }
  }

  // ─── Which names are looked up ──────────────────────────────────────────────

  lemma CutsOff(full: string, name: string, marker: string)
    ensures full == name + marker <==>
            && |full| == |name| + |marker| && name == full[..|name|]
            && forall i :: 0 <= i < |marker| ==> full[|name| + i] == marker[i]
  {
    if full == name + marker {
      assert forall i :: 0 <= i < |marker| ==> (name + marker)[|name| + i] == marker[i];
    }
  }

  lemma LongestFits(full: string, name: string)
    requires EndsWith64(full) && name == Strip64(full)
    ensures StrippedFrom(name, full)
  {
    CutsOff(full, name, ".x64");
    CutsOff(full, name, "x64");
    CutsOff(full, name, "_64");
    CutsOff(full, name, "64");
  }

  lemma StripIsExact(full: string, name: string)
    ensures EndsWith64(full) && name == Strip64(full) <==> StrippedFrom(name, full)
  {
    CutsOff(full, name, ".x64");
    CutsOff(full, name, "x64");
    CutsOff(full, name, "_64");
    CutsOff(full, name, "64");
    if EndsWith64(full) && name == Strip64(full) {
      LongestFits(full, name);
    }
  }

  lemma TailOfTail(parts: seq<string>, k: int)
    requires 1 <= k <= 4 && k <= |parts|
    ensures k <= |LastFour(parts)| && Tail(LastFour(parts), k) == Tail(parts, k)
  {
    var last := LastFour(parts);
    assert last[|last| - k..] == parts[|parts| - k..];
  }

  lemma FormIsHead(parts: seq<string>, k: int, name: string)
    requires 1 <= k <= 4 && k <= |parts|
    ensures IsForm(parts, k, name) <==> name in Head(Tail(parts, k))
  {
    StripIsExact(Tail(parts, k), name);
  }

  lemma FormsOf(parts: seq<string>, name: string)
    ensures name in VariantsOf(LastFour(parts)) <==> exists k :: IsForm(parts, k, name)
  {
    var last := LastFour(parts);
    VariantsMembers(last, name);
    if i :| 0 <= i < |last| && name in Head(Join(last[i..], '/')) {
      TailOfTail(parts, |last| - i);
      FormIsHead(parts, |last| - i, name);
      assert IsForm(parts, |last| - i, name);
    }
    if k :| IsForm(parts, k, name) {
      TailOfTail(parts, k);
      FormIsHead(parts, k, name);
      assert name in Head(Join(last[|last| - k..], '/'));
    }
  }

  /** The variants of a path are exactly the last k components joined by slashes, for k from
      one to four, and each of them without its 64-bit marker. */
  lemma VariantsAre(path: string, name: string)
    ensures name in Variants(path) <==> exists k :: IsForm(Components(path), k, name)
  {
    FormsOf(Components(path), name);
  }

  // ─── In which order ─────────────────────────────────────────────────────────

  // The place of a name among the names looked up for the components: four components, the
  // same stripped, three, and so on; and last, at place 8, the marked file name.
  predicate HasRank(parts: seq<string>, name: string, r: int) {
    if r == 8 then parts != [] && name == ">" + parts[|parts| - 1]
    else
      0 <= r < 8 && 4 - r / 2 <= |parts| &&
      if r % 2 == 0 then name == Tail(parts, 4 - r / 2) else StrippedFrom(name, Tail(parts, 4 - r / 2))
  }

  lemma RankTells(parts: seq<string>, name: string, r: int)
    requires AllFree(parts, SEPARATORS) && HasRank(parts, name, r) && r < 8
    ensures var tail := Tail(parts, 4 - r / 2);
            && Slashes(name) == Slashes(tail) == 3 - r / 2
            && |name| == (if r % 2 == 0 then |tail| else |Strip64(tail)|)
            && |Strip64(tail)| <= |tail| && (r % 2 == 1 ==> |name| < |tail|)
  {
    var tail := Tail(parts, 4 - r / 2);
    SlashesOfJoin(parts[|parts| - (4 - r / 2)..]);
    if r % 2 == 1 {
      StripIsExact(tail, name);
      SlashesOfStripped(tail);
    }
  }

  lemma RankFollowsOrder(parts: seq<string>, a: string, b: string, r: int, r': int)
    requires AllFree(parts, SEPARATORS)
    requires HasRank(parts, a, r) && HasRank(parts, b, r') && r < 8 && r' < 8
    ensures Before(a, b) ==> r < r'
    ensures a == b ==> r == r'
  {
    RankTells(parts, a, r);
    RankTells(parts, b, r');
  }

  lemma MarkedIsLast(parts: seq<string>, name: string, r: int)
    requires AllFree(parts, SEPARATORS) && HasRank(parts, name, 8) && HasRank(parts, name, r)
    ensures r == 8
  {
    if r < 8 {
      var last := parts[|parts| - 1];
      assert Free(last, SEPARATORS);
      NoSlashes(name);
      RankTells(parts, name, r);
    }
  }

  lemma FormIffRank(parts: seq<string>, name: string)
    ensures (exists k :: IsForm(parts, k, name)) <==> exists r :: r < 8 && HasRank(parts, name, r)
  {
    if k :| IsForm(parts, k, name) {
      var r := if name == Tail(parts, k) then 2 * (4 - k) else 2 * (4 - k) + 1;
      assert 4 - r / 2 == k;
      assert HasRank(parts, name, r);
    }
    if r :| r < 8 && HasRank(parts, name, r) {
      assert IsForm(parts, 4 - r / 2, name);
    }
  }

  lemma KeyIffRanked(path: string, name: string)
    requires Components(path) != []
    ensures name in Keys(path) <==> exists r :: HasRank(Components(path), name, r)
  {
    var parts := Components(path);
    VariantsAre(path, name);
    FormIffRank(parts, name);
    assert Filename(path) != "" by {
      ComponentsAreFree(path);
    }
    assert name in Keys(path) <==> name in Variants(path) || HasRank(parts, name, 8);
  }

  lemma VariantHasSmallRank(path: string, p: nat, r: int)
    requires Components(path) != []
    ensures p < |Keys(path)| - 1 && HasRank(Components(path), Keys(path)[p], r) ==> r < 8
  {
    LookupOrder(path);
    KeysAreDistinct(path);
  }

  // Names with places are looked up in the order of their places.
  lemma KeysFollowRanks(path: string, p: nat, q: nat, r: int, r': int)
    requires Components(path) != []
    ensures p <= q < |Keys(path)| && HasRank(Components(path), Keys(path)[p], r) && HasRank(Components(path), Keys(path)[q], r') ==>
              if p == q then r == r' else r < r'
  {
    if p <= q < |Keys(path)| && HasRank(Components(path), Keys(path)[p], r) && HasRank(Components(path), Keys(path)[q], r') {
      var keys, parts := Keys(path), Components(path);
      LookupOrder(path);
      ComponentsAreFree(path);
      if q == |keys| - 1 {
        MarkedIsLast(parts, keys[q], r');
        if p == q {
          MarkedIsLast(parts, keys[p], r);
        } else {
          assert r != 8 by {
            if r == 8 {
              KeysAreDistinct(path);
            }
          }
        }
      } else {
        VariantHasSmallRank(path, p, r);
        VariantHasSmallRank(path, q, r');
        RankFollowsOrder(parts, keys[p], keys[q], r, r');
        assert p < q ==> Before(keys[..|keys| - 1][p], keys[..|keys| - 1][q]);
      }
    }
  }

  // ─── Which entry answers ────────────────────────────────────────────────────

  // All required arguments are given.
  predicate Armed(exe: Executable, args: seq<string>) {
    exe.arguments.Some? ==> forall i :: 0 <= i < |exe.arguments.value| ==> exe.arguments.value[i] in args
  }

  // A marked name has place 8, any other an earlier one; and the arguments are there.
  ghost predicate Serves(exe: Executable, path: string, args: seq<string>) {
    && Components(path) != [] && Armed(exe, args)
    && if exe.name != "" && exe.name[0] == '>' then HasRank(Components(path), exe.name, 8)
       else exists r :: r < 8 && HasRank(Components(path), exe.name, r)
  }

  ghost predicate Fits(entry: Entry, path: string, args: seq<string>) {
    exists j :: 0 <= j < |entry.executables| && Serves(entry.executables[j], path, args)
  }

  // The entry declares the name at place r.
  predicate Declared(entry: Entry, path: string, r: int) {
    exists j :: 0 <= j < |entry.executables| && HasRank(Components(path), entry.executables[j].name, r)
  }

  lemma NameServes(path: string, args: seq<string>, name: string)
    requires Components(path) != []
    ensures NameMatches(name, QueryOf(path, args)) <==>
            if name != "" && name[0] == '>' then HasRank(Components(path), name, 8)
            else exists r :: r < 8 && HasRank(Components(path), name, r)
  {
    VariantsAre(path, name);
    FormIffRank(Components(path), name);
  }

  lemma FitsIff(entry: Entry, path: string, args: seq<string>)
    requires Components(path) != []
    ensures Fits(entry, path, args) <==> EntryMatches(entry, QueryOf(path, args))
  {
    forall j | 0 <= j < |entry.executables|
      ensures Serves(entry.executables[j], path, args) <==> ExecutableMatches(entry.executables[j], QueryOf(path, args))
    {
      NameServes(path, args, entry.executables[j].name);
    }
  }

  lemma NoNameNoComponents(path: string)
    ensures Filename(path) == "" <==> Components(path) == []
  {
    ComponentsAreFree(path);
  }

  /** An indexed search, spelled out: for every list, path and arguments it answers exactly
      when the path has a component and some entry, not replaced by a later one with the same
      id, declares an executable whose name is one to four components of the path, stripped
      or not, or the marked file name, and whose arguments are all given. */
  lemma SearchSpelledOut(entries: seq<Entry>, path: string, args: seq<string>)
    ensures Search(Built(entries), path, args).Some? <==>
            Components(path) != [] && exists i :: Survives(entries, i) && Fits(entries[i], path, args)
  {
    IndexAnswersIff(entries, path, args);
    NoNameNoComponents(path);
    if Components(path) != [] {
      forall i | 0 <= i < |entries|
        ensures Fits(entries[i], path, args) <==> EntryMatches(entries[i], QueryOf(path, args))
      {
        FitsIff(entries[i], path, args);
      }
    }
  }

  ghost predicate FirstAt(entries: seq<Entry>, path: string, args: seq<string>, i: int, r: int)
    requires 0 <= i < |entries|
  {
    Declared(entries[i], path, r) &&
    forall j, r' :: 0 <= j < |entries| && Fits(entries[j], path, args) && Declared(entries[j], path, r') ==>
      r < r' || (r == r' && i <= j)
  }

  // Least by place of a declared name, then by position in the list, of those that fit.
  ghost predicate Wins(entries: seq<Entry>, path: string, args: seq<string>, i: int) {
    0 <= i < |entries| && Fits(entries[i], path, args) && exists r :: FirstAt(entries, path, args, i, r)
  }

  lemma {:induction false} FirstDeclaredAt(keys: seq<string>, entry: Entry)
    ensures var p := FirstDeclared(keys, entry);
            && p <= |keys| && (p < |keys| ==> Declares(entry, keys[p]))
            && forall q :: 0 <= q < |keys| && Declares(entry, keys[q]) ==> p <= q
  {
    if keys != [] && !Declares(entry, keys[0]) {
      FirstDeclaredAt(keys[1..], entry);
      forall q | 0 <= q < |keys| && Declares(entry, keys[q])
        ensures FirstDeclared(keys, entry) <= q
      {
        assert keys[1..][q - 1] == keys[q];
      }
    }
  }

  // A declared place is where a declared name is looked up.
  lemma DeclaredIsKey(entry: Entry, path: string, r: int) returns (q: nat)
    requires Components(path) != [] && Declared(entry, path, r)
    ensures q < |Keys(path)| && HasRank(Components(path), Keys(path)[q], r) && Declares(entry, Keys(path)[q])
  {
    var j :| 0 <= j < |entry.executables| && HasRank(Components(path), entry.executables[j].name, r);
    var name := entry.executables[j].name;
    KeyIffRanked(path, name);
    q :| 0 <= q < |Keys(path)| && Keys(path)[q] == name;
  }

  lemma DeclaresPlace(entry: Entry, path: string, name: string, r: int)
    requires Declares(entry, name) && HasRank(Components(path), name, r)
    ensures Declared(entry, path, r)
  {
  }

  lemma WinnerIsFirst(entries: seq<Entry>, path: string, args: seq<string>, i: nat)
    requires Components(path) != [] && IsWinner(entries, Keys(path), QueryOf(path, args), i)
    ensures Wins(entries, path, args, i)
  {
    var keys, parts, q := Keys(path), Components(path), QueryOf(path, args);
    FitsIff(entries[i], path, args);
    NoNameNoComponents(path);
    MatchedEntryIsCandidate(entries, path, args, i);
    var p := FirstDeclared(keys, entries[i]);
    FirstDeclaredAt(keys, entries[i]);
    KeyIffRanked(path, keys[p]);
    var r :| HasRank(parts, keys[p], r);
    forall j, r' | 0 <= j < |entries| && Fits(entries[j], path, args) && Declared(entries[j], path, r')
      ensures r < r' || (r == r' && i <= j)
    {
      FitsIff(entries[j], path, args);
      FirstDeclaredAt(keys, entries[j]);
      var k := DeclaredIsKey(entries[j], path, r');
      assert NoLater(entries, keys, i, j);
      KeysFollowRanks(path, p, k, r, r');
    }
    DeclaresPlace(entries[i], path, keys[p], r);
    assert FirstAt(entries, path, args, i, r);
  }

  /** With distinct ids, the answer is the entry that fits and is least by the place of a name
      it declares, four components first, each full form before the stripped one, the marked
      file name last; among those of one place, the first in the list. */
  lemma WinnerSpelledOut(entries: seq<Entry>, path: string, args: seq<string>)
    requires DistinctIds(entries) && Components(path) != []
    ensures var r := Search(Built(entries), path, args);
            && (r.Some? ==> exists i :: Wins(entries, path, args, i) && r.value == (entries[i].id, entries[i].name))
            && (r.None? ==> forall i :: 0 <= i < |entries| ==> !Fits(entries[i], path, args))
  {
    NoNameNoComponents(path);
    ExactWinner(entries, path, args);
    var r := Search(Built(entries), path, args);
    if r.Some? {
      var i :| IsWinner(entries, Keys(path), QueryOf(path, args), i) && r.value == (entries[i].id, entries[i].name);
      WinnerIsFirst(entries, path, args, i);
    } else {
      SearchSpelledOut(entries, path, args);
      assert forall i :: 0 <= i < |entries| ==> Survives(entries, i);
    }
  }
}
