/** Detectable entries, and the plain linear scan over them: src/process/detectable.rs. */
module Matching {
  import opened Wrappers
  import opened Paths

  datatype Executable = Executable(name: string, isLauncher: bool, arguments: Option<seq<string>>, os: Option<string>)

  datatype Entry = Entry(id: string, name: string, executables: seq<Executable>)

  // Everything a process is matched by.
  datatype Query = Query(variants: seq<string>, filename: string, args: seq<string>)

  function QueryOf(path: string, args: seq<string>): Query {
    Query(Variants(path), Filename(path), args)
  }

  predicate Marked(name: string) {
    name != "" && name[0] == '>'
  }

  // `>` and the exact file name; or, not starting with `>`, any variant.
  predicate NameMatches(name: string, q: Query) {
    name == ">" + q.filename || (!Marked(name) && name in q.variants)
  }

  predicate ArgumentsOk(required: Option<seq<string>>, q: Query) {
    required.Some? ==> forall i :: 0 <= i < |required.value| ==> required.value[i] in q.args
  }

  predicate ExecutableMatches(exe: Executable, q: Query) {
    NameMatches(exe.name, q) && ArgumentsOk(exe.arguments, q)
  }

  ghost predicate EntryMatches(entry: Entry, q: Query) {
    exists i :: 0 <= i < |entry.executables| && ExecutableMatches(entry.executables[i], q)
  }

  predicate Declares(entry: Entry, name: string) {
    exists i :: 0 <= i < |entry.executables| && entry.executables[i].name == name
  }

  // ─── The stored-entry check ─────────────────────────────────────────────────

  lemma MarkedNameSplits(name: string)
    ensures Marked(name) ==> name == ">" + name[1..]
  {
  }

  lemma SomeMatches(executables: seq<Executable>, q: Query)
    requires executables != []
    ensures (exists i :: 0 <= i < |executables| && ExecutableMatches(executables[i], q)) <==>
            ExecutableMatches(executables[0], q) ||
            exists i :: 0 <= i < |executables[1..]| && ExecutableMatches(executables[1..][i], q)
  {
    var rest := executables[1..];
    if i :| 0 <= i < |executables| && ExecutableMatches(executables[i], q) {
      assert i > 0 ==> ExecutableMatches(rest[i - 1], q);
    }
    if i :| 0 <= i < |rest| && ExecutableMatches(rest[i], q) {
      assert ExecutableMatches(executables[i + 1], q);
    }
  }

  predicate AllGiven(required: seq<string>, args: seq<string>) {
    forall i :: 0 <= i < |required| ==> required[i] in args
  }

  /** `archived_match`: it drops the first character of a marked name, and takes missing
      arguments for met. */
  function ArchivedMatch(executables: seq<Executable>, q: Query): (r: bool)
    ensures r <==> exists i :: 0 <= i < |executables| && ExecutableMatches(executables[i], q)
  {
    if executables == [] then false
    else
      var exe := executables[0];
      MarkedNameSplits(exe.name);
      var matched := if Marked(exe.name) then exe.name[1..] == q.filename else exe.name in q.variants;
      var rest := ArchivedMatch(executables[1..], q);
      SomeMatches(executables, q);
      if !matched then rest
      else
        var argsOk := match exe.arguments
                      case None => true
                      case Some(required) => AllGiven(required, q.args);
        if argsOk then true else rest
  }

  // ─── The linear scan ────────────────────────────────────────────────────────

  function StripPrefix(name: string, c: char): (r: Option<string>)
    ensures r.Some? ==> name == [c] + r.value
    ensures r.None? ==> name == "" || name[0] != c
  {
    if name != "" && name[0] == c then Some(name[1..]) else None
  }

  /** The scan's inner loop: it strips the prefix, and skips an executable whose required
      arguments are present but not met. */
  function AnyMatches(executables: seq<Executable>, q: Query): (r: bool)
    ensures r <==> exists i :: 0 <= i < |executables| && ExecutableMatches(executables[i], q)
  {
    if executables == [] then false
    else
      var exe := executables[0];
      var exact := StripPrefix(exe.name, '>');
      var rest := AnyMatches(executables[1..], q);
      SomeMatches(executables, q);
      if exact.Some? && exact.value != q.filename then rest
      else if exact.None? && exe.name !in q.variants then rest
      else if exe.arguments.Some? && !AllGiven(exe.arguments.value, q.args) then rest
      else true
  }

  /** The linear scan: the first entry, in list order, that matches. */
  function FirstMatch(entries: seq<Entry>, q: Query): (r: Option<nat>)
    ensures r.Some? ==> r.value < |entries| && EntryMatches(entries[r.value], q)
    ensures r.Some? ==> forall j :: 0 <= j < r.value ==> !EntryMatches(entries[j], q)
    ensures r.None? ==> forall j :: 0 <= j < |entries| ==> !EntryMatches(entries[j], q)
  {
    if entries == [] then None
    else if AnyMatches(entries[0].executables, q) then Some(0)
    else match FirstMatch(entries[1..], q)
         case None => None
         case Some(i) => Some(i + 1)
  }
}
