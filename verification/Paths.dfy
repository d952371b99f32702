/** Candidate names of a process path: src/process/detectable.rs, `path_variants`,
    `strip_64_suffix` and `path_filename`. */
module Paths {
  import opened Wrappers
  import opened Text

  const SEPARATORS: set<char> := {'/', '\\'}

  function NonEmpty(pieces: seq<string>): seq<string> {
    if pieces == [] then []
    else (if pieces[0] == "" then [] else [pieces[0]]) + NonEmpty(pieces[1..])
  }

  // The non-empty components of a path, split on `/` and `\`.
  function Components(path: string): seq<string> {
    NonEmpty(Split(path, SEPARATORS))
  }

  function LastFour(parts: seq<string>): seq<string> {
    if |parts| > 4 then parts[|parts| - 4..] else parts
  }

  const MARKERS: set<string> := {".x64", "x64", "_64", "64"}

  predicate EndsWith64(s: string) {
    |s| >= 2 && s[|s| - 2] == '6' && s[|s| - 1] == '4'
  }

  // How many characters of 64-bit marker the name ends with.
  function MarkerLength(name: string): (n: nat)
    ensures n <= |name|
    ensures n > 0 <==> EndsWith64(name)
  {
    var len := |name|;
    if len >= 4 && name[len - 4] == '.' && name[len - 3] == 'x' && name[len - 2] == '6' && name[len - 1] == '4' then 4
    else if len < 2 || name[len - 2] != '6' || name[len - 1] != '4' then 0
    else if len >= 3 && (name[len - 3] == 'x' || name[len - 3] == '_') then 3
    else 2
  }

  function Strip64(name: string): (r: string)
    ensures |r| <= |name|
    ensures |r| < |name| <==> EndsWith64(name)
  {
    name[..|name| - MarkerLength(name)]
  }

  /** What is cut is one of the four markers... */
  lemma CutsAMarker(name: string)
    requires EndsWith64(name)
    ensures exists m :: m in MARKERS && name == Strip64(name) + m
  {
    var n := |name|;
    match MarkerLength(name) {
      case 4 => assert name == name[..n - 4] + ".x64";
      case 3 => assert name == name[..n - 3] + (if name[n - 3] == 'x' then "x64" else "_64");
      case _ => assert name == name[..n - 2] + "64";
    }
  }

  /** ...and no longer marker fits. */
  lemma CutsLongestMarker(name: string, base: string, m: string)
    requires m in MARKERS && name == base + m
    ensures Strip64(name) <= base
  {
    assert forall i :: 0 <= i < |m| ==> name[|base| + i] == m[i];
    assert MarkerLength(name) >= |m|;
  }

  // A suffix, followed by its stripped form when it carries a 64-bit marker.
  function Head(suffix: string): seq<string> {
    [suffix] + (if EndsWith64(suffix) then [Strip64(suffix)] else [])
  }

  // The heads of every suffix of the component list, longest first.
  function VariantsOf(parts: seq<string>): seq<string> {
    if parts == [] then []
    else
      Head(Join(parts, '/')) + VariantsOf(parts[1..])
  }

  function Variants(path: string): seq<string> {
    VariantsOf(LastFour(Components(path)))
  }

  function Filename(path: string): string {
    var parts := Components(path);
    if parts == [] then "" else parts[|parts| - 1]
  }

  // ─── Components ─────────────────────────────────────────────────────────────

  lemma {:induction false} NonEmptyConcat(a: seq<string>, b: seq<string>)
    ensures NonEmpty(a + b) == NonEmpty(a) + NonEmpty(b)
  {
    if a == [] {
      assert a + b == b;
    } else {
      assert (a + b)[1..] == a[1..] + b;
      NonEmptyConcat(a[1..], b);
    }
  }

  lemma {:induction false} NonEmptyKeeps(pieces: seq<string>)
    requires AllFree(pieces, SEPARATORS)
    ensures AllFree(NonEmpty(pieces), SEPARATORS)
    ensures forall i :: 0 <= i < |NonEmpty(pieces)| ==> NonEmpty(pieces)[i] != ""
  {
    if pieces != [] {
      NonEmptyKeeps(pieces[1..]);
    }
  }

  /** Components are non-empty and hold no separator. */
  lemma ComponentsAreFree(path: string)
    ensures AllFree(Components(path), SEPARATORS)
    ensures forall i :: 0 <= i < |Components(path)| ==> Components(path)[i] != ""
  {
    PiecesAreFree(path, SEPARATORS, "");
    NonEmptyKeeps(Split(path, SEPARATORS));
  }

  /** Splitting a path at any separator splits its component list. */
  lemma ComponentsConcat(a: string, c: char, b: string)
    requires c in SEPARATORS
    ensures Components(a + [c] + b) == Components(a) + Components(b)
  {
    SplitConcat(a, c, b, SEPARATORS, "");
    NonEmptyConcat(Split(a, SEPARATORS), Split(b, SEPARATORS));
  }

  lemma ComponentsOfName(name: string)
    requires Free(name, SEPARATORS)
    ensures Components(name) == if name == "" then [] else [name]
  {
    SplitFree(name, SEPARATORS, "");
    assert "" + name == name;
    assert NonEmpty([name]) == (if name == "" then [] else [name]) + NonEmpty([]);
  }

  // ─── Joins ──────────────────────────────────────────────────────────────────

  lemma {:induction false} FindConcat(a: string, c: char, b: string)
    requires c !in a
    ensures Find(a + [c] + b, c) == Some(|a|)
  {
    if a != "" {
      assert (a + [c] + b)[1..] == a[1..] + [c] + b;
      FindConcat(a[1..], c, b);
    }
  }

  // Dropping the first component of a joined string: what advancing `offset` does.
  lemma DropFirst(parts: seq<string>)
    requires |parts| >= 1
    requires AllFree(parts, SEPARATORS)
    ensures |parts| == 1 ==> Find(Join(parts, '/'), '/') == None
    ensures |parts| > 1 ==>
              var s := Join(parts, '/');
              Find(s, '/') == Some(|parts[0]|) && |parts[0]| < |s| &&
              s[|parts[0]| + 1..] == Join(parts[1..], '/')
  {
    assert Free(parts[0], SEPARATORS);
    if |parts| > 1 {
      FindConcat(parts[0], '/', Join(parts[1..], '/'));
    }
  }

  // Half-way through the variants loop: `offset` is where the suffix starting at component
  // i begins, and what is emitted so far lacks only the variants of the remaining suffixes.
  ghost predicate Walked(parts: seq<string>, full: string, i: nat, offset: nat, variants: seq<string>) {
    && i <= |parts| && offset <= |full|
    && (i < |parts| ==> full[offset..] == Join(parts[i..], '/'))
    && variants + VariantsOf(parts[i..]) == VariantsOf(parts)
    && |variants| <= 2 * i
  }

  lemma WalkStart(parts: seq<string>)
    ensures Walked(parts, Join(parts, '/'), 0, 0, [])
  {
    var full := Join(parts, '/');
    assert parts[0..] == parts && full[0..] == full;
    assert [] + VariantsOf(parts) == VariantsOf(parts);
  }

  lemma WalkEnd(parts: seq<string>, full: string, offset: nat, variants: seq<string>)
    requires Walked(parts, full, |parts|, offset, variants)
    ensures variants == VariantsOf(parts) && |variants| <= 2 * |parts|
  {
    assert variants + [] == variants;
  }

  lemma DropDrop<T>(s: seq<T>, i: nat, j: nat)
    requires i + j <= |s|
    ensures s[i..][j..] == s[i + j..]
  {
  }

  // Where the next suffix starts, if there is one.
  function NextOffset(full: string, offset: nat): nat
    requires offset <= |full|
  {
    match Find(full[offset..], '/')
    case None => offset
    case Some(pos) => offset + pos + 1
  }

  lemma NextSuffix(parts: seq<string>, full: string, i: nat, offset: nat)
    requires AllFree(parts, SEPARATORS)
    requires i < |parts| && offset <= |full| && full[offset..] == Join(parts[i..], '/')
    ensures NextOffset(full, offset) <= |full|
    ensures i + 1 < |parts| ==> full[NextOffset(full, offset)..] == Join(parts[i + 1..], '/')
  {
    DropDrop(parts, i, 1);
    DropFirst(parts[i..]);
    if i + 1 < |parts| {
      DropDrop(full, offset, |parts[i]| + 1);
    }
  }

  lemma EmitHead(done: seq<string>, head: seq<string>, rest: seq<string>)
    ensures done + (head + rest) == done + head + rest
  {
  }

  lemma WalkTurn(parts: seq<string>, full: string, i: nat, offset: nat, variants: seq<string>)
    requires AllFree(parts, SEPARATORS) && i < |parts| && Walked(parts, full, i, offset, variants)
    ensures Walked(parts, full, i + 1, NextOffset(full, offset), variants + Head(full[offset..]))
  {
    NextSuffix(parts, full, i, offset);
    DropDrop(parts, i, 1);
    EmitHead(variants, Head(full[offset..]), VariantsOf(parts[i + 1..]));
  }

  // ─── The imperative forms ───────────────────────────────────────────────────

  method PushVariants(variants: seq<string>, suffix: string) returns (r: seq<string>)
    ensures r == variants + Head(suffix)
  {
    r := variants + [suffix];
    if EndsWith64(suffix) {
      var cleaned := Strip64(suffix);
      if |cleaned| < |suffix| {
        r := r + [cleaned];
      }
    }
  }

  method SuffixVariants(parts: seq<string>) returns (variants: seq<string>)
    requires AllFree(parts, SEPARATORS)
    ensures variants == VariantsOf(parts)
    ensures |variants| <= 2 * |parts|
  {
    variants := [];
    var full := Join(parts, '/');
    var offset: nat := 0;
    WalkStart(parts);
    for i := 0 to |parts|
      invariant Walked(parts, full, i, offset, variants)
    {
      var suffix := full[offset..];
      WalkTurn(parts, full, i, offset, variants);
      variants := PushVariants(variants, suffix);
      var pos := Find(suffix, '/');
      if pos.Some? {
        offset := offset + pos.value + 1;
      }
    }
    WalkEnd(parts, full, offset, variants);
  }

  /** The loop that cuts ever shorter suffixes out of one joined string. */
  method PathVariants(path: string) returns (variants: seq<string>)
    ensures variants == Variants(path)
    ensures |variants| <= 8
  {
    var parts := Components(path);
    ComponentsAreFree(path);
    variants := [];
    var start := if |parts| > 4 then |parts| - 4 else 0;
    if start >= |parts| {
      return;
    }

    variants := SuffixVariants(parts[start..]);
  }

  // Dropping a trailing separator, and cutting off the last component.
  lemma TrailingSeparator(path: string, end: nat)
    requires 0 < end <= |path| && path[end - 1] in SEPARATORS
    ensures Components(path[..end]) == Components(path[..end - 1])
  {
    assert path[..end] == path[..end - 1] + [path[end - 1]] + "";
    ComponentsConcat(path[..end - 1], path[end - 1], "");
    ComponentsOfName("");
  }

  lemma LastComponent(path: string, start: nat, end: nat)
    requires start < end <= |path| && Free(path[start..end], SEPARATORS)
    requires start > 0 ==> path[start - 1] in SEPARATORS
    ensures Components(path[..end]) != []
    ensures Components(path[..end])[|Components(path[..end])| - 1] == path[start..end]
  {
    var name := path[start..end];
    ComponentsOfName(name);
    if start > 0 {
      assert path[..end] == path[..start - 1] + [path[start - 1]] + name;
      ComponentsConcat(path[..start - 1], path[start - 1], name);
    } else {
      assert path[..end] == name;
    }
  }

  /** The backward scan finds the last component of the forward split. */
  method PathFilename(path: string) returns (name: string)
    ensures name == Filename(path)
    ensures name == "" <==> Components(path) == []
  {
    var end := |path|;
    assert path[..end] == path;
    while end > 0 && (path[end - 1] == '/' || path[end - 1] == '\\')
      invariant 0 <= end <= |path|
      invariant Components(path[..end]) == Components(path)
    {
      TrailingSeparator(path, end);
      end := end - 1;
    }
    if end == 0 {
      ComponentsOfName("");
      return "";
    }
    var start := end;
    while start > 0 && !(path[start - 1] == '/' || path[start - 1] == '\\')
      invariant 0 <= start <= end
      invariant start < end || path[end - 1] !in SEPARATORS
      invariant forall i :: start <= i < end ==> path[i] !in SEPARATORS
    {
      start := start - 1;
    }
    name := path[start..end];
    LastComponent(path, start, end);
  }
}
