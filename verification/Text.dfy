/** String splitting and joining, as the standard library does it: splitting on a
    set of separator characters keeps empty pieces, and always yields at least one. */
module Text {
  import opened Wrappers

  // `cur` is the piece being read; each separator closes it.
  function SplitFrom(s: string, seps: set<char>, cur: string): (pieces: seq<string>)
    ensures |pieces| >= 1
  {
    if s == "" then [cur]
    else if s[0] in seps then [cur] + SplitFrom(s[1..], seps, "")
    else SplitFrom(s[1..], seps, cur + [s[0]])
  }

  function Split(s: string, seps: set<char>): (pieces: seq<string>)
    ensures |pieces| >= 1
  {
    SplitFrom(s, seps, "")
  }

  function Join(parts: seq<string>, sep: char): string {
    if |parts| == 0 then ""
    else if |parts| == 1 then parts[0]
    else parts[0] + [sep] + Join(parts[1..], sep)
  }

  function Find(s: string, c: char): (r: Option<nat>)
    ensures r.Some? ==> r.value < |s| && s[r.value] == c && c !in s[..r.value]
    ensures r.None? ==> c !in s
  {
    if s == "" then None
    else if s[0] == c then Some(0)
    else match Find(s[1..], c)
         case None => None
         case Some(i) => Some(i + 1)
  }

  predicate Free(s: string, seps: set<char>) {
    forall i :: 0 <= i < |s| ==> s[i] !in seps
  }

  predicate AllFree(parts: seq<string>, seps: set<char>) {
    forall i :: 0 <= i < |parts| ==> Free(parts[i], seps)
  }

  predicate Distinct<T(==)>(s: seq<T>) {
    forall i, j :: 0 <= i < j < |s| ==> s[i] != s[j]
  }

  lemma {:induction false} SplitFree(s: string, seps: set<char>, cur: string)
    requires Free(s, seps)
    ensures SplitFrom(s, seps, cur) == [cur + s]
  {
    if s == "" {
      assert cur + s == cur;
    } else {
      assert s[0] !in seps;
      SplitFree(s[1..], seps, cur + [s[0]]);
      assert cur + [s[0]] + s[1..] == cur + s;
    }
  }

  lemma {:induction false} SplitConcat(a: string, c: char, b: string, seps: set<char>, cur: string)
    requires c in seps
    ensures SplitFrom(a + [c] + b, seps, cur) == SplitFrom(a, seps, cur) + Split(b, seps)
  {
    if a == "" {
      assert (a + [c] + b)[1..] == b;
    } else {
      assert (a + [c] + b)[1..] == a[1..] + [c] + b;
      if a[0] in seps {
        SplitConcat(a[1..], c, b, seps, "");
      } else {
        SplitConcat(a[1..], c, b, seps, cur + [a[0]]);
      }
    }
  }

  lemma {:induction false} PiecesAreFree(s: string, seps: set<char>, cur: string)
    requires Free(cur, seps)
    ensures AllFree(SplitFrom(s, seps, cur), seps)
  {
    if s != "" {
      if s[0] in seps {
        PiecesAreFree(s[1..], seps, "");
      } else {
        PiecesAreFree(s[1..], seps, cur + [s[0]]);
      }
    }
  }

  lemma {:induction false} SplitJoinFree(parts: seq<string>, sep: char)
    requires |parts| >= 1
    requires AllFree(parts, {sep})
    ensures Split(Join(parts, sep), {sep}) == parts
  {
    SplitFree(parts[0], {sep}, "");
    assert "" + parts[0] == parts[0];
    if |parts| > 1 {
      SplitConcat(parts[0], sep, Join(parts[1..], sep), {sep}, "");
      SplitJoinFree(parts[1..], sep);
    }
  }

  /** Splitting undoes joining exactly when no part holds the separator. */
  lemma {:induction false} SplitJoin(parts: seq<string>, sep: char)
    requires |parts| >= 1
    ensures Split(Join(parts, sep), {sep}) == parts <==> AllFree(parts, {sep})
  {
    if AllFree(parts, {sep}) {
      SplitJoinFree(parts, sep);
    }
    PiecesAreFree(Join(parts, sep), {sep}, "");
  }
}
