/** What the candidate names of a path have in common: they are pairwise distinct, and
    they see a path only through its last four components. */
module PathFacts {
  import opened Text
  import opened Paths

  // The names a query looks up, in lookup order.
  function Keys(path: string): seq<string> {
    Variants(path) + (if Filename(path) == "" then [] else [">" + Filename(path)])
  }

  function Slashes(s: string): nat {
    if s == "" then 0 else (if s[0] == '/' then 1 else 0) + Slashes(s[1..])
  }

  // ─── Which names are variants ───────────────────────────────────────────────

  /** The variants are exactly the last k components joined by `/`, for k up to four,
      and the stripped forms of those that carry a marker. */
  lemma {:induction false} VariantsMembers(parts: seq<string>, v: string)
    ensures v in VariantsOf(parts) <==>
            exists k :: 0 <= k < |parts| && v in Head(Join(parts[k..], '/'))
  {
    if parts != [] {
      var rest := parts[1..];
      VariantsMembers(rest, v);
      assert parts[0..] == parts;
      forall k | 0 <= k < |rest|
        ensures rest[k..] == parts[k + 1..]
      {
      }
      if k :| 0 <= k < |parts| && v in Head(Join(parts[k..], '/')) {
        if k > 0 {
          assert rest[k - 1..] == parts[k..];
        }
      }
    }
  }

  lemma MarkerIgnoresDirectories(dirs: string, name: string, s: string)
    requires s == dirs + ['/'] + name
    ensures MarkerLength(s) == MarkerLength(name)
  {
    assert forall i :: 0 <= i < |name| ==> s[|dirs| + 1 + i] == name[i];
    assert s[|dirs|] == '/';
  }

  /** Stripping looks at the last component only. */
  lemma StripCommutesWithDirectories(dirs: string, name: string)
    ensures Strip64(dirs + ['/'] + name) == dirs + ['/'] + Strip64(name)
  {
    var s := dirs + ['/'] + name;
    MarkerIgnoresDirectories(dirs, name, s);
    assert s[..|s| - MarkerLength(name)] == dirs + ['/'] + Strip64(name);
  }

  // ─── Distinctness ───────────────────────────────────────────────────────────

  lemma DistinctConcat<T>(a: seq<T>, b: seq<T>)
    requires Distinct(a) && Distinct(b)
    requires forall x :: x in a ==> x !in b
    ensures Distinct(a + b)
  {
    forall i, j | 0 <= i < j < |a + b|
      ensures (a + b)[i] != (a + b)[j]
    {
      if i < |a| <= j {
        assert a[i] in a && b[j - |a|] in b;
      }
    }
  }

  lemma {:induction false} SlashesConcat(a: string, b: string)
    ensures Slashes(a + b) == Slashes(a) + Slashes(b)
  {
    if a == "" {
      assert a + b == b;
    } else {
      assert (a + b)[1..] == a[1..] + b;
      SlashesConcat(a[1..], b);
    }
  }

  lemma {:induction false} NoSlashes(s: string)
    requires '/' !in s
    ensures Slashes(s) == 0
  {
    if s != "" {
      assert s[0] in s;
      NoSlashes(s[1..]);
    }
  }

  lemma {:induction false} SlashesOfJoin(parts: seq<string>)
    requires parts != [] && AllFree(parts, SEPARATORS)
    ensures Slashes(Join(parts, '/')) == |parts| - 1
  {
    NoSlashes(parts[0]);
    if |parts| > 1 {
      SlashesConcat(parts[0] + ['/'], Join(parts[1..], '/'));
      SlashesConcat(parts[0], ['/']);
      SlashesOfJoin(parts[1..]);
    }
  }

  lemma SlashesOfStripped(s: string)
    ensures Slashes(Strip64(s)) == Slashes(s)
  {
    var k := |s| - MarkerLength(s);
    assert s == s[..k] + s[k..];
    NoSlashes(s[k..]);
    SlashesConcat(s[..k], s[k..]);
  }

  lemma PrependDistinct(head: seq<string>, rest: seq<string>, n: nat)
    requires |head| == 1 || (|head| == 2 && |head[1]| < |head[0]|)
    requires Distinct(rest)
    requires forall v :: v in head ==> Slashes(v) == n
    requires forall v :: v in rest ==> Slashes(v) < n
    ensures Distinct(head + rest)
  {
    DistinctConcat(head, rest);
  }

  lemma {:induction false} VariantsAreDistinct(parts: seq<string>)
    requires AllFree(parts, SEPARATORS)
    ensures Distinct(VariantsOf(parts))
    ensures forall v :: v in VariantsOf(parts) ==> Slashes(v) < |parts|
    ensures forall v :: v in VariantsOf(parts) && Slashes(v) == 0 ==> |v| <= |parts[|parts| - 1]|
  {
    if parts != [] {
      var suffix := Join(parts, '/');
      SlashesOfJoin(parts);
      SlashesOfStripped(suffix);
      VariantsAreDistinct(parts[1..]);
      PrependDistinct(Head(suffix), VariantsOf(parts[1..]), |parts| - 1);
      assert |parts| > 1 ==> parts[1..][|parts| - 2] == parts[|parts| - 1];
    }
  }

  lemma {:induction false} VariantsAreFew(parts: seq<string>)
    ensures |parts| <= |VariantsOf(parts)| <= 2 * |parts|
  {
    if parts != [] {
      VariantsAreFew(parts[1..]);
    }
  }

  // The marked file name is longer than any variant without a slash.
  lemma MarkedNameIsNew(parts: seq<string>)
    requires parts != [] && AllFree(parts, SEPARATORS)
    ensures ">" + parts[|parts| - 1] !in VariantsOf(parts)
  {
    var name := parts[|parts| - 1];
    VariantsAreDistinct(parts);
    assert Free(name, SEPARATORS);
    NoSlashes(">" + name);
  }

  /** No name is looked up twice in one query. */
  lemma KeysAreDistinct(path: string)
    ensures Distinct(Keys(path))
    ensures |Keys(path)| <= 9
    ensures Keys(path) == [] <==> Filename(path) == ""
  {
    ComponentsAreFree(path);
    var parts := LastFour(Components(path));
    VariantsAreDistinct(parts);
    VariantsAreFew(parts);
    if parts != [] {
      MarkedNameIsNew(parts);
      DistinctConcat(Variants(path), [">" + Filename(path)]);
    }
  }

  // ─── Lookup order ───────────────────────────────────────────────────────────

  // More components, or as many and longer.
  predicate Before(a: string, b: string) {
    Slashes(a) > Slashes(b) || (Slashes(a) == Slashes(b) && |a| > |b|)
  }

  predicate Ordered(names: seq<string>) {
    forall p, q :: 0 <= p < q < |names| ==> Before(names[p], names[q])
  }

  lemma OrderedConcat(a: seq<string>, b: seq<string>)
    requires Ordered(a) && Ordered(b)
    requires forall x, y :: x in a && y in b ==> Before(x, y)
    ensures Ordered(a + b)
  {
    forall p, q | 0 <= p < q < |a + b|
      ensures Before((a + b)[p], (a + b)[q])
    {
      if p < |a| <= q {
        assert a[p] in a && b[q - |a|] in b;
      }
    }
  }

  lemma {:induction false} VariantsAreOrdered(parts: seq<string>)
    requires AllFree(parts, SEPARATORS)
    ensures Ordered(VariantsOf(parts))
  {
    if parts != [] {
      var suffix := Join(parts, '/');
      SlashesOfJoin(parts);
      SlashesOfStripped(suffix);
      VariantsAreDistinct(parts[1..]);
      VariantsAreOrdered(parts[1..]);
      OrderedConcat(Head(suffix), VariantsOf(parts[1..]));
    }
  }

  /** The order in which names are looked up: those of more components first, each before
      its stripped form; and last of all the file name marked with `>`. */
  lemma LookupOrder(path: string)
    requires Components(path) != []
    ensures var keys, parts := Keys(path), Components(path);
            && keys != [] && keys[|keys| - 1] == ">" + parts[|parts| - 1]
            && keys[..|keys| - 1] == Variants(path) && Ordered(keys[..|keys| - 1])
  {
    ComponentsAreFree(path);
    VariantsAreOrdered(LastFour(Components(path)));
  }

  // ─── What a query sees of a path ────────────────────────────────────────────

  /** Two paths whose last four components agree are looked up alike. */
  lemma SameTailSameQuery(p: string, q: string)
    requires LastFour(Components(p)) == LastFour(Components(q))
    ensures Variants(p) == Variants(q) && Filename(p) == Filename(q) && Keys(p) == Keys(q)
  {
    var parts, others := Components(p), Components(q);
    assert parts != [] ==> LastFour(parts)[|LastFour(parts)| - 1] == parts[|parts| - 1];
    assert others != [] ==> LastFour(others)[|LastFour(others)| - 1] == others[|others| - 1];
  }

  lemma {:induction false} LeadingSeparators(run: string, b: string)
    requires forall c :: c in run ==> c in SEPARATORS
    ensures Components(run + b) == Components(b)
  {
    if run == "" {
      assert run + b == b;
    } else {
      assert run + b == "" + [run[0]] + (run[1..] + b);
      ComponentsConcat("", run[0], run[1..] + b);
      ComponentsOfName("");
      LeadingSeparators(run[1..], b);
    }
  }

  lemma InnerSeparators(a: string, run: string, b: string)
    requires run != "" && forall c :: c in run ==> c in SEPARATORS
    ensures Components(a + run + b) == Components(a) + Components(b)
  {
    assert a + run + b == a + [run[0]] + (run[1..] + b);
    ComponentsConcat(a, run[0], run[1..] + b);
    LeadingSeparators(run[1..], b);
  }

  /** Any run of separators, of either kind, separates like any other; leading and
      trailing runs do not matter. */
  lemma SeparatorRunsAreAlike(a: string, run: string, b: string)
    requires run != "" && forall c :: c in run ==> c in SEPARATORS
    ensures Components(a + run + b) == Components(a) + Components(b)
    ensures Components(run + b) == Components(b)
    ensures Components(a + run) == Components(a)
  {
    LeadingSeparators(run, b);
    InnerSeparators(a, run, b);
    InnerSeparators(a, run, "");
    ComponentsOfName("");
    assert a + run + "" == a + run;
  }

  /** Directories above the last four components do not matter. */
  lemma DeepPrefixIgnored(above: string, c: char, path: string)
    requires c in SEPARATORS && |Components(path)| >= 4
    ensures LastFour(Components(above + [c] + path)) == LastFour(Components(path))
  {
    ComponentsConcat(above, c, path);
  }

  lemma {:induction false} SwappedSplit(p: string, q: string, cur: string)
    requires |p| == |q|
    requires forall i :: 0 <= i < |p| ==> p[i] == q[i] || (p[i] in SEPARATORS && q[i] in SEPARATORS)
    ensures SplitFrom(p, SEPARATORS, cur) == SplitFrom(q, SEPARATORS, cur)
  {
    if p != "" {
      SwappedSplit(p[1..], q[1..], if p[0] in SEPARATORS then "" else cur + [p[0]]);
    }
  }

  /** Swapping `/` and `\` anywhere changes nothing. */
  lemma {:induction false} SwappedSeparators(p: string, q: string)
    requires |p| == |q|
    requires forall i :: 0 <= i < |p| ==> p[i] == q[i] || (p[i] in SEPARATORS && q[i] in SEPARATORS)
    ensures Components(p) == Components(q)
  {
    SwappedSplit(p, q, "");
  }
}
