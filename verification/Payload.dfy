/** Finding the entries in a payload of unknown shape: src/process/detectable.rs,
    `parse_detectable_entries`, `parse_entries_from_value`, `parse_entries_from_array`. */
module Payload {
  import opened Wrappers
  import opened Matching

  datatype Member = Member(key: string, value: Json)

  // A document, as written or as parsed into a value. As written, an object may repeat a
  // key; as a value, its members are in the order the map iterates them.
  datatype Json =
    | Scalar(text: string)
    | Arr(items: seq<Json>)
    | Obj(members: seq<Member>)

  // Reading one entry out of a document, where it fits.
  type Reader = Json -> Option<Entry>

  const PREFERRED: seq<string> := ["applications", "data", "results"]

  // The entries of the items that parse, in order.
  function Parsable(items: seq<Json>, read: Reader): seq<Entry> {
    if items == [] then []
    else
      var rest := Parsable(items[1..], read);
      if read(items[0]).Some? then [read(items[0]).value] + rest else rest
  }

  function FromArray(items: seq<Json>, read: Reader): Option<seq<Entry>> {
    var entries := Parsable(items, read);
    if items == [] || entries != [] then Some(entries) else None
  }

  // Where a key sits in an object, if it does.
  function Child(members: seq<Member>, key: string): (r: Option<nat>)
    ensures r.Some? ==> r.value < |members| && members[r.value].key == key
    ensures r.None? ==> forall i :: 0 <= i < |members| ==> members[i].key != key
  {
    if members == [] then None
    else if members[0].key == key then Some(0)
    else match Child(members[1..], key)
         case None => None
         case Some(i) => Some(i + 1)
  }

  // The recursive search: the preferred keys first, then every member in order.
  function FromValue(v: Json, read: Reader): Option<seq<Entry>>
    decreases v, 1, 0
  {
    match v
    case Scalar(_) => None
    case Arr(items) => FromArray(items, read)
    case Obj(members) =>
      var preferred := FromKeys(v, 0, read);
      if preferred.Some? then preferred else FromMembers(v, 0, read)
  }

  function FromKeys(v: Json, k: nat, read: Reader): Option<seq<Entry>>
    requires v.Obj? && k <= |PREFERRED|
    decreases v, 0, |PREFERRED| - k
  {
    if k == |PREFERRED| then None
    else
      var at := Child(v.members, PREFERRED[k]);
      var entries := if at.Some? then FromValue(v.members[at.value].value, read) else None;
      if entries.Some? then entries else FromKeys(v, k + 1, read)
  }

  function FromMembers(v: Json, i: nat, read: Reader): Option<seq<Entry>>
    requires v.Obj? && i <= |v.members|
    decreases v, 0, |v.members| - i
  {
    if i == |v.members| then None
    else
      var entries := FromValue(v.members[i].value, read);
      if entries.Some? then entries else FromMembers(v, i + 1, read)
  }

  // The strict readings: every item must parse, or the whole reading fails.
  function StrictItems(items: seq<Json>, read: Reader): Option<seq<Entry>> {
    if items == [] then Some([])
    else
      var rest := StrictItems(items[1..], read);
      if read(items[0]).None? || rest.None? then None else Some([read(items[0]).value] + rest.value)
  }

  function StrictList(v: Json, read: Reader): Option<seq<Entry>> {
    if v.Arr? then StrictItems(v.items, read) else None
  }

  // The member `key` is written exactly once.
  predicate Once(members: seq<Member>, key: string) {
    var at := Child(members, key);
    at.Some? && Child(members[at.value + 1..], key).None?
  }

  // What depends on the library: reading one entry, parsing a document into a value and for
  // which bodies that fails, and whether a structure may be written as the array of its fields.
  datatype Library = Library(read: Reader, value: Json -> Json, isValue: Json -> bool, structsFromArrays: bool)

  // The wrapper structure: a repeated field is an error, unknown ones are ignored.
  function StrictWrapped(v: Json, lib: Library): Option<seq<Entry>> {
    match v
    case Scalar(_) => None
    case Arr(items) => if lib.structsFromArrays && |items| == 1 then StrictList(items[0], lib.read) else None
    case Obj(members) =>
      if Once(members, "applications")
      then StrictList(members[Child(members, "applications").value].value, lib.read)
      else None
  }

  // The search through a body, if it parses as a value at all.
  function SearchBody(v: Json, lib: Library): Option<seq<Entry>> {
    if lib.isValue(v) then FromValue(lib.value(v), lib.read) else None
  }

  // `parse_detectable_entries`.
  function Parse(v: Json, lib: Library): Option<seq<Entry>> {
    if StrictList(v, lib.read).Some? then StrictList(v, lib.read)
    else if StrictWrapped(v, lib).Some? then StrictWrapped(v, lib)
    else SearchBody(v, lib)
  }

  // ─── Completeness ───────────────────────────────────────────────────────────

  // Following the keys from `v` can lead to `target`.
  ghost predicate Leads(v: Json, keys: seq<string>, target: Json)
    decreases |keys|
  {
    if keys == [] then v == target
    else v.Obj? && exists i :: 0 <= i < |v.members| && v.members[i].key == keys[0] &&
                               Leads(v.members[i].value, keys[1..], target)
  }

  // An array that counts: empty, or with a parsable item.
  predicate Good(items: seq<Json>, read: Reader) {
    items == [] || exists i :: 0 <= i < |items| && read(items[i]).Some?
  }

  ghost predicate Reaches(v: Json, keys: seq<string>, items: seq<Json>, read: Reader) {
    Leads(v, keys, Arr(items)) && Good(items, read)
  }

  lemma {:induction false} GoodIsNonEmpty(items: seq<Json>, read: Reader)
    ensures Parsable(items, read) != [] <==> exists i :: 0 <= i < |items| && read(items[i]).Some?
  {
    if items != [] {
      GoodIsNonEmpty(items[1..], read);
      if i :| 0 <= i < |items| && read(items[i]).Some? {
        assert i > 0 ==> items[1..][i - 1] == items[i];
      }
    }
  }

  lemma {:induction false} FromMembersIff(v: Json, i: nat, read: Reader)
    requires v.Obj? && i <= |v.members|
    ensures var r := FromMembers(v, i, read);
            && (r.Some? ==> exists j :: i <= j < |v.members| && FromValue(v.members[j].value, read) == r)
            && (r.None? ==> forall j :: i <= j < |v.members| ==> FromValue(v.members[j].value, read).None?)
    decreases |v.members| - i
  {
    if i < |v.members| {
      FromMembersIff(v, i + 1, read);
    }
  }

  lemma {:induction false} FromKeysIsMember(v: Json, k: nat, read: Reader)
    requires v.Obj? && k <= |PREFERRED|
    ensures var r := FromKeys(v, k, read);
            r.Some? ==> exists j :: 0 <= j < |v.members| && FromValue(v.members[j].value, read) == r
    decreases |PREFERRED| - k
  {
    if k < |PREFERRED| {
      FromKeysIsMember(v, k + 1, read);
    }
  }

  // `at` are the positions of the items that parse, in order, and `entries` what they are read as.
  ghost predicate ReadAt(items: seq<Json>, read: Reader, at: seq<nat>, entries: seq<Entry>) {
    && |at| == |entries|
    && (forall k, l :: 0 <= k < l < |at| ==> at[k] < at[l])
    && (forall k :: 0 <= k < |at| ==> at[k] < |items| && read(items[at[k]]) == Some(entries[k]))
    && (forall i :: 0 <= i < |items| && read(items[i]).Some? ==> i in at)
  }

  lemma {:induction false} ParsableOneMore(items: seq<Json>, item: Json, read: Reader)
    ensures Parsable(items + [item], read) == Parsable(items, read) + if read(item).Some? then [read(item).value] else []
  {
    if items == [] {
      assert [item][1..] == [] && items + [item] == [item];
    } else {
      assert (items + [item])[1..] == items[1..] + [item];
      ParsableOneMore(items[1..], item, read);
    }
  }

  lemma ReadAtMore(items: seq<Json>, item: Json, read: Reader, at: seq<nat>, entries: seq<Entry>)
    requires ReadAt(items, read, at, entries)
    ensures read(item).Some? ==> ReadAt(items + [item], read, at + [|items|], entries + [read(item).value])
    ensures read(item).None? ==> ReadAt(items + [item], read, at, entries)
  {
    var more := items + [item];
    assert forall i :: 0 <= i < |items| ==> more[i] == items[i];
    if read(item).Some? {
      var at' := at + [|items|];
      assert at'[|at|] == |items|;
      forall i | 0 <= i < |more| && read(more[i]).Some?
        ensures i in at'
      {
        if i < |items| {
          assert i in at;
        }
      }
    }
  }

  lemma {:induction false} ParsableReadAt(items: seq<Json>, read: Reader) returns (at: seq<nat>)
    ensures ReadAt(items, read, at, Parsable(items, read))
  {
    at := [];
    if items != [] {
      var init, item := items[..|items| - 1], items[|items| - 1];
      at := ParsableReadAt(init, read);
      ParsableOneMore(init, item, read);
      ReadAtMore(init, item, read, at, Parsable(init, read));
      assert items == init + [item];
      if read(item).Some? {
        at := at + [|init|];
      } else {
        assert Parsable(init, read) + [] == Parsable(init, read);
      }
    }
  }

  /** What the search finds is read off an array some chain of keys leads to, one that is
      empty or has a parsable item: of every item that parses, and of no other, in order. */
  lemma {:induction false} FoundIsReached(v: Json, read: Reader)
    returns (keys: seq<string>, items: seq<Json>, at: seq<nat>)
    requires FromValue(v, read).Some?
    ensures Reaches(v, keys, items, read) && FromValue(v, read).value == Parsable(items, read)
    ensures ReadAt(items, read, at, FromValue(v, read).value)
    decreases v
  {
    if v.Arr? {
      GoodIsNonEmpty(v.items, read);
      keys, items := [], v.items;
      at := ParsableReadAt(items, read);
    } else {
      FromKeysIsMember(v, 0, read);
      FromMembersIff(v, 0, read);
      var j :| 0 <= j < |v.members| && FromValue(v.members[j].value, read) == FromValue(v, read);
      var rest, found, positions := FoundIsReached(v.members[j].value, read);
      keys, items, at := [v.members[j].key] + rest, found, positions;
      assert keys[1..] == rest;
    }
  }

  lemma {:induction false} ReachedIsFound(v: Json, keys: seq<string>, items: seq<Json>, read: Reader)
    requires Reaches(v, keys, items, read)
    ensures FromValue(v, read).Some?
    decreases |keys|
  {
    if keys == [] {
      GoodIsNonEmpty(items, read);
    } else {
      var i :| 0 <= i < |v.members| && v.members[i].key == keys[0] && Leads(v.members[i].value, keys[1..], Arr(items));
      ReachedIsFound(v.members[i].value, keys[1..], items, read);
      FromMembersIff(v, 0, read);
    }
  }

  /** The search succeeds exactly when some chain of keys leads to an array that counts. */
  lemma SearchIsComplete(v: Json, read: Reader)
    ensures FromValue(v, read).Some? <==> exists keys, items :: Reaches(v, keys, items, read)
  {
    if FromValue(v, read).Some? {
      var keys, items, _ := FoundIsReached(v, read);
    }
    if keys, items :| Reaches(v, keys, items, read) {
      ReachedIsFound(v, keys, items, read);
    }
  }

  // What the member under a preferred key, or at an index, yields on its own.
  function AtKey(v: Json, k: nat, read: Reader): Option<seq<Entry>>
    requires v.Obj? && k < |PREFERRED|
  {
    var at := Child(v.members, PREFERRED[k]);
    if at.Some? then FromValue(v.members[at.value].value, read) else None
  }

  lemma {:induction false} KeysInOrder(v: Json, n: nat, read: Reader)
    requires v.Obj? && n <= |PREFERRED|
    ensures forall k :: n <= k < |PREFERRED| && AtKey(v, k, read).Some? && (forall j :: n <= j < k ==> AtKey(v, j, read).None?) ==>
              FromKeys(v, n, read) == AtKey(v, k, read)
    ensures (forall j :: n <= j < |PREFERRED| ==> AtKey(v, j, read).None?) ==> FromKeys(v, n, read).None?
    decreases |PREFERRED| - n
  {
    if n < |PREFERRED| {
      KeysInOrder(v, n + 1, read);
      assert AtKey(v, n, read).Some? ==> FromKeys(v, n, read) == AtKey(v, n, read);
      assert AtKey(v, n, read).None? ==> FromKeys(v, n, read) == FromKeys(v, n + 1, read);
    }
  }

  lemma {:induction false} MembersInOrder(v: Json, n: nat, read: Reader)
    requires v.Obj? && n <= |v.members|
    ensures forall i :: n <= i < |v.members| && FromValue(v.members[i].value, read).Some? &&
                        (forall j :: n <= j < i ==> FromValue(v.members[j].value, read).None?) ==>
              FromMembers(v, n, read) == FromValue(v.members[i].value, read)
    decreases |v.members| - n
  {
    if n < |v.members| {
      MembersInOrder(v, n + 1, read);
    }
  }

  // What the member under a key yields on its own.
  function Under(v: Json, key: string, read: Reader): Option<seq<Entry>>
    requires v.Obj?
  {
    var at := Child(v.members, key);
    if at.Some? then FromValue(v.members[at.value].value, read) else None
  }

  /** Which array wins: the one under `applications` if that yields something, else under
      `data`, else under `results`, else the first member that does. */
  lemma SearchOrder(v: Json, read: Reader)
    requires v.Obj?
    ensures var applications, data, results := Under(v, "applications", read), Under(v, "data", read), Under(v, "results", read);
            && (applications.Some? ==> FromValue(v, read) == applications)
            && (applications.None? && data.Some? ==> FromValue(v, read) == data)
            && (applications.None? && data.None? && results.Some? ==> FromValue(v, read) == results)
            && (applications.None? && data.None? && results.None? ==>
                  forall i :: 0 <= i < |v.members| && FromValue(v.members[i].value, read).Some? &&
                              (forall j :: 0 <= j < i ==> FromValue(v.members[j].value, read).None?) ==>
                    FromValue(v, read) == FromValue(v.members[i].value, read))
  {
    KeysInOrder(v, 0, read);
    MembersInOrder(v, 0, read);
    assert AtKey(v, 0, read) == Under(v, "applications", read);
    assert AtKey(v, 1, read) == Under(v, "data", read);
    assert AtKey(v, 2, read) == Under(v, "results", read);
  }

  // ─── The strict readings refine the search ──────────────────────────────────

  lemma {:induction false} StrictItemsAreParsable(items: seq<Json>, read: Reader)
    ensures StrictItems(items, read).Some? <==> forall i :: 0 <= i < |items| ==> read(items[i]).Some?
    ensures StrictItems(items, read).Some? ==>
              StrictItems(items, read).value == Parsable(items, read) && |Parsable(items, read)| == |items|
  {
    if items != [] {
      StrictItemsAreParsable(items[1..], read);
      if forall i :: 0 <= i < |items| ==> read(items[i]).Some? {
        assert forall i :: 0 <= i < |items[1..]| ==> items[1..][i] == items[i + 1];
      } else {
        var i :| 0 <= i < |items| && read(items[i]).None?;
        assert i > 0 ==> items[1..][i - 1] == items[i];
      }
    }
  }

  function Values(items: seq<Json>, value: Json -> Json): (r: seq<Json>)
    ensures |r| == |items|
  {
    if items == [] then [] else [value(items[0])] + Values(items[1..], value)
  }

  predicate KeepsMember(members: seq<Member>, key: string, v: Json, value: Json -> Json)
    requires Once(members, key)
  {
    && v.Obj? && Child(v.members, key).Some?
    && v.members[Child(v.members, key).value].value == value(members[Child(members, key).value].value)
  }

  // Parsing into a value keeps arrays and members written once, whatever it makes of
  // repeated ones; an entry reads the same from the value; and its first field is a
  // string, so an array of entries is not an entry.
  ghost predicate Sound(lib: Library) {
    && (forall items :: lib.value(Arr(items)) == Arr(Values(items, lib.value)))
    && (forall members, key :: Once(members, key) ==> KeepsMember(members, key, lib.value(Obj(members)), lib.value))
    && (forall v :: lib.read(v).Some? ==> lib.read(lib.value(v)) == lib.read(v))
    && (forall items :: items == [] || lib.read(items[0]).Some? ==> lib.read(Arr(items)).None?)
  }

  lemma {:induction false} StrictItemsAsValues(items: seq<Json>, lib: Library)
    requires Sound(lib) && StrictItems(items, lib.read).Some?
    ensures StrictItems(Values(items, lib.value), lib.read) == StrictItems(items, lib.read)
  {
    if items != [] {
      StrictItemsAsValues(items[1..], lib);
      assert lib.read(items[0]).Some?;
      assert Values(items, lib.value)[1..] == Values(items[1..], lib.value);
    }
  }

  lemma StrictListIsSearch(v: Json, lib: Library)
    requires Sound(lib) && StrictList(v, lib.read).Some?
    ensures FromValue(lib.value(v), lib.read) == StrictList(v, lib.read)
  {
    StrictItemsAsValues(v.items, lib);
    StrictItemsAreParsable(Values(v.items, lib.value), lib.read);
  }

  lemma {:induction false} ChildIsFirst(members: seq<Member>, key: string)
    ensures var at := Child(members, key);
            at.Some? ==> forall j :: 0 <= j < at.value ==> members[j].key != key
  {
    if members != [] && members[0].key != key {
      ChildIsFirst(members[1..], key);
      forall j | 0 <= j < |members| && Child(members, key).Some? && j < Child(members, key).value
        ensures members[j].key != key
      {
        assert j > 0 ==> members[1..][j - 1] == members[j];
      }
    }
  }

  /** What the strict wrapper takes: an object with exactly one member `applications`, whatever
      else it holds, that is a list of entries; of an array, one holding just such a list. */
  lemma WrapperTakes(members: seq<Member>, items: seq<Json>, lib: Library)
    ensures forall i :: 0 <= i < |members| && members[i].key == "applications" &&
                        (forall j :: 0 <= j < |members| && j != i ==> members[j].key != "applications") ==>
              StrictWrapped(Obj(members), lib) == StrictList(members[i].value, lib.read)
    ensures forall i, j :: 0 <= i < j < |members| && members[i].key == members[j].key == "applications" ==>
              StrictWrapped(Obj(members), lib).None?
    ensures (forall i :: 0 <= i < |members| ==> members[i].key != "applications") ==> StrictWrapped(Obj(members), lib).None?
    ensures StrictWrapped(Arr(items), lib) ==
            if lib.structsFromArrays && |items| == 1 then StrictList(items[0], lib.read) else None
  {
    var at := Child(members, "applications");
    ChildIsFirst(members, "applications");
    if at.Some? {
      var rest := members[at.value + 1..];
      assert forall j :: at.value < j < |members| ==> rest[j - at.value - 1] == members[j];
    }
  }

  // The wrapper, written as the array of its one field.
  predicate IsArrayWrapper(v: Json, lib: Library) {
    lib.structsFromArrays && v.Arr? && |v.items| == 1 && StrictList(v.items[0], lib.read).Some?
  }

  // A list of entries is not an entry, as written or as a value.
  lemma ListIsNoEntry(v: Json, lib: Library)
    requires Sound(lib) && StrictList(v, lib.read).Some?
    ensures lib.read(v).None? && lib.read(lib.value(v)).None?
  {
    var values := Values(v.items, lib.value);
    StrictItemsAsValues(v.items, lib);
    assert v == Arr(v.items);
    assert values != [] ==> lib.read(values[0]).Some?;
    assert lib.read(Arr(values)).None?;
  }

  // Read as a value, a list inside a list holds no entry.
  lemma ArrayWrapperIsLost(v: Json, lib: Library)
    requires Sound(lib) && IsArrayWrapper(v, lib)
    ensures StrictList(v, lib.read).None? && FromValue(lib.value(v), lib.read).None?
  {
    var inner := v.items[0];
    ListIsNoEntry(inner, lib);
    var values := Values(v.items, lib.value);
    assert v == Arr(v.items) && lib.value(v) == Arr(values);
    assert values[0] == lib.value(inner);
    GoodIsNonEmpty(values, lib.read);
  }

  /** The strict readings are fast paths only, repeated keys or not: parsing is the search,
      on every body except a wrapper written as a one-element array, which only the strict
      reading understands, and one that a strict reading takes though it is no value. */
  lemma ParseIsSearch(v: Json, lib: Library)
    requires Sound(lib)
    ensures Parse(v, lib) == SearchBody(v, lib) <==>
            if lib.isValue(v) then !IsArrayWrapper(v, lib) else StrictList(v, lib.read).None? && StrictWrapped(v, lib).None?
  {
    if StrictList(v, lib.read).Some? {
      StrictListIsSearch(v, lib);
      if IsArrayWrapper(v, lib) {
        ArrayWrapperIsLost(v, lib);
      }
    } else if IsArrayWrapper(v, lib) {
      ArrayWrapperIsLost(v, lib);
    } else if StrictWrapped(v, lib).Some? {
      var at := Child(v.members, "applications").value;
      StrictListIsSearch(v.members[at].value, lib);
      assert PREFERRED[0] == "applications";
      var value := lib.value(v);
      assert KeepsMember(v.members, "applications", value, lib.value);
      assert FromKeys(value, 0, lib.read) == FromValue(lib.value(v.members[at].value), lib.read);
    }
  }

  // The simplest library there is: objects with an id are entries, documents are values.
  function PlainRead(v: Json): Option<Entry> {
    if v.Obj? && Child(v.members, "id").Some? then Some(Entry("", "", [])) else None
  }

  const PLAIN: Library := Library(PlainRead, v => v, v => true, true)

  lemma {:induction false} PlainValues(items: seq<Json>)
    ensures Values(items, PLAIN.value) == items
  {
    if items != [] {
      PlainValues(items[1..]);
    }
  }

  /** The exception is real: of the body `[[]]` the strict reading makes an empty list, the
      search nothing. */
  lemma ArrayWrapperExample()
    ensures Sound(PLAIN)
    ensures Parse(Arr([Arr([])]), PLAIN) == Some([])
    ensures FromValue(PLAIN.value(Arr([Arr([])])), PLAIN.read).None?
  {
    forall items
      ensures PLAIN.value(Arr(items)) == Arr(Values(items, PLAIN.value))
    {
      PlainValues(items);
    }
    var body := Arr([Arr([])]);
    assert IsArrayWrapper(body, PLAIN);
    ArrayWrapperIsLost(body, PLAIN);
  }
}
