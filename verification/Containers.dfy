/** Making one container of objects look like another: values are overwritten where both have
    an object, and the rest is deleted or moved, never copied. */
module Containers {
  import opened Basics

  class Thing {
    const key: string
    var value: string

    constructor (key: string, value: string)
      ensures this.key == key && this.value == value
    {
      this.key, this.value := key, value;
    }
  }

  class List {
    var items: seq<Thing>

    constructor (items: seq<Thing>)
      ensures this.items == items
    {
      this.items := items;
    }
  }

  class Dictionary {
    var entries: map<string, Thing>

    constructor (entries: map<string, Thing>)
      ensures this.entries == entries
    {
      this.entries := entries;
    }
  }

  function Things(s: seq<Thing>): set<Thing> {
    set x | x in s
  }

  /** _update_object, as far as the columns go. */
  method UpdateObject(was: Thing, now: Thing)
    modifies was`value
    ensures was.value == old(now.value)
  {
    was.value := now.value;
  }

  /** _update_list: the first objects stay and take the values of their counterparts; what is
      too much is deleted, and what is missing is moved over. */
  method UpdateList(oldList: List, newList: List)
    requires oldList != newList
    requires Distinct(oldList.items) && Things(oldList.items) !! Things(newList.items)
    modifies oldList, newList, oldList.items
    ensures var n, m := |old(oldList.items)|, |old(newList.items)|;
      && oldList.items == old(oldList.items)[..Min(n, m)] + old(newList.items)[Min(n, m)..]
      && newList.items == old(newList.items)[..Min(n, m)]
      && (forall i :: 0 <= i < Min(n, m) ==> old(oldList.items)[i].value == old(newList.items[i].value))
      && (forall i :: m <= i < n ==> old(oldList.items)[i].value == old(oldList.items[i].value))
  {
    var oldLen, newLen := |oldList.items|, |newList.items|;
    ghost var a, b := oldList.items, newList.items;
    var common := Min(oldLen, newLen);
    for i := 0 to common
      invariant oldList.items == a && newList.items == b
      invariant forall j :: 0 <= j < i ==> a[j].value == old(b[j].value)
      invariant forall j :: i <= j < oldLen ==> a[j].value == old(a[j].value)
      invariant forall x: Thing :: x in b ==> x.value == old(x.value)
    {
      assert a[i] in Things(a);
      assert forall x :: x in b ==> x in Things(b);
      UpdateObject(oldList.items[i], newList.items[i]);
    }
    oldList.items := if newLen < oldLen then oldList.items[..newLen] else oldList.items;
    assert b[..|b|] == b && a[..|a|] == a && b[|b|..] == [];
    if oldLen < newLen {
      MoveTail(oldList, newList, oldLen);
    }
  }

  /** The loop that moves the objects of the new list from the given place on. */
  method MoveTail(oldList: List, newList: List, oldLen: nat)
    requires oldList != newList && oldLen <= |newList.items|
    modifies oldList, newList
    ensures oldList.items == old(oldList.items) + old(newList.items)[oldLen..]
    ensures newList.items == old(newList.items)[..oldLen]
  {
    ghost var a, b := oldList.items, newList.items;
    for i := oldLen to |newList.items|
      invariant oldList.items == a + b[oldLen..i] && newList.items == b[..oldLen] + b[i..]
    {
      var temp := newList.items[oldLen];
      assert temp == b[i];
      newList.items := newList.items[..oldLen] + newList.items[oldLen + 1..];
      assert newList.items == b[..oldLen] + b[i + 1..];
      oldList.items := oldList.items + [temp];
      assert b[oldLen..i + 1] == b[oldLen..i] + [b[i]];
    }
  }

  /** The two dictionaries when the keys in `todo` are still to be treated. */
  function OldAfter(a: map<string, Thing>, b: map<string, Thing>, todo: set<string>): map<string, Thing> {
    map k | k in a.Keys + b.Keys && (if k in todo then k in a else k in b) :: if k in a then a[k] else b[k]
  }

  function NewAfter(a: map<string, Thing>, b: map<string, Thing>, todo: set<string>): map<string, Thing> {
    map k | k in b && (k in todo || k in a) :: b[k]
  }

  ghost predicate Injective(a: map<string, Thing>) {
    forall j, k :: j in a && k in a && j != k ==> a[j] != a[k]
  }

  lemma OthersDiffer(a: map<string, Thing>, key: string)
    requires Injective(a) && key in a
    ensures forall k :: k in a && k != key ==> a[k] != a[key]
  {
  }

  lemma KeyDone(a: map<string, Thing>, b: map<string, Thing>, todo: set<string>, key: string)
    requires key in todo && key in a.Keys + b.Keys
    ensures key in NewAfter(a, b, todo) <==> key in b
    ensures key in OldAfter(a, b, todo) <==> key in a
    ensures key in b ==> NewAfter(a, b, todo)[key] == b[key]
    ensures key in a ==> OldAfter(a, b, todo)[key] == a[key]
    ensures OldAfter(a, b, todo - {key}) ==
            if key !in b then OldAfter(a, b, todo) - {key}
            else if key in a then OldAfter(a, b, todo) else OldAfter(a, b, todo)[key := b[key]]
    ensures NewAfter(a, b, todo - {key}) ==
            if key in b && key !in a then NewAfter(a, b, todo) - {key} else NewAfter(a, b, todo)
  {
  }

  /** _update_dict: the keys become those of the new dictionary; the objects of common keys
      stay and take the new values, the others are moved over. */
  method UpdateDictionary(oldDict: Dictionary, newDict: Dictionary)
    requires oldDict != newDict && oldDict.entries.Values !! newDict.entries.Values
    requires Injective(oldDict.entries)
    modifies oldDict, newDict, oldDict.entries.Values
    ensures var a, b := old(oldDict.entries), old(newDict.entries);
      && oldDict.entries == (map k | k in b :: if k in a then a[k] else b[k])
      && newDict.entries == (map k | k in b && k in a :: b[k])
      && (forall k :: k in oldDict.entries ==> oldDict.entries[k].value == old(b[k].value))
      && (forall k :: k in a && k !in b ==> a[k].value == old(a[k].value))
  {
    hide Injective;
    ghost var a, b := oldDict.entries, newDict.entries;
    Apart(a, b);
    TreatKeys(oldDict, newDict);
    AllDone(a, b);
  }

  /** The loop over the keys of both. */
  method TreatKeys(oldDict: Dictionary, newDict: Dictionary)
    requires oldDict != newDict && Injective(oldDict.entries)
    requires forall j, k :: j in oldDict.entries && k in newDict.entries ==> oldDict.entries[j] != newDict.entries[k]
    modifies oldDict, newDict, oldDict.entries.Values
    ensures var a, b := old(oldDict.entries), old(newDict.entries);
      && oldDict.entries == OldAfter(a, b, {}) && newDict.entries == NewAfter(a, b, {})
      && (forall k :: k in a && k in b ==> a[k].value == old(b[k].value))
      && (forall k :: k in a && k !in b ==> a[k].value == old(a[k].value))
      && (forall k :: k in b ==> b[k].value == old(b[k].value))
  {
    hide OldAfter, NewAfter, Injective, Treated;
    ghost var a, b := oldDict.entries, newDict.entries;
    NothingDone(a, b);
    ghost var was, now := Entries(a), Entries(b);
    var todo := oldDict.entries.Keys + newDict.entries.Keys;
    NothingTreated(a, b, todo, was, now);
    while todo != {}
      invariant todo <= a.Keys + b.Keys
      invariant oldDict.entries == OldAfter(a, b, todo) && newDict.entries == NewAfter(a, b, todo)
      invariant Treated(a, b, todo, was, now)
      decreases |todo|
    {
      var key :| key in todo;
      TreatKey(oldDict, newDict, key, a, b, todo, was, now);
      todo := todo - {key};
    }
    AllTreated(a, b, was, now);
  }

  ghost function Entries(a: map<string, Thing>): map<string, string>
    reads a.Values
  {
    map k | k in a :: a[k].value
  }

  /** The values when the keys in `todo` are still to be treated. */
  ghost predicate Treated(a: map<string, Thing>, b: map<string, Thing>, todo: set<string>, was: map<string, string>,
        now: map<string, string>)
    reads a.Values, b.Values
  {
    && was.Keys == a.Keys && now.Keys == b.Keys
    && (forall k :: k in a ==> a[k].value == if k in b && k !in todo then now[k] else was[k])
    && (forall k :: k in b ==> b[k].value == now[k])
  }

  lemma NothingTreated(a: map<string, Thing>, b: map<string, Thing>, todo: set<string>, was: map<string, string>,
        now: map<string, string>)
    requires was == Entries(a) && now == Entries(b) && todo == a.Keys + b.Keys
    ensures Treated(a, b, todo, was, now)
  {
  }

  lemma AllTreated(a: map<string, Thing>, b: map<string, Thing>, was: map<string, string>, now: map<string, string>)
    requires Treated(a, b, {}, was, now)
    ensures was.Keys == a.Keys && now.Keys == b.Keys
    ensures forall k :: k in a ==> a[k].value == if k in b then now[k] else was[k]
    ensures forall k :: k in b ==> b[k].value == now[k]
  {
  }

  /** One key of either dictionary. */
  method TreatKey(oldDict: Dictionary, newDict: Dictionary, key: string, ghost a: map<string, Thing>,
        ghost b: map<string, Thing>, ghost todo: set<string>,
        ghost was: map<string, string>, ghost now: map<string, string>)
    requires oldDict != newDict && Injective(a) && (forall j, k :: j in a && k in b ==> a[j] != b[k])
    requires key in todo && key in a.Keys + b.Keys && Treated(a, b, todo, was, now)
    requires oldDict.entries == OldAfter(a, b, todo) && newDict.entries == NewAfter(a, b, todo)
    modifies oldDict, newDict, if key in a then {a[key]} else {}
    ensures oldDict.entries == OldAfter(a, b, todo - {key}) && newDict.entries == NewAfter(a, b, todo - {key})
    ensures Treated(a, b, todo - {key}, was, now)
  {
    hide OldAfter, NewAfter, Injective;
    KeyDone(a, b, todo, key);
    if key in newDict.entries {
      if key !in oldDict.entries {
        var temp := newDict.entries[key];
        newDict.entries := newDict.entries - {key};
        oldDict.entries := oldDict.entries[key := temp];
      } else {
        OthersDiffer(a, key);
        UpdateObject(oldDict.entries[key], newDict.entries[key]);
      }
    } else {
      oldDict.entries := oldDict.entries - {key};
    }
  }

  lemma Apart(a: map<string, Thing>, b: map<string, Thing>)
    requires a.Values !! b.Values
    ensures forall j, k :: j in a && k in b ==> a[j] != b[k]
  {
    forall j, k | j in a && k in b
      ensures a[j] != b[k]
    {
      assert a[j] in a.Values && b[k] in b.Values;
    }
  }

  lemma NothingDone(a: map<string, Thing>, b: map<string, Thing>)
    ensures OldAfter(a, b, a.Keys + b.Keys) == a && NewAfter(a, b, a.Keys + b.Keys) == b
  {
  }

  lemma AllDone(a: map<string, Thing>, b: map<string, Thing>)
    ensures OldAfter(a, b, {}) == (map k | k in b :: if k in a then a[k] else b[k])
    ensures NewAfter(a, b, {}) == (map k | k in b && k in a :: b[k])
  {
  }

  // ------------------------------------------------------- lists with keys

  function Keys(s: seq<Thing>): set<string> {
    set x | x in s :: x.key
  }

  /** The dictionary from keys to objects: the last object of a key is the one that counts. */
  function Index(s: seq<Thing>): (d: map<string, Thing>)
    ensures d.Keys == Keys(s)
    ensures forall k :: k in d ==> d[k] in s && d[k].key == k
  {
    if s == [] then map[]
    else
      assert s == s[..|s| - 1] + [s[|s| - 1]];
      Index(s[..|s| - 1])[s[|s| - 1].key := s[|s| - 1]]
  }

  /** The key is in the set, or another object counts for it. */
  predicate Stays(d: map<string, Thing>, keys: set<string>, x: Thing) {
    x.key in keys || x.key !in d || d[x.key] != x
  }

  /** The objects of the list that stay, in order. */
  function Only(s: seq<Thing>, d: map<string, Thing>, keys: set<string>): seq<Thing> {
    if s == [] then []
    else Only(s[..|s| - 1], d, keys) + if Stays(d, keys, s[|s| - 1]) then [s[|s| - 1]] else []
  }

  /** list.remove: the first occurrence. */
  function Without(s: seq<Thing>, x: Thing): seq<Thing> {
    if s == [] then [] else if s[0] == x then s[1..] else [s[0]] + Without(s[1..], x)
  }

  lemma {:induction false} OnlyMembers(s: seq<Thing>, d: map<string, Thing>, keys: set<string>)
    ensures forall x :: x in Only(s, d, keys) <==> x in s && Stays(d, keys, x)
  {
    hide Stays;
    if s != [] {
      OnlyMembers(s[..|s| - 1], d, keys);
      assert s == s[..|s| - 1] + [s[|s| - 1]];
    }
  }

  lemma {:induction false} OnlySame(s: seq<Thing>, d: map<string, Thing>, keys: set<string>, more: set<string>)
    requires forall x :: x in s ==> (Stays(d, keys, x) <==> Stays(d, more, x))
    ensures Only(s, d, keys) == Only(s, d, more)
  {
    hide Stays;
    if s != [] {
      OnlySame(s[..|s| - 1], d, keys, more);
    }
  }

  lemma SameKeys(s: seq<Thing>, d: map<string, Thing>, keys: set<string>, more: set<string>)
    requires forall k :: k in Keys(s) ==> (k in keys <==> k in more)
    ensures Only(s, d, keys) == Only(s, d, more)
  {
    InKeys(s);
    OnlySame(s, d, keys, more);
  }

  lemma {:induction false} OnlyAll(s: seq<Thing>, d: map<string, Thing>, keys: set<string>)
    requires forall x :: x in s ==> x.key in keys
    ensures Only(s, d, keys) == s
  {
    if s != [] {
      OnlyAll(s[..|s| - 1], d, keys);
      assert s == s[..|s| - 1] + [s[|s| - 1]];
    }
  }

  lemma WithoutStep(first: Thing, rest: seq<Thing>, x: Thing)
    ensures Without([first] + rest, x) == if first == x then rest else [first] + Without(rest, x)
  {
    assert ([first] + rest)[1..] == rest;
  }

  lemma {:induction false} WithoutMore(s: seq<Thing>, t: seq<Thing>, x: Thing)
    ensures Without(s + t, x) == if x in s then Without(s, x) + t else s + Without(t, x)
  {
    hide Without;
    if s == [] {
      assert s + t == t;
    } else {
      var first, rest := s[0], s[1..];
      FirstAndRest(s, t);
      WithoutStep(first, rest, x);
      WithoutStep(first, rest + t, x);
      WithoutMore(rest, t, x);
      Associate(first, if x in rest then Without(rest, x) else rest, if x in rest then t else Without(t, x));
    }
  }

  lemma FirstAndRest<T>(s: seq<T>, t: seq<T>)
    requires s != []
    ensures s == [s[0]] + s[1..] && s + t == [s[0]] + (s[1..] + t)
    ensures forall x :: x in s <==> x == s[0] || x in s[1..]
  {
    assert s == [s[0]] + s[1..];
  }

  lemma Associate<T>(first: T, s: seq<T>, t: seq<T>)
    ensures [first] + (s + t) == ([first] + s) + t
  {
  }

  lemma DistinctLast(s: seq<Thing>)
    requires Distinct(s) && s != []
    ensures Distinct(s[..|s| - 1]) && s[|s| - 1] !in s[..|s| - 1]
  {
  }

  /** Removing the object that counts for a key. */
  lemma {:induction false} OnlyWithout(s: seq<Thing>, d: map<string, Thing>, keys: set<string>, x: Thing)
    requires Distinct(s) && x in s && x.key in keys && x.key in d && d[x.key] == x
    ensures Without(Only(s, d, keys), x) == Only(s, d, keys - {x.key})
  {
    hide Without, Distinct;
    var prior, last := s[..|s| - 1], s[|s| - 1];
    assert s == prior + [last];
    DistinctLast(s);
    OnlyMembers(prior, d, keys);
    if last == x {
      WithoutMore(Only(prior, d, keys), [x], x);
      WithoutStep(x, [], x);
      assert [x] + [] == [x];
      OnlySame(prior, d, keys, keys - {x.key});
    } else {
      OnlyWithout(prior, d, keys, x);
      assert Stays(d, keys, last) <==> Stays(d, keys - {x.key}, last);
      assert x in Only(prior, d, keys);
      if Stays(d, keys, last) {
        WithoutMore(Only(prior, d, keys), [last], x);
        assert Only(s, d, keys) == Only(prior, d, keys) + [last];
        assert Only(s, d, keys - {x.key}) == Only(prior, d, keys - {x.key}) + [last];
      } else {
        assert Only(s, d, keys) == Only(prior, d, keys);
        assert Only(s, d, keys - {x.key}) == Only(prior, d, keys - {x.key});
      }
    }
  }

  /** The dictionary of a list, filled from the front. */
  method MakeIndex(s: seq<Thing>) returns (d: map<string, Thing>)
    ensures d == Index(s)
  {
    d := map[];
    for i := 0 to |s|
      invariant d == Index(s[..i])
    {
      assert s[..i + 1][..i] == s[..i];
      d := d[s[i].key := s[i]];
    }
    assert s[..|s|] == s;
  }

  function Kept(a: seq<Thing>, b: seq<Thing>, todo: set<string>, preserve: bool): seq<Thing> {
    Only(a, Index(a), Keys(b) + todo + if preserve then Keys(a) else {})
  }

  /** What has been moved when the keys in `todo` are still to be treated, in some order. */
  ghost predicate Moved(a: seq<Thing>, b: seq<Thing>, todo: set<string>, moved: seq<Thing>) {
    Distinct(moved) && Things(moved) == set x | x in b && !Stays(Index(b), Keys(a) + todo, x)
  }

  /** Where the lists stand then: what is kept of the old list followed by what was moved. */
  ghost predicate Stand(a: seq<Thing>, b: seq<Thing>, todo: set<string>, preserve: bool, olds: seq<Thing>,
        news: seq<Thing>, moved: seq<Thing>) {
    news == Only(b, Index(b), Keys(a) + todo) && olds == Kept(a, b, todo, preserve) + moved && Moved(a, b, todo, moved)
  }

  lemma StandFirst(a: seq<Thing>, b: seq<Thing>, preserve: bool)
    ensures Stand(a, b, Keys(a) + Keys(b), preserve, a, b, [])
  {
    hide Only, Keys, Index;
    InKeys(a);
    InKeys(b);
    OnlyAll(b, Index(b), Keys(a) + (Keys(a) + Keys(b)));
    OnlyAll(a, Index(a), Keys(b) + (Keys(a) + Keys(b)) + if preserve then Keys(a) else {});
    assert a + [] == a;
  }

  lemma InKeys(s: seq<Thing>)
    ensures forall x :: x in s ==> x.key in Keys(s)
  {
  }

  lemma MovedMore(a: seq<Thing>, b: seq<Thing>, todo: set<string>, moved: seq<Thing>, x: Thing)
    requires Moved(a, b, todo, moved) && x in b && x.key in todo && x.key !in Keys(a) && Index(b)[x.key] == x
    ensures Moved(a, b, todo - {x.key}, moved + [x])
  {
    hide Keys, Index;
    InKeys(b);
    assert x !in moved by { assert x !in Things(moved); }
    assert Things(moved + [x]) == Things(moved) + {x};
    forall y | y in b
      ensures !Stays(Index(b), Keys(a) + (todo - {x.key}), y) <==> !Stays(Index(b), Keys(a) + todo, y) || y == x
    {
    }
  }

  lemma StandMove(a: seq<Thing>, b: seq<Thing>, todo: set<string>, preserve: bool, olds: seq<Thing>, news: seq<Thing>,
        moved: seq<Thing>, x: Thing)
    requires Stand(a, b, todo, preserve, olds, news, moved) && Distinct(b)
    requires x in b && x.key in todo && x.key !in Keys(a) && Index(b)[x.key] == x
    ensures Stand(a, b, todo - {x.key}, preserve, olds + [x], Without(news, x), moved + [x])
  {
    hide Keys, Index, Only, Without, Moved, Distinct;
    InKeys(b);
    MovedMore(a, b, todo, moved, x);
    OnlyWithout(b, Index(b), Keys(a) + todo, x);
    SameKeys(b, Index(b), Keys(a) + todo - {x.key}, Keys(a) + (todo - {x.key}));
    var extra := if preserve then Keys(a) else {};
    SameKeys(a, Index(a), Keys(b) + todo + extra, Keys(b) + (todo - {x.key}) + extra);
    assert olds + [x] == Kept(a, b, todo - {x.key}, preserve) + (moved + [x]);
  }

  lemma StandUpdate(a: seq<Thing>, b: seq<Thing>, todo: set<string>, preserve: bool, olds: seq<Thing>,
        news: seq<Thing>, moved: seq<Thing>, k: string)
    requires Stand(a, b, todo, preserve, olds, news, moved) && k in Keys(a) && (k in Keys(b) || preserve)
    ensures Stand(a, b, todo - {k}, preserve, olds, news, moved)
  {
    hide Keys, Index, Only, Distinct;
    SameKeys(b, Index(b), Keys(a) + todo, Keys(a) + (todo - {k}));
    var extra := if preserve then Keys(a) else {};
    SameKeys(a, Index(a), Keys(b) + todo + extra, Keys(b) + (todo - {k}) + extra);
    assert Keys(a) + (todo - {k}) == Keys(a) + todo - if k in Keys(a) then {} else {k};
  }

  lemma StandRemove(a: seq<Thing>, b: seq<Thing>, todo: set<string>, olds: seq<Thing>, news: seq<Thing>,
        moved: seq<Thing>, x: Thing)
    requires Stand(a, b, todo, false, olds, news, moved) && Distinct(a)
    requires x in a && x.key in todo && x.key !in Keys(b) && Index(a)[x.key] == x
    ensures Stand(a, b, todo - {x.key}, false, Without(olds, x), news, moved)
  {
    hide Keys, Index, Only, Without, Distinct;
    InKeys(a);
    InKeys(b);
    SameKeys(b, Index(b), Keys(a) + todo, Keys(a) + (todo - {x.key}));
    OnlyMembers(a, Index(a), Keys(b) + todo + {});
    WithoutMore(Kept(a, b, todo, false), moved, x);
    OnlyWithout(a, Index(a), Keys(b) + todo + {}, x);
    SameKeys(a, Index(a), Keys(b) + todo + {} - {x.key}, Keys(b) + (todo - {x.key}) + {});
    assert Keys(a) + (todo - {x.key}) == Keys(a) + todo;
  }

  /** _update_list_with_key: of the objects that count for a key, those of common keys take the
      new values, those of new keys are moved to the end, and those of old keys go, unless they
      are to be preserved; all the others stay where and as they are. */
  method UpdateListWithKey(oldList: List, newList: List, preserve: bool) returns (ghost moved: seq<Thing>)
    requires oldList != newList && Things(oldList.items) !! Things(newList.items)
    requires Distinct(oldList.items) && Distinct(newList.items)
    modifies oldList, newList, oldList.items
    ensures var a, b := old(oldList.items), old(newList.items);
      && oldList.items == (if preserve then a else Only(a, Index(a), Keys(b))) + moved
      && newList.items == Only(b, Index(b), Keys(a))
      && Distinct(moved) && Things(moved) == (set x | x in b && !Stays(Index(b), Keys(a), x))
      && (forall k :: k in Keys(a) && k in Keys(b) ==> Index(a)[k].value == old(Index(b)[k].value))
      && (forall x :: x in a && (x.key in Keys(b) ==> Index(a)[x.key] != x) ==> x.value == old(x.value))
  {
    hide Stand, Keys, Index, Only, Distinct, Without;
    ghost var a, b := oldList.items, newList.items;
    var oldDict := MakeIndex(oldList.items);
    var newDict := MakeIndex(newList.items);
    moved := [];
    InKeys(a);
    StandFirst(a, b, preserve);
    DisjointThings(a, b);
    var todo := oldDict.Keys + newDict.Keys;
    ghost var was := Values(a);
    ghost var now := Values(b);
    while todo != {}
      invariant todo <= Keys(a) + Keys(b)
      invariant Stand(a, b, todo, preserve, oldList.items, newList.items, moved)
      invariant Overwritten(a, b, Index(a), Index(b), todo, was, now)
      decreases |todo|
    {
      var k :| k in todo;
      moved := TreatListKey(oldList, newList, preserve, k, oldDict, newDict, a, b, todo, moved, was, now);
      todo := todo - {k};
    }
    StandLast(a, b, preserve, oldList.items, newList.items, moved);
  }

  ghost function Values(s: seq<Thing>): map<Thing, string>
    reads s
  {
    map x | x in s :: x.value
  }

  /** The objects of the old list that count for a common key have got the value of their
      counterpart when the key has been treated; nothing else has changed. */
  ghost predicate Overwritten(a: seq<Thing>, b: seq<Thing>, olds: map<string, Thing>, news: map<string, Thing>,
        todo: set<string>, was: map<Thing, string>, now: map<Thing, string>)
    reads a, b
  {
    && (forall x :: x in a ==> x in was && x.value == Target(olds, news, todo, was, now, x))
    && (forall y :: y in b ==> y in now && y.value == now[y])
  }

  ghost function Target(olds: map<string, Thing>, news: map<string, Thing>, todo: set<string>,
        was: map<Thing, string>, now: map<Thing, string>, x: Thing): string
    requires x in was
  {
    var k := x.key;
    if k in news && k !in todo && k in olds && olds[k] == x && news[k] in now then now[news[k]] else was[x]
  }

  /** One key of either list. */
  method TreatListKey(oldList: List, newList: List, preserve: bool, k: string,
        oldDict: map<string, Thing>, newDict: map<string, Thing>,
        ghost a: seq<Thing>, ghost b: seq<Thing>, ghost todo: set<string>, ghost moved: seq<Thing>,
        ghost was: map<Thing, string>, ghost now: map<Thing, string>)
    returns (ghost more: seq<Thing>)
    requires oldList != newList && Distinct(a) && Distinct(b) && (forall x :: x in a ==> x !in b)
    requires oldDict == Index(a) && newDict == Index(b) && k in todo && k in Keys(a) + Keys(b)
    requires Stand(a, b, todo, preserve, oldList.items, newList.items, moved)
    requires Overwritten(a, b, oldDict, newDict, todo, was, now)
    modifies oldList, newList, if k in oldDict then {oldDict[k]} else {}
    ensures Stand(a, b, todo - {k}, preserve, oldList.items, newList.items, more)
    ensures Overwritten(a, b, oldDict, newDict, todo - {k}, was, now)
  {
    hide Stand, Keys, Index, Only, Distinct, Without;
    more := moved;
    if k in newDict {
      if k !in oldDict {
        var temp := newDict[k];
        StandMove(a, b, todo, preserve, oldList.items, newList.items, moved, temp);
        newList.items := Without(newList.items, temp);
        oldList.items := oldList.items + [temp];
        more := moved + [temp];
      } else {
        StandUpdate(a, b, todo, preserve, oldList.items, newList.items, moved, k);
        UpdateObject(oldDict[k], newDict[k]);
      }
    } else if !preserve {
      StandRemove(a, b, todo, oldList.items, newList.items, moved, oldDict[k]);
      oldList.items := Without(oldList.items, oldDict[k]);
    } else {
      StandUpdate(a, b, todo, preserve, oldList.items, newList.items, moved, k);
    }
  }

  lemma DisjointThings(a: seq<Thing>, b: seq<Thing>)
    requires Things(a) !! Things(b)
    ensures forall x :: x in a ==> x !in b
  {
    forall x | x in a
      ensures x !in b
    {
      assert x in Things(a);
    }
  }

  lemma StandLast(a: seq<Thing>, b: seq<Thing>, preserve: bool, olds: seq<Thing>, news: seq<Thing>, moved: seq<Thing>)
    requires Stand(a, b, {}, preserve, olds, news, moved)
    ensures olds == (if preserve then a else Only(a, Index(a), Keys(b))) + moved && news == Only(b, Index(b), Keys(a))
    ensures Distinct(moved) && Things(moved) == (set x | x in b && !Stays(Index(b), Keys(a), x))
  {
    hide Keys, Index, Only, Distinct;
    InKeys(a);
    if preserve {
      OnlyAll(a, Index(a), Keys(b) + {} + Keys(a));
    }
    assert Keys(b) + {} + {} == Keys(b) && Keys(a) + {} == Keys(a);
  }

  /** Afterwards no object is in both lists. */
  lemma NoneInBoth(a: seq<Thing>, b: seq<Thing>, olds: seq<Thing>, kept: seq<Thing>, moved: seq<Thing>)
    requires Things(a) !! Things(b) && Things(moved) == (set x | x in b && !Stays(Index(b), Keys(a), x))
    requires olds == kept + moved && (kept == a || kept == Only(a, Index(a), Keys(b)))
    ensures Things(olds) !! Things(Only(b, Index(b), Keys(a)))
  {
    hide Keys, Index, Stays, Only;
    DisjointThings(a, b);
    OnlyMembers(a, Index(a), Keys(b));
    OnlyMembers(b, Index(b), Keys(a));
    assert forall x :: x in kept ==> x in a;
    assert forall x :: x in moved ==> x in Things(moved);
  }

  /** The old list ends with exactly the keys of the new one, unless a key that is only in the
      old list stands there twice. */
  lemma LooksLikeNew(a: seq<Thing>, b: seq<Thing>, kept: seq<Thing>, moved: seq<Thing>)
    requires kept == Only(a, Index(a), Keys(b)) && Things(moved) == (set x | x in b && !Stays(Index(b), Keys(a), x))
    ensures Keys(kept + moved) == Keys(b) <==> forall x :: x in a && x.key !in Keys(b) ==> Index(a)[x.key] == x
  {
    hide Index, Only, Keys, Stays;
    KeysOfBoth(kept, moved);
    NewKeysStay(a, b, kept, moved);
    OldKeysGo(a, b, kept, moved);
  }

  lemma KeysOfBoth(s: seq<Thing>, t: seq<Thing>)
    ensures Keys(s + t) == Keys(s) + Keys(t)
  {
    assert forall x :: x in s + t <==> x in s || x in t;
  }

  lemma NewKeysStay(a: seq<Thing>, b: seq<Thing>, kept: seq<Thing>, moved: seq<Thing>)
    requires kept == Only(a, Index(a), Keys(b)) && Things(moved) == (set x | x in b && !Stays(Index(b), Keys(a), x))
    ensures Keys(b) <= Keys(kept) + Keys(moved) && Keys(moved) <= Keys(b)
  {
    hide Index, Only;
    OnlyMembers(a, Index(a), Keys(b));
    forall k | k in Keys(b)
      ensures k in Keys(kept) + Keys(moved)
    {
      if k in Keys(a) {
        assert Index(a)[k] in kept;
      } else {
        assert Index(b)[k] in Things(moved);
      }
    }
    assert forall x :: x in moved ==> x in Things(moved);
  }

  lemma OldKeysGo(a: seq<Thing>, b: seq<Thing>, kept: seq<Thing>, moved: seq<Thing>)
    requires kept == Only(a, Index(a), Keys(b))
    ensures Keys(kept) <= Keys(b) <==> forall x :: x in a && x.key !in Keys(b) ==> Index(a)[x.key] == x
  {
    hide Index, Only;
    OnlyMembers(a, Index(a), Keys(b));
    InKeys(a);
    forall x | x in a && x.key !in Keys(b) && Index(a)[x.key] != x
      ensures x in kept && x.key in Keys(kept)
    {
    }
    forall x | x in kept
      ensures x in a && (x.key in Keys(b) || Index(a)[x.key] != x)
    {
    }
  }
}
