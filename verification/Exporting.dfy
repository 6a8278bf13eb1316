/** Exporting the objects that can be reached from the roots: a queue of objects, each
    given the next free number when it is first met. */
module Exporting {
  import opened Basics
  import opened DumpFormat
  import Numerals

  function Decimal(n: nat): string { Numerals.Show(n, 10) }

  /** The first n ids, which is what a dictionary filled by get_id lists as its values. */
  function FirstIds(n: nat): (ids: seq<string>)
    ensures |ids| == n && forall i :: 0 <= i < n ==> ids[i] == Decimal(i)
  {
    seq(n, i requires 0 <= i => Decimal(i))
  }

  /** The ids are the positions in the order. */
  ghost predicate Numbered(order: seq<Identity>, ids: map<Identity, string>) {
    Distinct(order) && (forall k :: k in ids <==> k in order)
    && forall i :: 0 <= i < |order| ==> ids[order[i]] == Decimal(i)
  }

  ghost predicate Encodable(schema: Schema, n: Node)
    requires NodeFits(schema, n)
  {
    forall c :: c in n.columns ==> Encode(schema[n.cls].columns[c], n.columns[c]).Some?
  }

  /** The item written for an object. */
  ghost function EntryOf(schema: Schema, skip: Skipped, n: Node, ids: map<Identity, string>): Item
    requires NodeFits(schema, n) && Encodable(schema, n)
  {
    Entry(n.cls,
          map c | c in n.columns :: Encode(schema[n.cls].columns[c], n.columns[c]).value,
          map p | p in n.links && !skip(n.cls, p) :: Through(n.links[p], ids))
  }

  /** Everything the item refers to has an id. */
  ghost predicate Linked(skip: Skipped, n: Node, ids: map<Identity, string>) {
    forall p :: p in n.links && !skip(n.cls, p) ==> Within(n.links[p], ids.Keys)
  }

  ghost predicate Extends(ids: map<Identity, string>, more: map<Identity, string>) {
    forall k :: k in ids ==> k in more && more[k] == ids[k]
  }

  /** The object is written under the id, and refers only to objects with ids. */
  ghost predicate Entered(schema: Schema, g: Graph, skip: Skipped, k: Identity, ids: map<Identity, string>,
        id: string, data: Dump) {
    && k in g && NodeFits(schema, g[k]) && Encodable(schema, g[k]) && Linked(skip, g[k], ids)
    && id in data && data[id] == EntryOf(schema, skip, g[k], ids)
  }

  /** The file written for a graph: exactly the reachable objects, densely numbered, each
      once, referring only to objects of the file, and the roots. */
  ghost predicate IsDump(schema: Schema, g: Graph, skip: Skipped, roots: seq<Identity>, order: seq<Identity>,
        ids: map<Identity, string>, data: Dump) {
    && Numbered(order, ids)
    && (forall k :: k in ids <==> Reachable(g, skip, roots, k))
    && (forall k :: k in ids ==> Entered(schema, g, skip, k, ids, ids[k], data))
    && data.Keys == ids.Values + {"_objects", "_version"}
    && data["_version"] == Version(MODEL_VERSION)
    && data["_objects"].Roots? && (forall k :: k in ids ==> (ids[k] in data["_objects"].ids <==> k in roots))
  }

  lemma {:induction false} DistinctCount(order: seq<Identity>)
    requires Distinct(order)
    ensures |set k | k in order| == |order|
  {
    if order != [] {
      var n := |order| - 1;
      DistinctCount(order[..n]);
      assert (set k | k in order) == (set k | k in order[..n]) + {order[n]};
    }
  }

  lemma NumberedSize(order: seq<Identity>, ids: map<Identity, string>)
    requires Numbered(order, ids)
    ensures |ids| == |order|
  {
    DistinctCount(order);
    assert ids.Keys == set k | k in order;
  }

  lemma NumberedMore(order: seq<Identity>, ids: map<Identity, string>, obj: Identity)
    requires Numbered(order, ids) && obj !in ids
    ensures Numbered(order + [obj], ids[obj := Decimal(|ids|)])
  {
    NumberedSize(order, ids);
    assert forall k :: k in order + [obj] <==> k in order || k == obj;
  }

  lemma NumberedBelow(order: seq<Identity>, ids: map<Identity, string>, g: Graph)
    requires Numbered(order, ids) && forall k :: k in order ==> k in g
    ensures |order| <= |g|
  {
    DistinctCount(order);
    Subset(ids.Keys, g.Keys);
    assert ids.Keys == set k | k in order;
  }

  lemma {:induction false} Subset<T>(a: set<T>, b: set<T>)
    requires a <= b
    ensures |a| <= |b|
  {
    assert b == a + (b - a) && a !! (b - a);
  }

  lemma DecimalPlain(n: nat)
    ensures Decimal(n) != [] && Decimal(n)[0] != '_'
  {
    assert Numerals.AreDigits(Decimal(n), 10);
    assert Numerals.DigitValue('_') == 16;
  }

  lemma IdsDiffer(order: seq<Identity>, ids: map<Identity, string>, a: Identity, b: Identity)
    requires Numbered(order, ids) && a in ids && b in ids && a != b
    ensures ids[a] != ids[b]
  {
    var i :| 0 <= i < |order| && order[i] == a;
    var j :| 0 <= j < |order| && order[j] == b;
    if Decimal(i) == Decimal(j) {
      Numerals.ShowInjective(i, j, 10);
    }
  }

  lemma EntryStays(schema: Schema, skip: Skipped, n: Node, ids: map<Identity, string>, more: map<Identity, string>)
    requires NodeFits(schema, n) && Encodable(schema, n) && Linked(skip, n, ids) && Extends(ids, more)
    ensures Linked(skip, n, more) && EntryOf(schema, skip, n, more) == EntryOf(schema, skip, n, ids)
  {
    forall p | p in n.links && !skip(n.cls, p)
      ensures Within(n.links[p], more.Keys) && Through(n.links[p], more) == Through(n.links[p], ids)
    {
      ThroughSame(n.links[p], ids, more);
    }
  }

  /** The first `done` objects of the order have been written. */
  ghost predicate Written(schema: Schema, g: Graph, skip: Skipped, order: seq<Identity>, done: nat,
        ids: map<Identity, string>, data: Dump) {
    && done <= |order|
    && (forall i :: 0 <= i < done ==> Entered(schema, g, skip, order[i], ids, Decimal(i), data))
    && data.Keys == (set i | 0 <= i < done :: Decimal(i)) + {"_objects"}
  }

  lemma EnteredStays(schema: Schema, g: Graph, skip: Skipped, k: Identity, ids: map<Identity, string>, id: string,
                     data: Dump, more: map<Identity, string>, other: string, item: Item)
    requires Entered(schema, g, skip, k, ids, id, data) && Extends(ids, more) && id != other
    ensures Entered(schema, g, skip, k, more, id, data[other := item])
  {
    EntryStays(schema, skip, g[k], ids, more);
  }

  lemma WrittenMore(schema: Schema, g: Graph, skip: Skipped, order: seq<Identity>, done: nat,
        ids: map<Identity, string>,
                    data: Dump, longer: seq<Identity>, more: map<Identity, string>, item: Item)
    requires Written(schema, g, skip, order, done, ids, data) && Numbered(order, ids) && Numbered(longer, more)
    requires order <= longer && done < |order| && Extends(ids, more)
    requires var n := order[done];
             n in g && NodeFits(schema, g[n]) && Encodable(schema, g[n]) && Linked(skip, g[n], more)
                                   && item == EntryOf(schema, skip, g[n], more)
    ensures Written(schema, g, skip, longer, done + 1, more, data[more[order[done]] := item])
    ensures "_objects" in data && data["_objects"] == data[more[order[done]] := item]["_objects"]
  {
    hide Entered, Distinct, Decimal;
    var next := data[Decimal(done) := item];
    assert longer[done] == order[done] && more[order[done]] == Decimal(done);
    DecimalPlain(done);
    forall i | 0 <= i < done
      ensures Entered(schema, g, skip, longer[i], more, Decimal(i), next)
    {
      DecimalsDiffer(i, done);
      EnteredStays(schema, g, skip, order[i], ids, Decimal(i), data, more, Decimal(done), item);
    }
    assert Entered(schema, g, skip, longer[done], more, Decimal(done), next) by {
      JustEntered(schema, g, skip, order[done], more, Decimal(done), data, item);
    }
    assert next.Keys == data.Keys + {Decimal(done)};
  }

  lemma JustEntered(schema: Schema, g: Graph, skip: Skipped, k: Identity, ids: map<Identity, string>, id: string,
        data: Dump, item: Item)
    requires k in g && NodeFits(schema, g[k]) && Encodable(schema, g[k]) && Linked(skip, g[k], ids)
    requires item == EntryOf(schema, skip, g[k], ids)
    ensures Entered(schema, g, skip, k, ids, id, data[id := item])
  {
  }

  lemma DecimalsDiffer(i: nat, j: nat)
    requires i != j
    ensures Decimal(i) != Decimal(j)
  {
    if Decimal(i) == Decimal(j) {
      Numerals.ShowInjective(i, j, 10);
    }
  }

  lemma ReachableHaveIds(schema: Schema, g: Graph, skip: Skipped, roots: seq<Identity>, ids: map<Identity, string>,
        data: Dump, k: Identity)
    requires forall k :: k in ids ==> Entered(schema, g, skip, k, ids, ids[k], data)
    requires (forall k :: k in roots ==> k in ids) && Reachable(g, skip, roots, k)
    ensures k in ids
  {
    var walk :| IsWalk(g, skip, walk) && walk[0] in roots && walk[|walk| - 1] == k;
    forall a, b | a in ids.Keys && Link(g, skip, a, b)
      ensures b in ids.Keys
    {
      assert Entered(schema, g, skip, a, ids, ids[a], data);
    }
    ClosedHoldsReachable(g, skip, roots, ids.Keys, walk);
  }

  lemma ValuesAreDecimals(order: seq<Identity>, ids: map<Identity, string>)
    requires Numbered(order, ids)
    ensures ids.Values == set i | 0 <= i < |order| :: Decimal(i)
  {
    hide Decimal;
    forall x
      ensures x in ids.Values <==> exists i :: 0 <= i < |order| && Decimal(i) == x
    {
      if i :| 0 <= i < |order| && Decimal(i) == x {
        assert order[i] in ids && ids[order[i]] == x;
      }
      if x in ids.Values {
        var k :| k in ids && ids[k] == x;
        var i :| 0 <= i < |order| && order[i] == k;
        assert Decimal(i) == x;
      }
    }
  }

  /** When the queue is empty, what has been written is the dump. */
  lemma AllWritten(schema: Schema, g: Graph, skip: Skipped, roots: seq<Identity>, order: seq<Identity>,
        ids: map<Identity, string>, data: Dump)
    requires Numbered(order, ids) && Written(schema, g, skip, order, |order|, ids, data)
    requires forall k :: k in ids ==> Reachable(g, skip, roots, k)
    requires forall k :: k in roots ==> k in ids
    requires data["_objects"].Roots? && forall k :: k in ids ==> (ids[k] in data["_objects"].ids <==> k in roots)
    ensures IsDump(schema, g, skip, roots, order, ids, data["_version" := Version(MODEL_VERSION)])
  {
    hide Entered, Reachable, Distinct, Decimal;
    var file := data["_version" := Version(MODEL_VERSION)];
    forall k | k in ids
      ensures Entered(schema, g, skip, k, ids, ids[k], data) && Entered(schema, g, skip, k, ids, ids[k], file)
    {
      var i :| 0 <= i < |order| && order[i] == k;
      DecimalPlain(i);
      assert Entered(schema, g, skip, order[i], ids, Decimal(i), data);
      EnteredStays(schema, g, skip, k, ids, ids[k], data, ids, "_version", Version(MODEL_VERSION));
    }
    forall k | Reachable(g, skip, roots, k)
      ensures k in ids
    {
      ReachableHaveIds(schema, g, skip, roots, ids, data, k);
    }
    ValuesAreDecimals(order, ids);
  }

  lemma LinkStays(r: Rel<Identity>, ids: map<Identity, string>, more: map<Identity, string>)
    requires Within(r, ids.Keys) && Extends(ids, more)
    ensures Within(r, more.Keys) && Through(r, more) == Through(r, ids)
  {
    ThroughSame(r, ids, more);
  }

  lemma StartQueue(schema: Schema, g: Graph, skip: Skipped, roots: seq<Identity>)
    requires Sound(schema, g)
    ensures Queued(schema, g, skip, roots, [], map[], [])
  {
  }

  /** Everything the relationship refers to may get an id. */
  ghost predicate Open(g: Graph, skip: Skipped, roots: seq<Identity>, r: Rel<Identity>) {
    forall x :: Refers(r, x) ==> x in g && Reachable(g, skip, roots, x)
  }

  lemma LinksAreOpen(g: Graph, skip: Skipped, roots: seq<Identity>, k: Identity, p: string)
    requires k in g && Reachable(g, skip, roots, k) && p in g[k].links && !skip(g[k].cls, p)
             && Within(g[k].links[p], g.Keys)
    ensures Open(g, skip, roots, g[k].links[p])
  {
    forall x | Refers(g[k].links[p], x)
      ensures x in g && Reachable(g, skip, roots, x)
    {
      assert Link(g, skip, k, x);
      ReachableNext(g, skip, roots, k, x);
    }
  }

  /** What waits in the queue are the latest objects of the order. */
  ghost predicate Queued(schema: Schema, g: Graph, skip: Skipped, roots: seq<Identity>,
                         order: seq<Identity>, ids: map<Identity, string>, queue: seq<Identity>) {
    && Sound(schema, g) && Numbered(order, ids)
    && |queue| <= |order| && queue == order[|order| - |queue|..]
    && forall k :: k in order ==> k in g && Reachable(g, skip, roots, k)
  }

  lemma QueuedMore(schema: Schema, g: Graph, skip: Skipped, roots: seq<Identity>,
                   order: seq<Identity>, ids: map<Identity, string>, queue: seq<Identity>, k: Identity)
    requires Queued(schema, g, skip, roots, order, ids, queue) && k !in ids && k in g && Reachable(g, skip, roots, k)
    ensures Queued(schema, g, skip, roots, order + [k], ids[k := Decimal(|ids|)], queue + [k])
  {
    hide Sound, Numbered, Reachable, Decimal;
    NumberedMore(order, ids, k);
    TailMore(order, queue, k);
    InMore(order, k);
  }

  lemma TailMore<T>(s: seq<T>, tail: seq<T>, x: T)
    requires |tail| <= |s| && tail == s[|s| - |tail|..]
    ensures tail + [x] == (s + [x])[|s + [x]| - |tail + [x]|..]
  {
  }

  lemma InMore<T>(s: seq<T>, x: T)
    ensures forall y :: y in s + [x] <==> y in s || y == x
  {
  }

  lemma QueuedLess(schema: Schema, g: Graph, skip: Skipped, roots: seq<Identity>,
                   order: seq<Identity>, ids: map<Identity, string>, queue: seq<Identity>)
    requires Queued(schema, g, skip, roots, order, ids, queue)
    ensures Sound(schema, g) && Numbered(order, ids) && |queue| <= |order| <= |g|
    ensures forall k :: k in ids <==> k in order
    ensures forall k :: k in order ==> k in g && Reachable(g, skip, roots, k)
    ensures queue != [] ==>
              Queued(schema, g, skip, roots, order, ids, queue[1..]) && queue[0] == order[|order| - |queue|]
  {
    NumberedBelow(order, ids, g);
    if queue != [] {
      assert queue[1..] == order[|order| - |queue| + 1..];
    }
  }

  lemma QueuedFits(schema: Schema, g: Graph, skip: Skipped, roots: seq<Identity>,
                   order: seq<Identity>, ids: map<Identity, string>, queue: seq<Identity>, k: Identity)
    requires Queued(schema, g, skip, roots, order, ids, queue) && k in order
    ensures k in g && NodeFits(schema, g[k])
    ensures forall p :: p in g[k].links && !skip(g[k].cls, p) ==> Open(g, skip, roots, g[k].links[p])
  {
    forall p | p in g[k].links && !skip(g[k].cls, p)
      ensures Open(g, skip, roots, g[k].links[p])
    {
      LinksAreOpen(g, skip, roots, k, p);
    }
  }

  class DumpExporter {
    const schema: Schema
    const graph: Graph
    const skip: Skipped
    var ids: map<Identity, string>
    var queue: seq<Identity>
    /** The objects in the order in which they were given ids. */
    ghost var order: seq<Identity>

    constructor (schema: Schema, graph: Graph, skip: Skipped)
      ensures this.schema == schema && this.graph == graph && this.skip == skip
      ensures ids == map[] && queue == [] && order == []
    {
      this.schema, this.graph, this.skip := schema, graph, skip;
      ids, queue, order := map[], [], [];
    }

    ghost predicate Valid(roots: seq<Identity>)
      reads this
    {
      Queued(schema, graph, skip, roots, order, ids, queue)
    }

    ghost function Done(): int
      reads this
    {
      |order| - |queue|
    }

    method GetId(obj: Identity, ghost roots: seq<Identity>) returns (id: string)
      requires Valid(roots) && obj in graph && Reachable(graph, skip, roots, obj)
      modifies this
      ensures Valid(roots) && obj in ids && id == ids[obj]
      ensures Extends(old(ids), ids) && old(order) <= order && Done() == old(Done())
      ensures ids.Keys == old(ids).Keys + {obj}
    {
      hide Queued, Decimal;
      if obj !in ids {
        QueuedMore(schema, graph, skip, roots, order, ids, queue, obj);
        ids := ids[obj := Decimal(|ids|)];
        queue := queue + [obj];
        order := order + [obj];
      }
      id := ids[obj];
    }

    /** The value written for one relationship. */
    method ExportLink(link: Rel<Identity>, ghost roots: seq<Identity>) returns (out: Rel<string>)
      requires Valid(roots) && Open(graph, skip, roots, link)
      modifies this
      ensures Valid(roots) && Extends(old(ids), ids) && old(order) <= order && Done() == old(Done())
      ensures Within(link, ids.Keys) && out == Through(link, ids)
    {
      hide Queued, Reachable;
      match link {
        case Nothing =>
          out := Nothing;
        case One(x) =>
          assert Refers(link, x);
          var id := GetId(x, roots);
          out := One(id);
        case Many(items) =>
          assert forall x :: x in items ==> Refers(link, x);
          var list := ExportList(items, roots);
          out := Many(list);
        case Named(entries) =>
          assert forall k :: k in entries ==> Refers(link, entries[k]);
          var dict := ExportDictionary(entries, roots);
          assert dict == (map k | k in entries && entries[k] in ids :: ids[entries[k]]);
          out := Named(dict);
      }
    }

    method ExportList(items: seq<Identity>, ghost roots: seq<Identity>) returns (list: seq<string>)
      requires Valid(roots) && forall x :: x in items ==> x in graph && Reachable(graph, skip, roots, x)
      modifies this
      ensures Valid(roots) && Extends(old(ids), ids) && old(order) <= order && Done() == old(Done())
      ensures (forall x :: x in items ==> x in ids) && list == Picked(items, ids)
    {
      hide Queued, Reachable;
      list := [];
      for i := 0 to |items|
        invariant Valid(roots) && Extends(old(ids), ids) && old(order) <= order && Done() == old(Done())
        invariant forall x :: x in items[..i] ==> x in ids
        invariant list == Picked(items[..i], ids)
      {
        ghost var before := ids;
        var id := GetId(items[i], roots);
        assert items[..i + 1] == items[..i] + [items[i]] && items[..i + 1][..i] == items[..i];
        PickedSame(items[..i], before, ids);
        list := list + [id];
      }
      assert items[..|items|] == items;
    }

    method ExportDictionary(entries: map<string, Identity>,
          ghost roots: seq<Identity>) returns (dict: map<string, string>)
      requires Valid(roots)
      requires forall k :: k in entries ==> entries[k] in graph && Reachable(graph, skip, roots, entries[k])
      modifies this
      ensures Valid(roots) && Extends(old(ids), ids) && old(order) <= order && Done() == old(Done())
      ensures dict.Keys == entries.Keys && forall k :: k in entries ==> entries[k] in ids && dict[k] == ids[entries[k]]
    {
      hide Queued, Reachable, Extends, Mapped;
      dict := map[];
      var todo := entries.Keys;
      NothingMapped(entries, ids);
      while todo != {}
        invariant Valid(roots) && Extends(old(ids), ids) && old(order) <= order && Done() == old(Done())
        invariant todo <= entries.Keys && Mapped(entries, todo, dict, ids)
        decreases |todo|
      {
        var k :| k in todo;
        ghost var before := ids;
        var id := GetId(entries[k], roots);
        MappedMore(entries, todo, dict, before, ids, k);
        ExtendsFurther(old(ids), before, ids);
        dict := dict[k := id];
        todo := todo - {k};
      }
      AllMapped(entries, dict, ids);
    }

    /** The columns of an object, or None at a type that is not known. */
    method ExportColumns(n: Node) returns (columns: Option<map<string, Json>>)
      requires NodeFits(schema, n)
      ensures columns.Some? <==> Encodable(schema, n)
      ensures columns.Some? ==>
                columns.value == map c | c in n.columns :: Encode(schema[n.cls].columns[c], n.columns[c]).value
    {
      var done: map<string, Json> := map[];
      var todo := n.columns.Keys;
      while todo != {}
        invariant todo <= n.columns.Keys && done.Keys == n.columns.Keys - todo
        invariant forall c :: c in done ==> Encode(schema[n.cls].columns[c], n.columns[c]) == Some(done[c])
        decreases |todo|
      {
        var c :| c in todo;
        var json := Encode(schema[n.cls].columns[c], n.columns[c]);
        if json.None? {
          return None;
        }
        done := done[c := json.value];
        todo := todo - {c};
      }
      columns := Some(done);
    }

    /** The relationships of an object that are not left out. */
    method ExportLinks(n: Node, ghost roots: seq<Identity>) returns (links: map<string, Rel<string>>)
      requires Valid(roots) && forall p :: p in n.links && !skip(n.cls, p) ==> Open(graph, skip, roots, n.links[p])
      modifies this
      ensures Valid(roots) && Extends(old(ids), ids) && old(order) <= order && Done() == old(Done())
      ensures Linked(skip, n, ids) && links == map p | p in n.links && !skip(n.cls, p) :: Through(n.links[p], ids)
    {
      hide Queued, Reachable, Within, Open, Through;
      links := map[];
      var todo := n.links.Keys;
      while todo != {}
        invariant Valid(roots) && Extends(old(ids), ids) && old(order) <= order && Done() == old(Done())
        invariant todo <= n.links.Keys && forall p :: p in links <==> p in n.links && p !in todo && !skip(n.cls, p)
        invariant forall p :: p in links ==> Within(n.links[p], ids.Keys) && links[p] == Through(n.links[p], ids)
        decreases |todo|
      {
        var p :| p in todo;
        todo := todo - {p};
        if !skip(n.cls, p) {
          ghost var before := ids;
          var out := ExportLink(n.links[p], roots);
          LinksStay(n, links, before, ids);
          links := links[p := out];
        }
      }
    }

    method ExportObject(obj: Identity, ghost roots: seq<Identity>) returns (item: Option<Item>)
      requires Valid(roots) && obj in order
      modifies this
      ensures Valid(roots) && Extends(old(ids), ids) && old(order) <= order && Done() == old(Done())
      ensures obj in graph && NodeFits(schema, graph[obj])
      ensures item.Some? <==> Encodable(schema, graph[obj])
      ensures item.Some? ==> Linked(skip, graph[obj], ids) && item.value == EntryOf(schema, skip, graph[obj], ids)
    {
      hide Queued, Reachable, Within, Open, NodeFits, Encodable, Through, Linked, Extends;
      QueuedFits(schema, graph, skip, roots, order, ids, queue, obj);
      var n := graph[obj];
      var columns := ExportColumns(n);
      if columns.None? {
        ExtendsSelf(ids);
        return None;
      }
      var links := ExportLinks(n, roots);
      item := Some(Entry(n.cls, columns.value, links));
    }

    /** The loop over the roots. */
    method NumberRoots(roots: seq<Identity>) returns (known: seq<string>)
      requires Sound(schema, graph) && forall k :: k in roots ==> k in graph
      requires ids == map[] && queue == [] && order == []
      modifies this
      ensures Valid(roots) && Done() == 0 && forall k :: k in order <==> k in roots
      ensures known == FirstIds(|order|)
    {
      hide Queued, Reachable, Sound, FirstIds, Numbered, Extends;
      GiveIds(roots);
      QueuedLess(schema, graph, skip, roots, order, ids, queue);
      NumberedSize(order, ids);
      known := FirstIds(|ids|);
    }

    method GiveIds(roots: seq<Identity>)
      requires Sound(schema, graph) && forall k :: k in roots ==> k in graph
      requires ids == map[] && queue == [] && order == []
      modifies this
      ensures Valid(roots) && Done() == 0 && forall k :: k in ids <==> k in roots
    {
      hide Queued, Reachable, Sound, Numbered, Extends;
      StartQueue(schema, graph, skip, roots);
      for i := 0 to |roots|
        invariant Valid(roots) && Done() == 0
        invariant (forall k :: k in ids ==> k in roots) && forall j :: 0 <= j < i ==> roots[j] in ids
      {
        ReachableRoot(graph, skip, roots, roots[i]);
        var _ := GetId(roots[i], roots);
      }
    }

    /** Takes one object from the queue and writes it; false if it cannot be encoded. */
    method ExportNext(data: Dump, ghost roots: seq<Identity>) returns (ok: bool, more: Dump)
      requires Valid(roots) && queue != [] && 0 <= Done() && Written(schema, graph, skip, order, Done(), ids, data)
      modifies this
      ensures Valid(roots) && old(order) <= order && 0 <= old(Done()) < Done() <= |graph|
      ensures ok ==> Written(schema, graph, skip, order, Done(), ids, more)
      ensures ok ==> "_objects" in data && "_objects" in more && data["_objects"] == more["_objects"]
      ensures !ok ==> exists k :: k in order && k in graph && NodeFits(schema, graph[k]) && !Encodable(schema, graph[k])
    {
      hide Queued, Numbered, Written, Encodable, NodeFits, Linked, EntryOf, Extends, Reachable, Sound;
      QueuedLess(schema, graph, skip, roots, order, ids, queue);
      ghost var done := Done();
      var obj := queue[0];
      queue := queue[1..];
      ghost var before, prior := ids, order;
      var item := ExportObject(obj, roots);
      QueuedLess(schema, graph, skip, roots, order, ids, queue);
      if item.None? {
        return false, data;
      }
      WrittenMore(schema, graph, skip, prior, done, before, data, order, ids, item.value);
      return true, data[ids[obj] := item.value];
    }

    /** The loop over the queue; false at an object that cannot be encoded. */
    method Drain(file: Dump, ghost roots: seq<Identity>) returns (ok: bool, data: Dump)
      requires Valid(roots) && Done() == 0 && Written(schema, graph, skip, order, 0, ids, file) && "_objects" in file
      modifies this
      ensures Valid(roots) && old(order) <= order
      ensures ok ==> queue == [] && Written(schema, graph, skip, order, |order|, ids, data)
      ensures ok ==> "_objects" in data && data["_objects"] == file["_objects"]
      ensures !ok ==> exists k :: k in order && k in graph && NodeFits(schema, graph[k]) && !Encodable(schema, graph[k])
    {
      hide Queued, Written, Encodable, NodeFits;
      data, ok := file, true;
      while queue != []
        invariant ok && Valid(roots) && old(order) <= order && 0 <= Done()
        invariant Written(schema, graph, skip, order, Done(), ids, data)
        invariant "_objects" in data && data["_objects"] == file["_objects"]
        decreases |graph| - Done()
      {
        ok, data := ExportNext(data, roots);
        if !ok {
          return;
        }
      }
    }

    /** do_export: fails exactly if some reachable object cannot be encoded. */
    method DoExport(roots: seq<Identity>) returns (data: Option<Dump>)
      requires Sound(schema, graph) && forall k :: k in roots ==> k in graph
      requires ids == map[] && queue == [] && order == []
      modifies this
      ensures data.Some? ==> IsDump(schema, graph, skip, roots, order, ids, data.value)
      ensures data.None? <==> exists k :: k in graph && Reachable(graph, skip, roots, k) && !Encodable(schema, graph[k])
    {
      hide Queued, Numbered, Written, IsDump, Encodable, Reachable;
      var known := NumberRoots(roots);
      ghost var top := order;
      NothingWritten(schema, graph, skip, order, ids, known);
      var ok, file := Drain(map["_objects" := Roots(known)], roots);
      QueuedLess(schema, graph, skip, roots, order, ids, queue);
      if !ok {
        return None;
      }
      RootsStay(roots, top, order, ids, known);
      AllWritten(schema, graph, skip, roots, order, ids, file);
      DumpEncodes(schema, graph, skip, roots, order, ids, file["_version" := Version(MODEL_VERSION)]);
      data := Some(file["_version" := Version(MODEL_VERSION)]);
    }
  }

  /** The entries that are not in `todo` have got their ids. */
  ghost predicate Mapped(entries: map<string, Identity>, todo: set<string>, dict: map<string, string>,
        ids: map<Identity, string>) {
    dict.Keys == entries.Keys - todo && forall k :: k in dict ==> entries[k] in ids && dict[k] == ids[entries[k]]
  }

  lemma NothingMapped(entries: map<string, Identity>, ids: map<Identity, string>)
    ensures Mapped(entries, entries.Keys, map[], ids) && Extends(ids, ids)
  {
  }

  lemma MappedMore(entries: map<string, Identity>, todo: set<string>, dict: map<string, string>,
        ids: map<Identity, string>, more: map<Identity, string>, k: string)
    requires Mapped(entries, todo, dict, ids) && Extends(ids, more) && k in todo && k in entries && entries[k] in more
    ensures Mapped(entries, todo - {k}, dict[k := more[entries[k]]], more)
  {
  }

  lemma AllMapped(entries: map<string, Identity>, dict: map<string, string>, ids: map<Identity, string>)
    requires Mapped(entries, {}, dict, ids)
    ensures dict.Keys == entries.Keys && forall k :: k in entries ==> entries[k] in ids && dict[k] == ids[entries[k]]
  {
  }

  lemma ExtendsFurther(a: map<Identity, string>, b: map<Identity, string>, c: map<Identity, string>)
    requires Extends(a, b) && Extends(b, c)
    ensures Extends(a, c)
  {
  }

  lemma LinksStay(n: Node, links: map<string, Rel<string>>, ids: map<Identity, string>, more: map<Identity, string>)
    requires Extends(ids, more) && links.Keys <= n.links.Keys
    requires forall p :: p in links ==> Within(n.links[p], ids.Keys) && links[p] == Through(n.links[p], ids)
    ensures forall p :: p in links ==> Within(n.links[p], more.Keys) && links[p] == Through(n.links[p], more)
  {
    forall p | p in links
      ensures Within(n.links[p], more.Keys) && links[p] == Through(n.links[p], more)
    {
      LinkStays(n.links[p], ids, more);
    }
  }

  lemma ExtendsSelf(ids: map<Identity, string>)
    ensures Extends(ids, ids)
  {
  }

  lemma NothingWritten(schema: Schema, g: Graph, skip: Skipped, order: seq<Identity>, ids: map<Identity, string>,
        known: seq<string>)
    ensures Written(schema, g, skip, order, 0, ids, map["_objects" := Roots(known)])
  {
  }

  lemma DumpEncodes(schema: Schema, g: Graph, skip: Skipped, roots: seq<Identity>, order: seq<Identity>,
        ids: map<Identity, string>, data: Dump)
    requires IsDump(schema, g, skip, roots, order, ids, data)
    ensures forall k :: k in g && Reachable(g, skip, roots, k) ==> NodeFits(schema, g[k]) && Encodable(schema, g[k])
  {
    forall k | k in g && Reachable(g, skip, roots, k)
      ensures NodeFits(schema, g[k]) && Encodable(schema, g[k])
    {
      assert Entered(schema, g, skip, k, ids, ids[k], data);
    }
  }

  lemma RootsStay(roots: seq<Identity>, top: seq<Identity>, order: seq<Identity>, ids: map<Identity, string>,
        known: seq<string>)
    requires Numbered(order, ids) && top <= order && (forall k :: k in top <==> k in roots)
    requires known == FirstIds(|top|)
    ensures forall k :: k in ids ==> (ids[k] in known <==> k in roots)
  {
    forall k | k in ids
      ensures ids[k] in known <==> k in roots
    {
      var i :| 0 <= i < |order| && order[i] == k;
      if k in roots {
        var j :| 0 <= j < |top| && top[j] == k;
        assert order[j] == k && known[j] == ids[k];
      }
      if ids[k] in known {
        var j :| 0 <= j < |known| && known[j] == ids[k];
        Numerals.ShowInjective(i, j, 10);
        assert top[j] == k;
      }
    }
  }
}
