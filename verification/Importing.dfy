/** Importing a dump in two passes: first every object, then the relationships between
    them; and what a dump followed by an import gives back. */
module Importing {
  import opened Basics
  import opened DumpFormat
  import opened Exporting

  class Entity {
    const cls: string
    const columns: map<string, Value>
    var links: map<string, Rel<Entity>>

    constructor (cls: string, columns: map<string, Value>)
      ensures this.cls == cls && this.columns == columns && links == map[]
    {
      this.cls, this.columns, this.links := cls, columns, map[];
    }
  }

  /** The class is known and every column it has can be decoded. */
  ghost predicate Decodable(schema: Schema, e: Item)
    requires e.Entry?
  {
    e.cls in schema
    && forall c :: c in schema[e.cls].columns && c in e.columns ==> Decode(schema[e.cls].columns[c], e.columns[c]).Some?
  }

  ghost function ColumnsOf(schema: Schema, e: Item): map<string, Value>
    requires e.Entry? && Decodable(schema, e)
  {
    map c | c in schema[e.cls].columns && c in e.columns :: Decode(schema[e.cls].columns[c], e.columns[c]).value
  }

  /** What the relationships of an object become; what was not imported is dropped. */
  ghost function LinksOf(schema: Schema, e: Item, objs: map<string, Entity>): map<string, Rel<Entity>>
    requires e.Entry? && e.cls in schema
  {
    LinksNamed(schema[e.cls].relations, e, objs)
  }

  ghost function LinksNamed(names: set<string>, e: Item, objs: map<string, Entity>): map<string, Rel<Entity>>
    requires e.Entry?
  {
    map p | p in names && p in e.links :: Through(e.links[p], objs)
  }

  lemma NoName(links: map<string, Rel<Entity>>, e: Item, objs: map<string, Entity>)
    requires e.Entry?
    ensures links == links + LinksNamed({}, e, objs)
  {
  }

  lemma OneMoreName(names: set<string>, p: string, e: Item, objs: map<string, Entity>)
    requires e.Entry?
    ensures LinksNamed(names + {p}, e, objs) ==
            if p in e.links then LinksNamed(names, e, objs)[p := Through(e.links[p], objs)]
            else LinksNamed(names, e, objs)
  {
  }

  /** The keys of the top level that belong to objects. */
  predicate IsId(id: string) {
    id == "" || id[0] != '_'
  }

  /** Every id maps to an object. */
  ghost predicate HasEntries(datas: Dump) {
    forall id :: id in datas && IsId(id) ==> datas[id].Entry?
  }

  /** The version of a dump; the first format had none. */
  function VersionOf(datas: Dump): int {
    if "_version" in datas && datas["_version"].Version? then datas["_version"].number else 0
  }

  /** Takes a dump to the given version from the one before; None if it fails. */
  type Updater = (int, Dump) -> Option<Dump>

  /** The updaters one after another, each from one version to the next; None if one fails. */
  function Updated(updater: Updater, datas: Dump, first: int, version: int): Option<Dump>
    requires first <= version
    decreases version - first
  {
    if version == first then Some(datas)
    else
      match Updated(updater, datas, first, version - 1)
      case None => None
      case Some(prior) =>
        match updater(version, prior)
        case None => None
        case Some(next) => Some(next["_version" := Version(version)])
  }

  /** The dump as it is imported: None if it is newer or cannot be updated. */
  function Current(updater: Updater, datas: Dump): Option<Dump> {
    if VersionOf(datas) > MODEL_VERSION then None else Updated(updater, datas, VersionOf(datas), MODEL_VERSION)
  }

  /** A dump that has been updated has the current version, one that has it stays as it is. */
  lemma CurrentVersion(updater: Updater, datas: Dump)
    ensures var u := Current(updater, datas); u.Some? ==> VersionOf(u.value) == MODEL_VERSION
    ensures VersionOf(datas) == MODEL_VERSION ==> Current(updater, datas) == Some(datas)
  {
  }

  class DumpImporter {
    const schema: Schema
    var objs: map<string, Entity>

    constructor (schema: Schema)
      ensures this.schema == schema && objs == map[]
    {
      this.schema, objs := schema, map[];
    }

    /** An object without its relationships; None if it cannot be built. */
    method ImportObject(e: Item) returns (obj: Option<Entity>)
      requires e.Entry?
      ensures obj.Some? <==> Decodable(schema, e)
      ensures obj.Some? ==> fresh(obj.value) && obj.value.cls == e.cls && obj.value.links == map[]
      ensures obj.Some? ==> obj.value.columns == ColumnsOf(schema, e)
    {
      if e.cls !in schema {
        return None;
      }
      var types := schema[e.cls].columns;
      var args: map<string, Value> := map[];
      var todo := types.Keys;
      while todo != {}
        invariant todo <= types.Keys && forall c :: c in args <==> c in types && c in e.columns && c !in todo
        invariant forall c :: c in args ==> Decode(types[c], e.columns[c]) == Some(args[c])
        decreases |todo|
      {
        var c :| c in todo;
        todo := todo - {c};
        if c in e.columns {
          var value := Decode(types[c], e.columns[c]);
          if value.None? {
            return None;
          }
          args := args[c := value.value];
        }
      }
      var made := new Entity(e.cls, args);
      obj := Some(made);
    }

    method AddRelationships(e: Item, obj: Entity)
      requires e.Entry? && e.cls in schema
      modifies obj
      ensures obj.links == old(obj.links) + LinksOf(schema, e, objs)
    {
      hide LinksNamed, Through;
      var todo := schema[e.cls].relations;
      ghost var done: set<string> := {};
      NoName(obj.links, e, objs);
      while todo != {}
        invariant todo + done == schema[e.cls].relations
        invariant obj.links == old(obj.links) + LinksNamed(done, e, objs)
        decreases |todo|
      {
        var p :| p in todo;
        todo := todo - {p};
        OneMoreName(done, p, e, objs);
        done := done + {p};
        if p in e.links {
          obj.links := obj.links[p := Through(e.links[p], objs)];
        }
      }
      assert done == schema[e.cls].relations;
    }

    /** The first loop: every object is built. */
    method ImportObjects(datas: Dump) returns (ok: bool)
      requires HasEntries(datas)
      modifies this
      ensures ok <==> forall id :: id in datas && IsId(id) ==> Decodable(schema, datas[id])
      ensures ok ==> Built(schema, datas, {}, objs)
      ensures ok ==> forall id :: id in objs ==> fresh(objs[id]) && objs[id].links == map[]
    {
      objs := map[];
      var todo := datas.Keys;
      while todo != {}
        invariant todo <= datas.Keys && forall id :: id in objs <==> id in datas && IsId(id) && id !in todo
        invariant forall id :: id in objs ==>
                    BuiltFrom(schema, datas[id], objs[id]) && fresh(objs[id]) && objs[id].links == map[]
        invariant forall a, b :: a in objs && b in objs && a != b ==> objs[a] != objs[b]
        decreases |todo|
      {
        var id :| id in todo;
        todo := todo - {id};
        if IsId(id) {
          var obj := ImportObject(datas[id]);
          if obj.None? {
            return false;
          }
          objs := objs[id := obj.value];
        }
      }
      ok := true;
    }

    /** The second loop: objects of the classes that are left out are forgotten. */
    method Forget(skipped: set<string>)
      modifies this
      ensures objs == map id | id in old(objs) && old(objs)[id].cls !in skipped :: old(objs)[id]
    {
      var items := objs;
      var todo := items.Keys;
      while todo != {}
        invariant todo <= items.Keys
        invariant objs == map id | id in items && (id in todo || items[id].cls !in skipped) :: items[id]
        decreases |todo|
      {
        var k :| k in todo;
        todo := todo - {k};
        if items[k].cls in skipped {
          objs := objs - {k};
        }
      }
    }

    /** The third loop: the relationships are set. */
    method Connect(datas: Dump, skipped: set<string>)
      requires HasEntries(datas) && Built(schema, datas, skipped, objs)
      requires forall id :: id in objs ==> objs[id].links == map[]
      modifies objs.Values
      ensures Connected(schema, datas, objs)
    {
      hide Built, HasEntries, Connecting;
      BuiltApart(schema, datas, skipped, objs);
      NothingConnected(schema, datas, objs);
      var todo := objs.Keys;
      while todo != {}
        invariant todo <= objs.Keys && Connecting(schema, datas, objs, todo)
        decreases |todo|
      {
        var id :| id in todo;
        ConnectOne(datas, id, todo);
        todo := todo - {id};
      }
      AllConnected(schema, datas, objs);
    }

    method ConnectOne(datas: Dump, id: string, ghost todo: set<string>)
      requires id in todo && id in objs && Connecting(schema, datas, objs, todo)
      requires forall a, b :: a in objs && b in objs && a != b ==> objs[a] != objs[b]
      modifies objs[id]
      ensures Connecting(schema, datas, objs, todo - {id})
    {
      hide LinksNamed;
      AddRelationships(datas[id], objs[id]);
      assert map[] + LinksOf(schema, datas[id], objs) == LinksOf(schema, datas[id], objs);
    }

    /** The updaters between the version of the dump and the current one. */
    method Update(updater: Updater, datas: Dump) returns (r: Option<Dump>)
      requires VersionOf(datas) <= MODEL_VERSION
      ensures r == Current(updater, datas)
    {
      var first := VersionOf(datas);
      var current := datas;
      for version := first to MODEL_VERSION
        invariant Updated(updater, datas, first, version) == Some(current)
      {
        var next := updater(version + 1, current);
        if next.None? {
          UpdateEnds(updater, datas, first, version + 1, MODEL_VERSION);
          return None;
        }
        current := next.value["_version" := Version(version + 1)];
      }
      r := Some(current);
    }

    /** do_import: refuses a newer version, updates an older one, and fails exactly if that
        fails or some object cannot be built. */
    method DoImport(updater: Updater, datas: Dump, skipped: set<string>) returns (ok: bool)
      requires Current(updater, datas).Some? ==> HasEntries(Current(updater, datas).value)
      modifies this
      ensures ok <==>
        var u := Current(updater, datas);
        u.Some? && forall id :: id in u.value && IsId(id) ==> Decodable(schema, u.value[id])
      ensures ok ==>
        var u := Current(updater, datas).value;
        Built(schema, u, skipped, objs) && Connected(schema, u, objs) && forall id :: id in objs ==> fresh(objs[id])
    {
      hide Updated, Decodable, Connected;
      if VersionOf(datas) > MODEL_VERSION {
        return false;
      }
      var current := Update(updater, datas);
      if current.None? {
        return false;
      }
      ok := ImportObjects(current.value);
      if ok {
        Forget(skipped);
        Connect(current.value, skipped);
      }
    }
  }

  lemma {:induction false} UpdateEnds(updater: Updater, datas: Dump, first: int, failed: int, version: int)
    requires first <= failed <= version && Updated(updater, datas, first, failed).None?
    ensures Updated(updater, datas, first, version).None?
    decreases version - first
  {
    if failed < version {
      UpdateEnds(updater, datas, first, failed, version - 1);
    }
  }

  ghost predicate BuiltFrom(schema: Schema, e: Item, obj: Entity) {
    e.Entry? && Decodable(schema, e) && obj.cls == e.cls && obj.columns == ColumnsOf(schema, e)
  }

  /** One object for every id that is not left out, all different. */
  ghost predicate Built(schema: Schema, datas: Dump, skipped: set<string>, objs: map<string, Entity>) {
    && (forall id :: id in objs <==> id in datas && IsId(id) && datas[id].Entry? && datas[id].cls !in skipped)
    && (forall id :: id in objs ==> BuiltFrom(schema, datas[id], objs[id]))
    && (forall a, b :: a in objs && b in objs && a != b ==> objs[a] != objs[b])
  }

  ghost predicate Connected(schema: Schema, datas: Dump, objs: map<string, Entity>)
    reads objs.Values
  {
    forall id :: id in objs ==>
      id in datas && datas[id].Entry? && datas[id].cls in schema && objs[id].links == LinksOf(schema, datas[id], objs)
  }

  /** The relationships are set except those of the objects in `todo`. */
  ghost predicate Connecting(schema: Schema, datas: Dump, objs: map<string, Entity>, todo: set<string>)
    reads objs.Values
  {
    forall id :: id in objs ==>
      && id in datas && datas[id].Entry? && datas[id].cls in schema
      && objs[id].links == if id in todo then map[] else LinksOf(schema, datas[id], objs)
  }

  lemma BuiltApart(schema: Schema, datas: Dump, skipped: set<string>, objs: map<string, Entity>)
    requires Built(schema, datas, skipped, objs)
    ensures forall a, b :: a in objs && b in objs && a != b ==> objs[a] != objs[b]
    ensures forall id :: id in objs ==> id in datas && datas[id].Entry? && datas[id].cls in schema
  {
    assert forall id :: id in objs ==> BuiltFrom(schema, datas[id], objs[id]);
  }

  lemma NothingConnected(schema: Schema, datas: Dump, objs: map<string, Entity>)
    requires forall id :: id in objs ==> id in datas && datas[id].Entry? && datas[id].cls in schema
    requires forall id :: id in objs ==> objs[id].links == map[]
    ensures Connecting(schema, datas, objs, objs.Keys)
  {
  }

  lemma AllConnected(schema: Schema, datas: Dump, objs: map<string, Entity>)
    requires Connecting(schema, datas, objs, {})
    ensures Connected(schema, datas, objs)
  {
  }

  // --------------------------------------------------------- the round trip

  /** A relationship whose objects are all known keeps its shape, its order and its keys. */
  lemma ThroughWhole<T(!new), U>(r: Rel<T>, f: map<T, U>)
    requires Within(r, f.Keys)
    ensures match r
            case Nothing => Through(r, f) == Nothing
            case One(x) => x in f && Through(r, f) == One(f[x])
            case Many(items) =>
              var s := Through(r, f);
              s.Many? && |s.items| == |items|
              && forall i :: 0 <= i < |items| ==> items[i] in f && s.items[i] == f[items[i]]
            case Named(entries) =>
              var s := Through(r, f);
              s.Named? && s.entries.Keys == entries.Keys &&
              forall k :: k in entries ==> entries[k] in f && s.entries[k] == f[entries[k]]
  {
    match r
    case Nothing =>
    case One(x) => assert Refers(r, x);
    case Many(items) =>
      assert forall x :: x in items ==> Refers(r, x);
      PickedWhole(items, f);
    case Named(entries) => assert forall k :: k in entries ==> Refers(r, entries[k]);
  }

  lemma {:induction false} PickedWhole<T, U>(items: seq<T>, f: map<T, U>)
    requires forall x :: x in items ==> x in f
    ensures |Picked(items, f)| == |items| && forall i :: 0 <= i < |items| ==> Picked(items, f)[i] == f[items[i]]
  {
    if items != [] {
      PickedWhole(items[..|items| - 1], f);
    }
  }

  /** What a copy of an exported object looks like. */
  ghost predicate IsCopy(skip: Skipped, n: Node, copy: Entity, copies: map<Identity, Entity>)
    reads copy
  {
    && copy.cls == n.cls && copy.columns == n.columns
    && (forall p :: p in copy.links <==> p in n.links && !skip(n.cls, p))
    && (forall p :: p in copy.links ==> copy.links[p] == Through(n.links[p], copies))
  }

  /** Exporting what can be reached from the roots and importing it again gives one object
      for every reachable one whose class is not left out, with the same columns, and with
      the same relationships between the copies. */
  ghost predicate IsReloaded(g: Graph, skip: Skipped, skipped: set<string>, roots: seq<Identity>,
        copies: map<Identity, Entity>)
    reads copies.Values
  {
    && (forall k :: k in copies <==> k in g && Reachable(g, skip, roots, k) && g[k].cls !in skipped)
    && (forall a, b :: a in copies && b in copies && a != b ==> copies[a] != copies[b])
    && (forall k :: k in copies ==> IsCopy(skip, g[k], copies[k], copies))
  }

  lemma EntryDecodes(schema: Schema, skip: Skipped, n: Node, ids: map<Identity, string>)
    requires NodeFits(schema, n) && Encodable(schema, n)
    ensures var e := EntryOf(schema, skip, n, ids); Decodable(schema, e) && ColumnsOf(schema, e) == n.columns
  {
    forall c | c in n.columns
      ensures Decode(schema[n.cls].columns[c], Encode(schema[n.cls].columns[c], n.columns[c]).value) ==
              Some(n.columns[c])
    {
      DecodeEncode(schema[n.cls].columns[c], n.columns[c]);
    }
  }

  lemma DumpIsCurrent(schema: Schema, g: Graph, skip: Skipped, roots: seq<Identity>, order: seq<Identity>,
        ids: map<Identity, string>, data: Dump)
    requires IsDump(schema, g, skip, roots, order, ids, data)
    ensures HasEntries(data) && VersionOf(data) == MODEL_VERSION
    ensures forall id :: id in data && IsId(id) ==> Decodable(schema, data[id])
    ensures forall k :: k in ids ==> IsId(ids[k]) && ids[k] in data
    ensures forall id :: id in data && IsId(id) ==> exists k :: k in ids && ids[k] == id
  {
    forall k | k in ids
      ensures IsId(ids[k]) && ids[k] in data && data[ids[k]].Entry? && Decodable(schema, data[ids[k]])
    {
      var i :| 0 <= i < |order| && order[i] == k;
      DecimalPlain(i);
      assert Entered(schema, g, skip, k, ids, ids[k], data);
      EntryDecodes(schema, skip, g[k], ids);
    }
    forall id | id in data && IsId(id)
      ensures id in ids.Values
    {
    }
  }

  lemma CopyOf(schema: Schema, g: Graph, skip: Skipped, roots: seq<Identity>, order: seq<Identity>,
        ids: map<Identity, string>, data: Dump,
               skipped: set<string>, objs: map<string, Entity>, k: Identity)
    requires Sound(schema, g) && IsDump(schema, g, skip, roots, order, ids, data)
    requires Built(schema, data, skipped, objs) && Connected(schema, data, objs) && k in ids && ids[k] in objs
    ensures k in g && IsCopy(skip, g[k], objs[ids[k]], Compose(ids, objs))
  {
    hide Encodable, Reachable, Connected, Through, Built, IsDump, Sound, Decodable;
    EnteredObject(schema, g, skip, roots, order, ids, data, k);
    var n := g[k];
    EntryDecodes(schema, skip, n, ids);
    BuiltObject(schema, data, skipped, objs, ids[k]);
    assert objs[ids[k]].links == LinksOf(schema, data[ids[k]], objs) by { ConnectedObject(schema, data, objs, ids[k]); }
    forall p | p in n.links && !skip(n.cls, p)
      ensures p in objs[ids[k]].links && objs[ids[k]].links[p] == Through(n.links[p], Compose(ids, objs))
    {
      ThroughTwice(n.links[p], ids, objs);
    }
  }

  lemma EnteredObject(schema: Schema, g: Graph, skip: Skipped, roots: seq<Identity>, order: seq<Identity>,
        ids: map<Identity, string>, data: Dump, k: Identity)
    requires IsDump(schema, g, skip, roots, order, ids, data) && k in ids
    ensures Entered(schema, g, skip, k, ids, ids[k], data)
  {
  }

  lemma BuiltObject(schema: Schema, data: Dump, skipped: set<string>, objs: map<string, Entity>, id: string)
    requires Built(schema, data, skipped, objs) && id in objs
    ensures id in data && BuiltFrom(schema, data[id], objs[id])
  {
  }

  lemma ConnectedObject(schema: Schema, data: Dump, objs: map<string, Entity>, id: string)
    requires Connected(schema, data, objs) && id in objs
    ensures id in data && data[id].Entry? && data[id].cls in schema && objs[id].links == LinksOf(schema, data[id], objs)
  {
  }

  lemma ReloadedKeys(schema: Schema, g: Graph, skip: Skipped, roots: seq<Identity>, order: seq<Identity>,
        ids: map<Identity, string>, data: Dump,
                     skipped: set<string>, objs: map<string, Entity>)
    requires IsDump(schema, g, skip, roots, order, ids, data) && Built(schema, data, skipped, objs)
    ensures forall k :: k in Compose(ids, objs) <==> k in g && Reachable(g, skip, roots, k) && g[k].cls !in skipped
  {
    hide Encodable, Reachable, LinksOf, EntryOf, BuiltFrom, Numbered;
    DumpIsCurrent(schema, g, skip, roots, order, ids, data);
    forall k | k in ids
      ensures k in g && (ids[k] in objs <==> g[k].cls !in skipped)
    {
      assert Entered(schema, g, skip, k, ids, ids[k], data);
      EntryClass(schema, skip, g[k], ids);
    }
  }

  lemma ReloadedFrom(schema: Schema, g: Graph, skip: Skipped, roots: seq<Identity>, order: seq<Identity>,
        ids: map<Identity, string>, data: Dump,
                     skipped: set<string>, objs: map<string, Entity>)
    requires Sound(schema, g) && IsDump(schema, g, skip, roots, order, ids, data)
    requires Built(schema, data, skipped, objs) && Connected(schema, data, objs)
    ensures IsReloaded(g, skip, skipped, roots, Compose(ids, objs))
  {
    hide Encodable, Reachable, Connected, IsCopy, LinksOf, EntryOf, BuiltFrom, Sound, Numbered, Entered;
    var copies := Compose(ids, objs);
    ReloadedKeys(schema, g, skip, roots, order, ids, data, skipped, objs);
    forall a, b | a in copies && b in copies && a != b
      ensures copies[a] != copies[b]
    {
      IdsDiffer(order, ids, a, b);
    }
    forall k | k in copies
      ensures IsCopy(skip, g[k], copies[k], copies)
    {
      CopyOf(schema, g, skip, roots, order, ids, data, skipped, objs, k);
    }
  }

  lemma EntryClass(schema: Schema, skip: Skipped, n: Node, ids: map<Identity, string>)
    requires NodeFits(schema, n) && Encodable(schema, n)
    ensures EntryOf(schema, skip, n, ids).Entry? && EntryOf(schema, skip, n, ids).cls == n.cls
  {
  }

  method DumpAndReload(schema: Schema, graph: Graph, skip: Skipped, skipped: set<string>, roots: seq<Identity>,
        updater: Updater)
    returns (copies: Option<map<Identity, Entity>>)
    requires Sound(schema, graph) && forall k :: k in roots ==> k in graph
    ensures copies.None? <==> exists k :: k in graph && Reachable(graph, skip, roots, k) && !Encodable(schema, graph[k])
    ensures copies.Some? ==> IsReloaded(graph, skip, skipped, roots, copies.value) && fresh(copies.value.Values)
  {
    hide IsReloaded, IsDump, Reachable, Encodable, Sound, Built, Connected, HasEntries, Decodable, Updated;
    var exporter := new DumpExporter(schema, graph, skip);
    var data := exporter.DoExport(roots);
    if data.None? {
      return None;
    }
    DumpIsCurrent(schema, graph, skip, roots, exporter.order, exporter.ids, data.value);
    var importer := new DumpImporter(schema);
    CurrentVersion(updater, data.value);
    var ok := importer.DoImport(updater, data.value, skipped);
    ReloadedFrom(schema, graph, skip, roots, exporter.order, exporter.ids, data.value, skipped, importer.objs);
    copies := Some(Compose(exporter.ids, importer.objs));
  }
}
