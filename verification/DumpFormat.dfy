/** What a dump holds: objects with columns and relationships, their JSON form, and the
    encoding of column values. */
module DumpFormat {
  import opened Basics

  // ------------------------------------------------------------ column values

  datatype Json = JNull | JText(text: string) | JNumber(number: real) | JList(items: seq<Json>)

  /** The column types: the plain ones are kept as they are, the last is one that the
      exporter does not know. */
  datatype Type = PlainType | DateTimeType | IntervalType | NetworkType | ArrayType(item: Type) | OtherType

  /** Instants and spans count microseconds; a network is given by its canonical text. */
  datatype Value =
    | Null
    | Plain(json: Json)
    | Instant(micros: int)
    | Span(micros: int)
    | Network(text: string)
    | List(items: seq<Value>)
    | Strange

  predicate HasType(t: Type, v: Value)
    decreases t
  {
    match t
    case PlainType => v.Null? || (v.Plain? && v.json != JNull)
    case DateTimeType => v.Null? || v.Instant?
    case IntervalType => v.Null? || v.Span?
    case NetworkType => v.Null? || v.Network?
    case ArrayType(item) => v.Null? || (v.List? && forall i :: 0 <= i < |v.items| ==> HasType(item, v.items[i]))
    case OtherType => v.Null? || v.Strange?
  }

  function Seconds(micros: int): real { micros as real / 1000000.0 }

  function Micros(seconds: real): int { (seconds * 1000000.0 + 0.5).Floor }

  /** encode_value; None when the type is not known. */
  function Encode(t: Type, v: Value): Option<Json>
    requires HasType(t, v)
    decreases t, 0
  {
    if v.Null? then Some(JNull)
    else
      match t
      case PlainType => Some(v.json)
      case DateTimeType => Some(JNumber(Seconds(v.micros)))
      case IntervalType => Some(JNumber(Seconds(v.micros)))
      case NetworkType => Some(JText(v.text))
      case ArrayType(item) =>
        (match EncodeAll(item, v.items) case None => None case Some(js) => Some(JList(js)))
      case OtherType => None
  }

  function EncodeAll(t: Type, vs: seq<Value>): Option<seq<Json>>
    requires forall i :: 0 <= i < |vs| ==> HasType(t, vs[i])
    decreases t, |vs| + 1
  {
    if vs == [] then Some([])
    else
      match Encode(t, vs[0])
      case None => None
      case Some(j) => match EncodeAll(t, vs[1..]) case None => None case Some(js) => Some([j] + js)
  }

  /** decode_value; None when the type is not known or the value has another shape. */
  function Decode(t: Type, j: Json): Option<Value>
    decreases t, 0
  {
    if j.JNull? then Some(Null)
    else
      match t
      case PlainType => Some(Plain(j))
      case DateTimeType => if j.JNumber? then Some(Instant(Micros(j.number))) else None
      case IntervalType => if j.JNumber? then Some(Span(Micros(j.number))) else None
      case NetworkType => if j.JText? then Some(Network(j.text)) else None
      case ArrayType(item) =>
        if !j.JList? then None
        else (match DecodeAll(item, j.items) case None => None case Some(vs) => Some(List(vs)))
      case OtherType => None
  }

  function DecodeAll(t: Type, js: seq<Json>): Option<seq<Value>>
    decreases t, |js| + 1
  {
    if js == [] then Some([])
    else
      match Decode(t, js[0])
      case None => None
      case Some(v) => match DecodeAll(t, js[1..]) case None => None case Some(vs) => Some([v] + vs)
  }

  lemma MicrosOfSeconds(micros: int)
    ensures Micros(Seconds(micros)) == micros
  {
    assert Seconds(micros) * 1000000.0 == micros as real;
  }

  /** Decoding undoes encoding, through arrays of any depth. */
  lemma {:induction false} DecodeEncode(t: Type, v: Value)
    requires HasType(t, v) && Encode(t, v).Some?
    ensures Decode(t, Encode(t, v).value) == Some(v)
    decreases t, 0
  {
    match v
    case Null =>
    case Plain(_) =>
    case Instant(micros) => MicrosOfSeconds(micros);
    case Span(micros) => MicrosOfSeconds(micros);
    case Network(_) =>
    case List(items) => DecodeEncodeAll(t.item, items);
    case Strange =>
  }

  lemma {:induction false} DecodeEncodeAll(t: Type, vs: seq<Value>)
    requires (forall i :: 0 <= i < |vs| ==> HasType(t, vs[i])) && EncodeAll(t, vs).Some?
    ensures DecodeAll(t, EncodeAll(t, vs).value) == Some(vs)
    decreases t, |vs| + 1
  {
    if vs != [] {
      DecodeEncode(t, vs[0]);
      DecodeEncodeAll(t, vs[1..]);
      var js := EncodeAll(t, vs).value;
      assert js[1..] == EncodeAll(t, vs[1..]).value;
      assert vs == [vs[0]] + vs[1..];
    }
  }

  /** Something of a type that is not known, at any depth. */
  predicate Holds(v: Value) {
    v.Strange? || (v.List? && exists i :: 0 <= i < |v.items| && Holds(v.items[i]))
  }

  /** Encoding fails exactly on values of an unknown type. */
  lemma {:induction false} EncodeFails(t: Type, v: Value)
    requires HasType(t, v)
    ensures Encode(t, v).None? <==> Holds(v)
    decreases t, 0
  {
    if v.List? {
      EncodeAllFails(t.item, v.items);
    }
  }

  lemma {:induction false} EncodeAllFails(t: Type, vs: seq<Value>)
    requires forall i :: 0 <= i < |vs| ==> HasType(t, vs[i])
    ensures EncodeAll(t, vs).None? <==> exists i :: 0 <= i < |vs| && Holds(vs[i])
    decreases t, |vs| + 1
  {
    if vs != [] {
      EncodeFails(t, vs[0]);
      EncodeAllFails(t, vs[1..]);
      if i :| 0 <= i < |vs| && Holds(vs[i]) {
        assert i > 0 ==> vs[1..][i - 1] == vs[i];
      }
    }
  }

  // ------------------------------------------------------------ relationships

  /** The value of a relationship: nothing, one object, a list or a dictionary of objects. */
  datatype Rel<T> = Nothing | One(target: T) | Many(items: seq<T>) | Named(entries: map<string, T>)

  ghost predicate Refers<T>(r: Rel<T>, x: T) {
    match r
    case Nothing => false
    case One(y) => x == y
    case Many(items) => x in items
    case Named(entries) => x in entries.Values
  }

  ghost predicate Within<T(!new)>(r: Rel<T>, xs: set<T>) {
    forall x :: Refers(r, x) ==> x in xs
  }

  /** The relationship with every object replaced; what the map does not know is dropped. */
  function Through<T, U>(r: Rel<T>, f: map<T, U>): Rel<U> {
    match r
    case Nothing => Nothing
    case One(x) => if x in f then One(f[x]) else Nothing
    case Many(items) => Many(Picked(items, f))
    case Named(entries) => Named(map k | k in entries && entries[k] in f :: f[entries[k]])
  }

  function Picked<T, U>(items: seq<T>, f: map<T, U>): seq<U> {
    if items == [] then []
    else Picked(items[..|items| - 1], f) + if items[|items| - 1] in f then [f[items[|items| - 1]]] else []
  }

  lemma {:induction false} PickedSame<T, U>(items: seq<T>, f: map<T, U>, g: map<T, U>)
    requires forall x :: x in items ==> (x in f <==> x in g) && (x in f ==> f[x] == g[x])
    ensures Picked(items, f) == Picked(items, g)
  {
    if items != [] {
      PickedSame(items[..|items| - 1], f, g);
    }
  }

  lemma ThroughSame<T, U>(r: Rel<T>, f: map<T, U>, g: map<T, U>)
    requires forall x :: Refers(r, x) ==> (x in f <==> x in g) && (x in f ==> f[x] == g[x])
    ensures Through(r, f) == Through(r, g)
  {
    match r
    case Nothing =>
    case One(x) => assert Refers(r, x);
    case Many(items) =>
      assert forall x :: x in items ==> Refers(r, x);
      PickedSame(items, f, g);
    case Named(entries) =>
      assert forall k :: k in entries ==> Refers(r, entries[k]);
  }

  function Compose<T, U, V>(f: map<T, U>, g: map<U, V>): map<T, V> {
    map x | x in f && f[x] in g :: g[f[x]]
  }

  /** Replacing twice is replacing once by the composition. */
  lemma {:induction false} PickedTwice<T, U, V>(items: seq<T>, f: map<T, U>, g: map<U, V>)
    ensures Picked(Picked(items, f), g) == Picked(items, Compose(f, g))
  {
    if items != [] {
      var prior := items[..|items| - 1];
      PickedTwice(prior, f, g);
      var x := items[|items| - 1];
      if x in f {
        assert Picked(items, f)[..|Picked(items, f)| - 1] == Picked(prior, f);
      } else {
        assert Picked(items, f) == Picked(prior, f);
      }
    }
  }

  lemma ThroughTwice<T, U, V>(r: Rel<T>, f: map<T, U>, g: map<U, V>)
    ensures Through(Through(r, f), g) == Through(r, Compose(f, g))
  {
    if r.Many? {
      PickedTwice(r.items, f, g);
    }
  }

  // ------------------------------------------------------------------- graphs

  /** A class and a primary key identify an object. */
  type Identity = (string, int)

  datatype Class = Class(columns: map<string, Type>, relations: set<string>)

  type Schema = map<string, Class>

  datatype Node = Node(cls: string, columns: map<string, Value>, links: map<string, Rel<Identity>>)

  type Graph = map<Identity, Node>

  ghost predicate NodeFits(schema: Schema, n: Node) {
    && n.cls in schema && n.columns.Keys == schema[n.cls].columns.Keys && n.links.Keys == schema[n.cls].relations
    && forall c :: c in n.columns ==> HasType(schema[n.cls].columns[c], n.columns[c])
  }

  /** Every object fits its class and refers to objects of the graph. */
  ghost predicate Sound(schema: Schema, g: Graph) {
    && (forall k :: k in g ==> NodeFits(schema, g[k]))
    && (forall k, p :: k in g && p in g[k].links ==> Within(g[k].links[p], g.Keys))
  }

  /** The relationships that the options leave out, by class and name. */
  type Skipped = (string, string) -> bool

  ghost predicate Link(g: Graph, skip: Skipped, a: Identity, b: Identity) {
    a in g && exists p :: p in g[a].links && !skip(g[a].cls, p) && Refers(g[a].links[p], b)
  }

  ghost predicate IsWalk(g: Graph, skip: Skipped, walk: seq<Identity>) {
    walk != [] && forall i :: 0 <= i < |walk| - 1 ==> Link(g, skip, walk[i], walk[i + 1])
  }

  /** Reachable from the roots along relationships that are not left out. */
  ghost predicate Reachable(g: Graph, skip: Skipped, roots: seq<Identity>, k: Identity) {
    exists walk :: IsWalk(g, skip, walk) && walk[0] in roots && walk[|walk| - 1] == k
  }

  lemma ReachableRoot(g: Graph, skip: Skipped, roots: seq<Identity>, k: Identity)
    requires k in roots
    ensures Reachable(g, skip, roots, k)
  {
    assert IsWalk(g, skip, [k]);
  }

  lemma ReachableNext(g: Graph, skip: Skipped, roots: seq<Identity>, a: Identity, b: Identity)
    requires Reachable(g, skip, roots, a) && Link(g, skip, a, b)
    ensures Reachable(g, skip, roots, b)
  {
    var walk :| IsWalk(g, skip, walk) && walk[0] in roots && walk[|walk| - 1] == a;
    assert IsWalk(g, skip, walk + [b]);
  }

  /** A set that holds the roots and is closed under links holds all that is reachable. */
  lemma {:induction false} ClosedHoldsReachable(g: Graph, skip: Skipped, roots: seq<Identity>, held: set<Identity>,
        walk: seq<Identity>)
    requires (forall k :: k in roots ==> k in held) && forall a, b :: a in held && Link(g, skip, a, b) ==> b in held
    requires IsWalk(g, skip, walk) && walk[0] in roots
    ensures walk[|walk| - 1] in held
  {
    if |walk| > 1 {
      var prior := walk[..|walk| - 1];
      assert IsWalk(g, skip, prior) by {
        forall i | 0 <= i < |prior| - 1
          ensures Link(g, skip, prior[i], prior[i + 1])
        {
          assert Link(g, skip, walk[i], walk[i + 1]);
        }
      }
      ClosedHoldsReachable(g, skip, roots, held, prior);
      assert Link(g, skip, walk[|walk| - 2], walk[|walk| - 1]);
    }
  }

  // ------------------------------------------------------------------ the file

  /** What the top level of the file maps a key to. */
  datatype Item =
    | Roots(ids: seq<string>)
    | Version(number: int)
    | Entry(cls: string, columns: map<string, Json>, links: map<string, Rel<string>>)

  type Dump = map<string, Item>

  const MODEL_VERSION := 44
}
