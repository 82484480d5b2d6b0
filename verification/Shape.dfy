/** The shape of a reply: shapeLines, walkShape and shapeNode of
    packages/agent/ctlshape.go. */
module Shape {
  import opened Json

  // What is seen of one value: its path, its kind, and its size if it has one.

  datatype Size = NoSize | Size(size: nat)

  datatype Seen = Seen(path: string, kind: string, size: Size)

  function ItemPath(path: string): string {
    path + "[]"
  }

  function FieldPath(path: string, key: string): string {
    if path == "" then key else path + "." + key
  }

  /** Everything a walk of v from path sees, each value once. */
  ghost function SeenIn(path: string, v: Json): multiset<Seen>
    decreases v
  {
    match v
    case Null => multiset{Seen(path, "null", NoSize)}
    case Bool(_) => multiset{Seen(path, "bool", NoSize)}
    case Num(_) => multiset{Seen(path, "number", NoSize)}
    case Str(text) => multiset{Seen(path, "string", Size(Bytes(text)))}
    case Arr(items) => multiset{Seen(path, "array", Size(|items|))} + SeenInItems(ItemPath(path), items)
    case Obj(fields) => multiset{Seen(path, "object", Size(|fields|))} + SeenInFields(path, v, fields.Keys)
  }

  ghost function SeenInItems(path: string, items: seq<Json>): multiset<Seen>
    decreases items
  {
    if items == [] then multiset{} else SeenIn(path, items[0]) + SeenInItems(path, items[1..])
  }

  ghost function SeenInFields(path: string, v: Json, keys: set<string>): multiset<Seen>
    requires v.Obj? && keys <= v.fields.Keys
    decreases v, keys
  {
    if keys == {} then multiset{}
    else
      var key :| key in keys;
      SeenIn(FieldPath(path, key), v.fields[key]) + SeenInFields(path, v, keys - {key})
  }

  lemma {:induction false} SeenInFieldsAdd(path: string, v: Json, keys: set<string>, key: string)
    requires v.Obj? && keys <= v.fields.Keys && key in keys
    ensures SeenInFields(path, v, keys) ==
            SeenIn(FieldPath(path, key), v.fields[key]) + SeenInFields(path, v, keys - {key})
    decreases keys
  {
    var k :| k in keys && SeenInFields(path, v, keys) ==
      SeenIn(FieldPath(path, k), v.fields[k]) + SeenInFields(path, v, keys - {k});
    if k != key {
      SeenInFieldsAdd(path, v, keys - {k}, key);
      SeenInFieldsAdd(path, v, keys - {key}, k);
      assert keys - {k} - {key} == keys - {key} - {k};
    }
  }

  // What is kept of the values at one path

  datatype Stats = Stats(kinds: set<string>, n: nat, minSize: nat, maxSize: nat, total: nat, sized: nat)

  const NOTHING := Stats({}, 0, 0, 0, 0, 0)

  function Note(s: Stats, kind: string, size: Size): Stats {
    var t := s.(kinds := s.kinds + {kind}, n := s.n + 1);
    match size
    case NoSize => t
    case Size(k) =>
      t.(minSize := if s.sized == 0 || k < s.minSize then k else s.minSize,
         maxSize := if k > s.maxSize then k else s.maxSize,
         total := s.total + k, sized := s.sized + 1)
  }

  type Kept = map<string, Stats>

  function StatsAt(kept: Kept, path: string): Stats {
    if path in kept then kept[path] else NOTHING
  }

  function Record(kept: Kept, o: Seen): Kept {
    kept[o.path := Note(StatsAt(kept, o.path), o.kind, o.size)]
  }

  lemma RecordCommutes(kept: Kept, a: Seen, b: Seen)
    ensures Record(Record(kept, a), b) == Record(Record(kept, b), a)
  {
    var s := StatsAt(kept, a.path);
    assert Note(Note(s, a.kind, a.size), b.kind, b.size) == Note(Note(s, b.kind, b.size), a.kind, a.size) by {
      assert s.kinds + {a.kind} + {b.kind} == s.kinds + {b.kind} + {a.kind};
    }
    if a.path != b.path {
      assert kept[a.path := Note(s, a.kind, a.size)][b.path := Note(StatsAt(kept, b.path), b.kind, b.size)] ==
             kept[b.path := Note(StatsAt(kept, b.path), b.kind, b.size)][a.path := Note(s, a.kind, a.size)];
    }
  }

  /** Recording everything seen, in any order. */
  ghost function RecordAll(kept: Kept, seen: multiset<Seen>): Kept
    decreases |seen|
  {
    if seen == multiset{} then kept
    else
      var o :| o in seen;
      RecordAll(Record(kept, o), seen - multiset{o})
  }

  lemma {:induction false} RecordFirst(kept: Kept, seen: multiset<Seen>, o: Seen)
    requires o in seen
    ensures RecordAll(kept, seen) == RecordAll(Record(kept, o), seen - multiset{o})
    decreases |seen|
  {
    var p :| p in seen && RecordAll(kept, seen) == RecordAll(Record(kept, p), seen - multiset{p});
    if p != o {
      assert seen - multiset{p} - multiset{o} == seen - multiset{o} - multiset{p};
      RecordFirst(Record(kept, p), seen - multiset{p}, o);
      RecordFirst(Record(kept, o), seen - multiset{o}, p);
      RecordCommutes(kept, p, o);
    }
  }

  lemma {:induction false} RecordBoth(kept: Kept, a: multiset<Seen>, b: multiset<Seen>)
    ensures RecordAll(kept, a + b) == RecordAll(RecordAll(kept, a), b)
    decreases |a|
  {
    if a == multiset{} {
      assert a + b == b;
    } else {
      var o :| o in a;
      RecordFirst(kept, a, o);
      RecordFirst(kept, a + b, o);
      assert a + b - multiset{o} == (a - multiset{o}) + b;
      RecordBoth(Record(kept, o), a - multiset{o}, b);
    }
  }

  lemma RecordOne(kept: Kept, o: Seen)
    ensures RecordAll(kept, multiset{o}) == Record(kept, o)
  {
    RecordFirst(kept, multiset{o}, o);
    assert multiset{o} - multiset{o} == multiset{};
  }

  // The accumulator

  class ShapeNode {
    var kinds: set<string>
    var n: nat
    var minSize: nat
    var maxSize: nat
    var total: nat
    var sized: nat

    constructor ()
      ensures Value() == NOTHING
    {
      kinds, n, minSize, maxSize, total, sized := {}, 0, 0, 0, 0, 0;
    }

    ghost function Value(): Stats
      reads this
    {
      Stats(kinds, n, minSize, maxSize, total, sized)
    }

    method Observe(kind: string, size: Size)
      modifies this
      ensures Value() == Note(old(Value()), kind, size)
    {
      kinds := kinds + {kind};
      n := n + 1;
      if size.NoSize? {
        return;
      }
      if sized == 0 || size.size < minSize {
        minSize := size.size;
      }
      if size.size > maxSize {
        maxSize := size.size;
      }
      total := total + size.size;
      sized := sized + 1;
    }
  }

  class Accumulator {
    var nodes: map<string, ShapeNode>

    constructor ()
      ensures Valid() && View() == map[] && nodes == map[]
    {
      nodes := map[];
    }

    /** No two paths share a node. */
    ghost predicate Valid()
      reads this
    {
      forall p, q | p in nodes && q in nodes && p != q :: nodes[p] != nodes[q]
    }

    ghost function View(): Kept
      reads this, nodes.Values
    {
      map p | p in nodes :: nodes[p].Value()
    }

    method ObserveAt(path: string, kind: string, size: Size)
      requires Valid()
      modifies this, nodes.Values
      ensures Valid() && View() == Record(old(View()), Seen(path, kind, size))
      ensures forall x | x in nodes.Values :: x in old(nodes.Values) || fresh(x)
    {
      if path !in nodes {
        var made := new ShapeNode();
        nodes := nodes[path := made];
      }
      assert View() == old(View())[path := StatsAt(old(View()), path)];
      var node := nodes[path];
      node.Observe(kind, size);
    }
  }

  /** Walks v, taking the keys of an object in any order. */
  method WalkShape(path: string, v: Json, acc: Accumulator)
    requires acc.Valid()
    modifies acc, acc.nodes.Values
    ensures acc.Valid() && acc.View() == RecordAll(old(acc.View()), SeenIn(path, v))
    ensures forall x | x in acc.nodes.Values :: x in old(acc.nodes.Values) || fresh(x)
    decreases v
  {
    match v {
      case Null =>
        acc.ObserveAt(path, "null", NoSize);
        RecordOne(old(acc.View()), Seen(path, "null", NoSize));
      case Bool(_) =>
        acc.ObserveAt(path, "bool", NoSize);
        RecordOne(old(acc.View()), Seen(path, "bool", NoSize));
      case Num(_) =>
        acc.ObserveAt(path, "number", NoSize);
        RecordOne(old(acc.View()), Seen(path, "number", NoSize));
      case Str(text) =>
        acc.ObserveAt(path, "string", Size(Bytes(text)));
        RecordOne(old(acc.View()), Seen(path, "string", Size(Bytes(text))));
      case Arr(items) =>
        acc.ObserveAt(path, "array", Size(|items|));
        RecordOne(old(acc.View()), Seen(path, "array", Size(|items|)));
        WalkItems(ItemPath(path), v, acc);
        RecordBoth(old(acc.View()), multiset{Seen(path, "array", Size(|items|))}, SeenInItems(ItemPath(path), items));
      case Obj(fields) =>
        acc.ObserveAt(path, "object", Size(|fields|));
        RecordOne(old(acc.View()), Seen(path, "object", Size(|fields|)));
        WalkFields(path, v, acc);
        RecordBoth(old(acc.View()), multiset{Seen(path, "object", Size(|fields|))}, SeenInFields(path, v, fields.Keys));
    }
  }

  method WalkItems(path: string, v: Json, acc: Accumulator)
    requires acc.Valid() && v.Arr?
    modifies acc, acc.nodes.Values
    ensures acc.Valid() && acc.View() == RecordAll(old(acc.View()), SeenInItems(path, v.items))
    ensures forall x | x in acc.nodes.Values :: x in old(acc.nodes.Values) || fresh(x)
    decreases v, 0
  {
    assert v.items[0..] == v.items;
    for i := 0 to |v.items|
      invariant acc.Valid()
      invariant RecordAll(acc.View(), SeenInItems(path, v.items[i..])) == RecordAll(old(acc.View()), SeenInItems(path, v.items))
      invariant forall x | x in acc.nodes.Values :: x in old(acc.nodes.Values) || fresh(x)
    {
      RecordBoth(acc.View(), SeenIn(path, v.items[i]), SeenInItems(path, v.items[i + 1..]));
      assert v.items[i..][0] == v.items[i] && v.items[i..][1..] == v.items[i + 1..];
      WalkShape(path, v.items[i], acc);
    }
  }

  method WalkFields(path: string, v: Json, acc: Accumulator)
    requires acc.Valid() && v.Obj?
    modifies acc, acc.nodes.Values
    ensures acc.Valid() && acc.View() == RecordAll(old(acc.View()), SeenInFields(path, v, v.fields.Keys))
    ensures forall x | x in acc.nodes.Values :: x in old(acc.nodes.Values) || fresh(x)
    decreases v, 0
  {
    var left := v.fields.Keys;
    while left != {}
      invariant left <= v.fields.Keys && acc.Valid()
      invariant RecordAll(acc.View(), SeenInFields(path, v, left)) == RecordAll(old(acc.View()), SeenInFields(path, v, v.fields.Keys))
      invariant forall x | x in acc.nodes.Values :: x in old(acc.nodes.Values) || fresh(x)
      decreases left
    {
      var key :| key in left;
      SeenInFieldsAdd(path, v, left, key);
      RecordBoth(acc.View(), SeenIn(FieldPath(path, key), v.fields[key]), SeenInFields(path, v, left - {key}));
      left := left - {key};
      WalkShape(FieldPath(path, key), v.fields[key], acc);
    }
  }
}
