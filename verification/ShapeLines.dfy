/** The lines that show a shape, and what they can and cannot tell: shapeLines
    and describe of packages/agent/ctlshape.go. */
module ShapeLines {
  import opened Text
  import opened Json
  import opened Sorting
  import opened Shape

  // Printing

  /** What is printed for one path. */
  function Describe(s: Stats): string {
    Join(SortedSet(s.kinds), '|') + (Sizes(s) + Times(s.n))
  }

  function Sizes(s: Stats): string {
    if s.sized == 0 then ""
    else if s.minSize == s.maxSize then "(" + (Decimal(s.maxSize) + ")")
    else "(" + (Decimal(s.minSize) + (".." + (Decimal(s.maxSize) + (", avg " + (Decimal(s.total / s.sized) + ")")))))
  }

  function Times(n: nat): string {
    if n > 1 then " \U{D7}" + Decimal(n) else ""
  }

  /** The longest path, in bytes. */
  function Width(paths: seq<string>): nat {
    if paths == [] then 0
    else
      var w := Width(paths[..|paths| - 1]);
      var k := Bytes(paths[|paths| - 1]);
      if k > w then k else w
  }

  function Spaces(k: nat): string {
    if k == 0 then "" else Spaces(k - 1) + " "
  }

  function Pad(path: string, width: nat): string {
    if |path| < width then path + Spaces(width - |path|) else path
  }

  /** The line for a path. */
  function Row(kept: Kept, width: nat): string -> string {
    (path: string) => Pad(path, width) + "  " + Describe(StatsAt(kept, path))
  }

  function Lines(kept: Kept): seq<string> {
    var paths := SortedSet(kept.Keys);
    Image(Row(kept, Width(paths)), paths)
  }

  /** What a reply shows: a function of what a walk sees, in any order. */
  ghost function Shown(v: Json): seq<string> {
    Lines(RecordAll(map[], SeenIn("", v)))
  }

  /** The keys of a map, ranged over in any order, then sorted. */
  method SortKeys(keys: set<string>) returns (paths: seq<string>)
    ensures paths == SortedSet(keys)
  {
    var left := keys;
    paths := [];
    while left != {}
      invariant left <= keys && NoDuplicates(paths)
      invariant forall p :: p in paths <==> p in keys - left
      decreases left
    {
      var p :| p in left;
      SnocNoDuplicates(paths, p);
      paths, left := paths + [p], left - {p};
    }
    SortCollected(paths, keys);
    paths := Sort(paths);
  }

  method MeasurePaths(paths: seq<string>) returns (width: nat)
    ensures width == Width(paths)
  {
    width := 0;
    for i := 0 to |paths|
      invariant width == Width(paths[..i])
    {
      assert paths[..i + 1][..i] == paths[..i];
      if Bytes(paths[i]) > width {
        width := Bytes(paths[i]);
      }
    }
    assert paths[..|paths|] == paths;
  }

  method PrintPaths(acc: Accumulator, paths: seq<string>, width: nat) returns (out: seq<string>)
    requires forall p | p in paths :: p in acc.nodes
    ensures out == Image(Row(acc.View(), width), paths)
  {
    out := [];
    for i := 0 to |paths|
      invariant out == Image(Row(acc.View(), width), paths[..i])
    {
      assert paths[i] in paths;
      var node := acc.nodes[paths[i]];
      var s := Stats(node.kinds, node.n, node.minSize, node.maxSize, node.total, node.sized);
      assert s == StatsAt(acc.View(), paths[i]);
      RowMore(Row(acc.View(), width), paths, i);
      out := out + [Pad(paths[i], width) + "  " + Describe(s)];
    }
    assert paths[..|paths|] == paths;
  }

  lemma RowMore(row: string -> string, paths: seq<string>, i: nat)
    requires i < |paths|
    ensures Image(row, paths[..i + 1]) == Image(row, paths[..i]) + [row(paths[i])]
  {
  }

  method PrintAll(acc: Accumulator, ghost kept: Kept) returns (out: seq<string>)
    requires acc.View() == kept
    ensures out == Lines(kept)
  {
    assert kept.Keys == acc.nodes.Keys;
    var paths := SortKeys(acc.nodes.Keys);
    var width := MeasurePaths(paths);
    out := PrintPaths(acc, paths, width);
  }

  method GatherShape(v: Json) returns (acc: Accumulator)
    ensures fresh(acc) && acc.View() == RecordAll(map[], SeenIn("", v))
  {
    acc := new Accumulator();
    ghost var start := acc.View();
    WalkShape("", v, acc);
    assert start == map[];
  }

  lemma ShownIs(v: Json, kept: Kept)
    requires kept == RecordAll(map[], SeenIn("", v))
    ensures Shown(v) == Lines(kept)
  {
  }

  method ShowShape(v: Json) returns (out: seq<string>)
    ensures out == Shown(v)
  {
    var acc := GatherShape(v);
    ghost var kept := acc.View();
    ShownIs(v, kept);
    out := PrintAll(acc, kept);
  }

  // Non-interference

  /** Equal up to numbers, booleans, and the contents of strings of one length. */
  ghost predicate SameShape(a: Json, b: Json)
    decreases a
  {
    match a
    case Null => b.Null?
    case Bool(_) => b.Bool?
    case Num(_) => b.Num?
    case Str(text) => b.Str? && Bytes(text) == Bytes(b.text)
    case Arr(items) => b.Arr? && |items| == |b.items| && forall i | 0 <= i < |items| :: SameShape(items[i], b.items[i])
    case Obj(fields) => b.Obj? && fields.Keys == b.fields.Keys && forall k | k in fields :: SameShape(fields[k], b.fields[k])
  }

  lemma {:induction false} SameSeen(path: string, a: Json, b: Json)
    requires SameShape(a, b)
    ensures SeenIn(path, a) == SeenIn(path, b)
    decreases a
  {
    match a
    case Arr(items) =>
      SameSeenItems(ItemPath(path), a, items, b.items);
    case Obj(fields) =>
      SameSeenFields(path, a, b, fields.Keys);
      assert |fields| == |fields.Keys| == |b.fields.Keys| == |b.fields|;
    case _ =>
  }

  lemma {:induction false} SameSeenItems(path: string, whole: Json, xs: seq<Json>, ys: seq<Json>)
    requires |xs| == |ys| && forall i | 0 <= i < |xs| :: xs[i] < whole && SameShape(xs[i], ys[i])
    ensures SeenInItems(path, xs) == SeenInItems(path, ys)
    decreases whole, |xs|
  {
    if xs != [] {
      SameSeen(path, xs[0], ys[0]);
      SameSeenItems(path, whole, xs[1..], ys[1..]);
    }
  }

  lemma {:induction false} SameSeenFields(path: string, a: Json, b: Json, keys: set<string>)
    requires a.Obj? && b.Obj? && keys <= a.fields.Keys && keys <= b.fields.Keys
    requires forall k | k in keys :: SameShape(a.fields[k], b.fields[k])
    ensures SeenInFields(path, a, keys) == SeenInFields(path, b, keys)
    decreases a, |keys|
  {
    if keys != {} {
      var k :| k in keys;
      SeenInFieldsAdd(path, a, keys, k);
      SeenInFieldsAdd(path, b, keys, k);
      SameSeen(FieldPath(path, k), a.fields[k], b.fields[k]);
      SameSeenFields(path, a, b, keys - {k});
    }
  }

  /** Two replies of the same shape show the same lines: no number, no boolean
      and nothing of a string but its length reaches the output. */
  lemma ShapeHidesValues(a: Json, b: Json)
    requires SameShape(a, b)
    ensures Shown(a) == Shown(b)
  {
    SameSeen("", a, b);
  }

  // What the statistics of a path say

  predicate Holds(seen: multiset<Seen>, path: string, kind: string) {
    exists o :: o in seen && o.path == path && o.kind == kind
  }

  ghost predicate SizeAt(seen: multiset<Seen>, path: string, k: nat) {
    exists o :: o in seen && o.path == path && o.size == Size(k)
  }

  /** The sum of a weight over everything seen. */
  ghost function Weigh(seen: multiset<Seen>, weight: Seen -> nat): nat
    decreases |seen|
  {
    if seen == multiset{} then 0
    else
      var o :| o in seen;
      weight(o) + Weigh(seen - multiset{o}, weight)
  }

  lemma {:induction false} WeighTake(seen: multiset<Seen>, weight: Seen -> nat, o: Seen)
    requires o in seen
    ensures Weigh(seen, weight) == weight(o) + Weigh(seen - multiset{o}, weight)
    decreases |seen|
  {
    var p :| p in seen && Weigh(seen, weight) == weight(p) + Weigh(seen - multiset{p}, weight);
    if p != o {
      assert seen - multiset{p} - multiset{o} == seen - multiset{o} - multiset{p};
      WeighTake(seen - multiset{p}, weight, o);
      WeighTake(seen - multiset{o}, weight, p);
    }
  }

  lemma WeighAdd(seen: multiset<Seen>, weight: Seen -> nat, o: Seen)
    ensures Weigh(seen + multiset{o}, weight) == weight(o) + Weigh(seen, weight)
  {
    WeighTake(seen + multiset{o}, weight, o);
    assert seen + multiset{o} - multiset{o} == seen;
  }

  lemma {:induction false} WeighNothing(seen: multiset<Seen>, weight: Seen -> nat)
    requires forall o | o in seen :: weight(o) == 0
    ensures Weigh(seen, weight) == 0
    decreases |seen|
  {
    if seen != multiset{} {
      var o :| o in seen;
      WeighTake(seen, weight, o);
      WeighNothing(seen - multiset{o}, weight);
    }
  }

  function IsAt(path: string): Seen -> nat {
    (o: Seen) => if o.path == path then 1 else 0
  }

  function IsSizedAt(path: string): Seen -> nat {
    (o: Seen) => if o.path == path && o.size.Size? then 1 else 0
  }

  function SizeOf(path: string): Seen -> nat {
    (o: Seen) => if o.path == path && o.size.Size? then o.size.size else 0
  }

  /** The counts are those of what was seen at the path, and the total the sum of
      its sizes, so that their quotient is the average. */
  ghost predicate Counted(s: Stats, seen: multiset<Seen>, path: string) {
    s.n == Weigh(seen, IsAt(path)) && s.sized == Weigh(seen, IsSizedAt(path)) && s.total == Weigh(seen, SizeOf(path))
  }

  lemma CountedMore(s: Stats, seen: multiset<Seen>, o: Seen, path: string)
    requires Counted(s, seen, path)
    ensures Counted(if o.path == path then Note(s, o.kind, o.size) else s, seen + multiset{o}, path)
  {
    WeighAdd(seen, IsAt(path), o);
    WeighAdd(seen, IsSizedAt(path), o);
    WeighAdd(seen, SizeOf(path), o);
  }

  lemma NothingCounted(seen: multiset<Seen>, path: string)
    requires forall o | o in seen :: o.path != path
    ensures Counted(NOTHING, seen, path)
  {
    WeighNothing(seen, IsAt(path));
    WeighNothing(seen, IsSizedAt(path));
    WeighNothing(seen, SizeOf(path));
  }

  /** The kinds are those seen at the path; the least and greatest size are
      sizes seen there, and bound every other and their average. */
  ghost predicate Exact(s: Stats, seen: multiset<Seen>, path: string) {
    (forall kind :: kind in s.kinds <==> Holds(seen, path, kind)) &&
    (s.sized > 0 <==> exists k: nat :: SizeAt(seen, path, k)) &&
    (forall k: nat | SizeAt(seen, path, k) :: s.minSize <= k <= s.maxSize) &&
    (s.sized > 0 ==> SizeAt(seen, path, s.minSize) && SizeAt(seen, path, s.maxSize)) &&
    (s.sized > 0 ==> s.minSize <= s.total / s.sized <= s.maxSize)
  }

  predicate Bounded(s: Stats) {
    s.minSize * s.sized <= s.total <= s.maxSize * s.sized && (s.sized == 0 ==> s.maxSize == 0)
  }

  /** A size more keeps the bounds. */
  lemma OneSizeMore(low: nat, high: nat, newLow: nat, newHigh: nat, k: nat, total: nat, size: nat)
    requires low * k <= total <= high * k && (k > 0 ==> newLow <= low) && newLow <= size
    requires high <= newHigh && size <= newHigh
    ensures newLow * (k + 1) <= total + size <= newHigh * (k + 1)
  {
    MulOrder(newLow, low, k);
    MulOrder(high, newHigh, k);
    Distribute(newLow, k);
    Distribute(newHigh, k);
  }

  lemma Distribute(a: nat, k: nat)
    ensures a * (k + 1) == a * k + a
  {
  }

  lemma NoteBounded(s: Stats, kind: string, size: Size)
    requires Bounded(s)
    ensures Bounded(Note(s, kind, size))
  {
    if size.Size? {
      var t := Note(s, kind, size);
      OneSizeMore(s.minSize, s.maxSize, t.minSize, t.maxSize, s.sized, s.total, size.size);
    }
  }

  lemma MulOrder(a: nat, b: nat, k: nat)
    ensures a <= b ==> a * k <= b * k
  {
  }

  lemma AverageBetween(s: Stats)
    requires Bounded(s) && s.sized > 0
    ensures s.minSize <= s.total / s.sized <= s.maxSize
  {
    var q: nat := s.total / s.sized;
    assert q * s.sized <= s.total < (q + 1) * s.sized;
    MulOrder(q + 1, s.minSize, s.sized);
    MulOrder(s.maxSize + 1, q, s.sized);
    assert (s.maxSize + 1) * s.sized == s.maxSize * s.sized + s.sized;
  }

  ghost predicate AllExact(kept: Kept, seen: multiset<Seen>) {
    (forall p :: p in kept <==> exists o :: o in seen && o.path == p) &&
    forall p | p in kept :: Bounded(kept[p]) && Exact(kept[p], seen, p) && Counted(kept[p], seen, p)
  }

  lemma AnExtraKind(seen: multiset<Seen>, o: Seen, path: string, kind: string)
    ensures Holds(seen + multiset{o}, path, kind) <==> Holds(seen, path, kind) || (o.path == path && o.kind == kind)
  {
    if Holds(seen, path, kind) {
      var x :| x in seen && x.path == path && x.kind == kind;
      assert x in seen + multiset{o};
    }
    assert o in seen + multiset{o};
  }

  lemma AnExtraSize(seen: multiset<Seen>, o: Seen, path: string, k: nat)
    ensures SizeAt(seen + multiset{o}, path, k) <==> SizeAt(seen, path, k) || (o.path == path && o.size == Size(k))
  {
    if SizeAt(seen, path, k) {
      var x :| x in seen && x.path == path && x.size == Size(k);
      assert x in seen + multiset{o};
    }
    assert o in seen + multiset{o};
  }

  /** A path that is not the one recorded keeps its statistics. */
  lemma OtherPathExact(s: Stats, seen: multiset<Seen>, o: Seen, path: string)
    requires Exact(s, seen, path) && o.path != path
    ensures Exact(s, seen + multiset{o}, path)
  {
    forall kind ensures kind in s.kinds <==> Holds(seen + multiset{o}, path, kind) {
      AnExtraKind(seen, o, path, kind);
    }
    forall k: nat ensures SizeAt(seen + multiset{o}, path, k) <==> SizeAt(seen, path, k) {
      AnExtraSize(seen, o, path, k);
    }
  }

  lemma SamePathExact(s: Stats, seen: multiset<Seen>, o: Seen)
    requires Bounded(s) && Exact(s, seen, o.path)
    ensures Exact(Note(s, o.kind, o.size), seen + multiset{o}, o.path)
  {
    var t := Note(s, o.kind, o.size);
    NoteBounded(s, o.kind, o.size);
    forall kind ensures kind in t.kinds <==> Holds(seen + multiset{o}, o.path, kind) {
      AnExtraKind(seen, o, o.path, kind);
    }
    forall k: nat
      ensures SizeAt(seen + multiset{o}, o.path, k) <==> SizeAt(seen, o.path, k) || o.size == Size(k)
    {
      AnExtraSize(seen, o, o.path, k);
    }
    if o.size.Size? {
      assert SizeAt(seen + multiset{o}, o.path, o.size.size);
    }
    if t.sized > 0 {
      AverageBetween(t);
    }
  }

  lemma NothingExact(seen: multiset<Seen>, path: string)
    requires forall o | o in seen :: o.path != path
    ensures Exact(NOTHING, seen, path) && Bounded(NOTHING)
  {
  }

  lemma RecordExact(kept: Kept, seen: multiset<Seen>, o: Seen)
    requires AllExact(kept, seen)
    ensures AllExact(Record(kept, o), seen + multiset{o})
  {
    var s := StatsAt(kept, o.path);
    if o.path !in kept {
      NothingExact(seen, o.path);
      NothingCounted(seen, o.path);
    }
    NoteBounded(s, o.kind, o.size);
    SamePathExact(s, seen, o);
    var next, all := Record(kept, o), seen + multiset{o};
    forall p ensures p in next <==> exists x :: x in all && x.path == p {
      if p == o.path {
        assert o in all;
      } else if p in kept {
        var x :| x in seen && x.path == p;
        assert x in all;
      }
    }
    forall p | p in next ensures Bounded(next[p]) && Exact(next[p], all, p) && Counted(next[p], all, p) {
      CountedMore(if p == o.path then s else kept[p], seen, o, p);
      if p != o.path {
        OtherPathExact(kept[p], seen, o, p);
      }
    }
  }

  /** Whatever was seen, the statistics kept of it are exact, and every average
      lies between the least and the greatest size. */
  lemma {:induction false} StatsAreExact(seen: multiset<Seen>)
    ensures AllExact(RecordAll(map[], seen), seen)
    decreases |seen|
  {
    if seen != multiset{} {
      var o :| o in seen;
      var rest := seen - multiset{o};
      StatsAreExact(rest);
      RecordExact(RecordAll(map[], rest), rest, o);
      RecordBoth(map[], rest, multiset{o});
      RecordOne(RecordAll(map[], rest), o);
      assert rest + multiset{o} == seen;
    }
  }
}
