/** What the lines of a shape tell of the reply: one line for each path that an
    address spells, with the kinds, the number and the sizes of the values there. */
module ShapeTheorems {
  import opened Json
  import opened Sorting
  import opened Shape
  import opened ShapeLines
  import opened Addresses

  // What is kept of a path

  /** The sum of a weight over some addresses. */
  function Total(all: seq<Address>, weight: Address -> nat): nat {
    if all == [] then 0 else Total(all[..|all| - 1], weight) + weight(all[|all| - 1])
  }

  /** The value at an address has this path. */
  predicate Has(v: Json, a: Address, path: string) {
    ValueAt(v, a).Some? && Spell(a) == path
  }

  function One(v: Json, path: string): Address -> nat {
    (a: Address) => if Has(v, a, path) then 1 else 0
  }

  function OneSized(v: Json, path: string): Address -> nat {
    (a: Address) => if Has(v, a, path) && SizeIn(ValueAt(v, a).value).Size? then 1 else 0
  }

  function ItsSize(v: Json, path: string): Address -> nat {
    (a: Address) =>
      if Has(v, a, path) && SizeIn(ValueAt(v, a).value).Size? then SizeIn(ValueAt(v, a).value).size else 0
  }

  /** A value with this path has this size. */
  ghost predicate HasSize(v: Json, path: string, k: nat) {
    exists a :: Has(v, a, path) && SizeIn(ValueAt(v, a).value) == Size(k)
  }

  /** The statistics are those of the values with the path. */
  ghost predicate Tells(v: Json, all: seq<Address>, path: string, s: Stats) {
    (forall kind :: kind in s.kinds <==> exists a :: Has(v, a, path) && KindName(ValueAt(v, a).value) == kind) &&
    s.n == Total(all, One(v, path)) && s.sized == Total(all, OneSized(v, path)) && s.total == Total(all, ItsSize(v, path)) &&
    (forall k: nat | HasSize(v, path, k) :: s.minSize <= k <= s.maxSize) &&
    (s.sized > 0 ==> HasSize(v, path, s.minSize) && HasSize(v, path, s.maxSize))
  }

  lemma {:induction false} WeighImage(f: Address -> Seen, all: seq<Address>, weight: Seen -> nat, over: Address -> nat)
    requires forall a | a in all :: over(a) == weight(f(a))
    ensures Weigh(multiset(Image(f, all)), weight) == Total(all, over)
  {
    if all == [] {
      assert Image(f, all) == [];
    } else {
      var init, a := all[..|all| - 1], all[|all| - 1];
      assert all == init + [a];
      WeighImage(f, init, weight, over);
      ImageConcat(f, init, [a]);
      assert Image(f, [a]) == [f(a)];
      WeighAdd(multiset(Image(f, init)), weight, f(a));
    }
  }

  lemma SeenIs(v: Json, a: Address)
    requires ValueAt(v, a).Some?
    ensures SeenFrom([], v)(a) == Seen(Spell(a), KindName(ValueAt(v, a).value), SizeIn(ValueAt(v, a).value))
  {
    assert [] + a == a;
  }

  lemma ImageHolds(v: Json, all: seq<Address>, o: Seen)
    requires AreAll(v, all)
    ensures o in multiset(Image(SeenFrom([], v), all)) <==> exists a :: ValueAt(v, a).Some? && SeenFrom([], v)(a) == o
  {
    var seen := Image(SeenFrom([], v), all);
    if o in seen {
      var i :| 0 <= i < |seen| && seen[i] == o;
      assert all[i] in all && SeenFrom([], v)(all[i]) == o;
    }
    if a :| ValueAt(v, a).Some? && SeenFrom([], v)(a) == o {
      assert a in all;
      var i :| 0 <= i < |all| && all[i] == a;
      assert seen[i] == o;
    }
  }

  lemma HoldsAt(v: Json, all: seq<Address>, seen: multiset<Seen>, path: string, kind: string)
    requires AreAll(v, all) && seen == multiset(Image(SeenFrom([], v), all))
    ensures Holds(seen, path, kind) <==> exists a :: Has(v, a, path) && KindName(ValueAt(v, a).value) == kind
  {
    if o :| o in seen && o.path == path && o.kind == kind {
      ImageHolds(v, all, o);
      var a :| ValueAt(v, a).Some? && SeenFrom([], v)(a) == o;
      SeenIs(v, a);
      assert Has(v, a, path);
    }
    if a :| Has(v, a, path) && KindName(ValueAt(v, a).value) == kind {
      SeenIs(v, a);
      ImageHolds(v, all, SeenFrom([], v)(a));
    }
  }

  lemma SizesAt(v: Json, all: seq<Address>, seen: multiset<Seen>, path: string, k: nat)
    requires AreAll(v, all) && seen == multiset(Image(SeenFrom([], v), all))
    ensures SizeAt(seen, path, k) <==> HasSize(v, path, k)
  {
    if o :| o in seen && o.path == path && o.size == Size(k) {
      ImageHolds(v, all, o);
      var a :| ValueAt(v, a).Some? && SeenFrom([], v)(a) == o;
      SeenIs(v, a);
      assert Has(v, a, path);
    }
    if a :| Has(v, a, path) && SizeIn(ValueAt(v, a).value) == Size(k) {
      SeenIs(v, a);
      ImageHolds(v, all, SeenFrom([], v)(a));
    }
  }

  lemma CountsAt(v: Json, all: seq<Address>, seen: multiset<Seen>, path: string)
    requires AreAll(v, all) && seen == multiset(Image(SeenFrom([], v), all))
    ensures Weigh(seen, IsAt(path)) == Total(all, One(v, path))
    ensures Weigh(seen, IsSizedAt(path)) == Total(all, OneSized(v, path))
    ensures Weigh(seen, SizeOf(path)) == Total(all, ItsSize(v, path))
  {
    forall a | a in all ensures SeenFrom([], v)(a) == Seen(Spell(a), KindName(ValueAt(v, a).value), SizeIn(ValueAt(v, a).value)) {
      SeenIs(v, a);
    }
    WeighImage(SeenFrom([], v), all, IsAt(path), One(v, path));
    WeighImage(SeenFrom([], v), all, IsSizedAt(path), OneSized(v, path));
    WeighImage(SeenFrom([], v), all, SizeOf(path), ItsSize(v, path));
  }

  lemma StatsTell(v: Json, all: seq<Address>, seen: multiset<Seen>, path: string, s: Stats)
    requires AreAll(v, all) && seen == multiset(Image(SeenFrom([], v), all))
    requires Exact(s, seen, path) && Counted(s, seen, path)
    ensures Tells(v, all, path, s)
  {
    CountsAt(v, all, seen, path);
    forall kind ensures kind in s.kinds <==> exists a :: Has(v, a, path) && KindName(ValueAt(v, a).value) == kind {
      HoldsAt(v, all, seen, path, kind);
    }
    forall k: nat ensures SizeAt(seen, path, k) <==> HasSize(v, path, k) {
      SizesAt(v, all, seen, path, k);
    }
  }

  ghost predicate IsPath(v: Json, path: string) {
    exists a :: Has(v, a, path)
  }

  lemma PathsAreSpelled(v: Json, all: seq<Address>, seen: multiset<Seen>, path: string)
    requires AreAll(v, all) && seen == multiset(Image(SeenFrom([], v), all))
    ensures (exists o :: o in seen && o.path == path) <==> IsPath(v, path)
  {
    if o :| o in seen && o.path == path {
      HoldsAt(v, all, seen, path, o.kind);
    }
    if a :| Has(v, a, path) {
      HoldsAt(v, all, seen, path, KindName(ValueAt(v, a).value));
      var o :| o in seen && o.path == path;
    }
  }

  // The lines

  /** A path and as many blanks as the width asks, then what is told of it. */
  ghost predicate IsRow(line: string, path: string, width: nat, text: string) {
    exists pad :: line == path + pad + "  " + text && (forall i | 0 <= i < |pad| :: pad[i] == ' ') &&
      |path + pad| == if |path| < width then width else |path|
  }

  lemma {:induction false} SpacesAre(k: nat)
    ensures |Spaces(k)| == k && forall i | 0 <= i < k :: Spaces(k)[i] == ' '
  {
    if k > 0 {
      SpacesAre(k - 1);
    }
  }

  lemma PaddedIsRow(path: string, width: nat, text: string)
    ensures IsRow(Pad(path, width) + "  " + text, path, width, text)
  {
    var pad := if |path| < width then Spaces(width - |path|) else "";
    SpacesAre(|pad|);
    if |path| < width {
      SpacesAre(width - |path|);
    }
    assert path + "" == path;
    assert Pad(path, width) == path + pad;
  }

  ghost predicate AreRows(lines: seq<string>, paths: seq<string>, width: nat, stats: seq<Stats>) {
    |lines| == |paths| == |stats| && forall i | 0 <= i < |lines| :: IsRow(lines[i], paths[i], width, Describe(stats[i]))
  }

  /** The greatest of some numbers. */
  lemma OneMoreBounds(paths: seq<string>, last: string, w: nat, k: nat)
    requires (forall p | p in paths :: Bytes(p) <= w) && (paths != [] ==> exists p :: p in paths && Bytes(p) == w)
    requires k == Bytes(last) && (paths == [] ==> w == 0)
    ensures var m := if k > w then k else w;
      (forall p | p in paths + [last] :: Bytes(p) <= m) && exists p :: p in paths + [last] && Bytes(p) == m
  {
    assert last in paths + [last];
    if paths != [] {
      var p :| p in paths && Bytes(p) == w;
      assert p in paths + [last];
    }
  }

  /** The width is the length in bytes of the longest path. */
  lemma {:induction false} WidthIsLongest(paths: seq<string>)
    ensures forall p | p in paths :: Bytes(p) <= Width(paths)
    ensures paths != [] ==> exists p :: p in paths && Bytes(p) == Width(paths)
    ensures paths == [] ==> Width(paths) == 0
  {
    if paths != [] {
      var init, last := paths[..|paths| - 1], paths[|paths| - 1];
      assert paths == init + [last];
      WidthIsLongest(init);
      OneMoreBounds(init, last, Width(init), Bytes(last));
    }
  }

  lemma KeptTells(v: Json, all: seq<Address>, seen: multiset<Seen>, kept: Kept)
    requires AreAll(v, all) && seen == multiset(Image(SeenFrom([], v), all)) && AllExact(kept, seen)
    ensures forall p :: p in kept <==> IsPath(v, p)
    ensures forall p | p in kept :: Tells(v, all, p, kept[p]) && Bounded(kept[p])
  {
    forall p ensures p in kept <==> IsPath(v, p) {
      PathsAreSpelled(v, all, seen, p);
    }
    forall p | p in kept ensures Tells(v, all, p, kept[p]) {
      StatsTell(v, all, seen, p, kept[p]);
    }
  }

  lemma RootHasPath(v: Json)
    ensures IsPath(v, "")
  {
    assert Has(v, [], "");
  }

  /** The lines show the paths that the addresses of the reply spell, sorted, each
      with the statistics of the values whose addresses spell it. */
  lemma LinesTell(v: Json) returns (all: seq<Address>, paths: seq<string>, stats: seq<Stats>, width: nat)
    ensures AreAll(v, all) && Sorted(paths) && NoDuplicates(paths) && forall p :: p in paths <==> IsPath(v, p)
    ensures (forall p | p in paths :: Bytes(p) <= width) && exists p :: p in paths && Bytes(p) == width
    ensures AreRows(Shown(v), paths, width, stats)
    ensures forall i | 0 <= i < |paths| :: Tells(v, all, paths[i], stats[i]) && Bounded(stats[i])
  {
    all := AllAddresses([], v);
    var kept := RecordAll(map[], SeenIn("", v));
    StatsAreExact(SeenIn("", v));
    KeptTells(v, all, SeenIn("", v), kept);
    RootHasPath(v);
    paths, stats, width := RowsOfKept(kept);
  }

  lemma RowsAreRows(kept: Kept, paths: seq<string>, width: nat, stats: seq<Stats>)
    requires |paths| == |stats| && forall i | 0 <= i < |paths| :: stats[i] == StatsAt(kept, paths[i])
    ensures AreRows(Image(Row(kept, width), paths), paths, width, stats)
  {
    forall i | 0 <= i < |paths| ensures IsRow(Row(kept, width)(paths[i]), paths[i], width, Describe(stats[i])) {
      PaddedIsRow(paths[i], width, Describe(stats[i]));
    }
  }

  lemma RowsOfKept(kept: Kept) returns (paths: seq<string>, stats: seq<Stats>, width: nat)
    requires "" in kept
    ensures Sorted(paths) && NoDuplicates(paths) && forall p :: p in paths <==> p in kept
    ensures (forall p | p in paths :: Bytes(p) <= width) && exists p :: p in paths && Bytes(p) == width
    ensures AreRows(Lines(kept), paths, width, stats)
    ensures forall i | 0 <= i < |paths| :: paths[i] in kept && stats[i] == kept[paths[i]]
  {
    paths := SortedSet(kept.Keys);
    width := Width(paths);
    stats := seq(|paths|, i requires 0 <= i < |paths| => StatsAt(kept, paths[i]));
    assert "" in paths;
    WidthIsLongest(paths);
    RowsAreRows(kept, paths, width, stats);
    forall i | 0 <= i < |paths| ensures paths[i] in kept && stats[i] == kept[paths[i]] {
      assert paths[i] in paths;
    }
  }
}
