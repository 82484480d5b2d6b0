/** A package with every package below it: censusTree of
    cmd/terva-apidiff/main.go, and the diff of two such trees. */
module TreeDiff {
  import opened Text
  import opened Api
  import opened Sorting
  import opened Diff

  // The tree

  /** The key of a symbol of a directory under the root. */
  function TreeKey(rel: string, key: string): string {
    rel + ['\0'] + key
  }

  function TreeSymbol(rel: string, s: Symbol): Symbol {
    if rel == "" then s else s.(name := rel + "." + s.name)
  }

  /** A file path holds no NUL. */
  ghost predicate Paths(pkgs: map<string, Symbols>) {
    forall rel | rel in pkgs :: '\0' !in rel
  }

  lemma {:induction false} TreeKeyInjective(a: string, k: string, b: string, l: string)
    requires '\0' !in a && '\0' !in b && TreeKey(a, k) == TreeKey(b, l)
    ensures a == b && k == l
  {
    SplitAtSeparator(a, k, '\0');
    SplitAtSeparator(b, l, '\0');
    assert Split(TreeKey(a, k), '\0')[0] == a && Split(TreeKey(b, l), '\0')[0] == b;
    assert k == TreeKey(a, k)[|a| + 1..];
  }

  ghost predicate HasDirectory(rel: string, syms: Symbols, tree: Symbols) {
    forall k | k in syms :: TreeKey(rel, k) in tree && tree[TreeKey(rel, k)] == TreeSymbol(rel, syms[k])
  }

  ghost predicate FromDirectory(rel: string, syms: Symbols, key: string) {
    exists k :: k in syms && key == TreeKey(rel, k)
  }

  ghost predicate FromSome(pkgs: map<string, Symbols>, key: string) {
    exists rel :: rel in pkgs && FromDirectory(rel, pkgs[rel], key)
  }

  /** What censusTree gives: each symbol under the key of its directory. */
  ghost predicate IsTree(pkgs: map<string, Symbols>, tree: Symbols) {
    (forall rel | rel in pkgs :: HasDirectory(rel, pkgs[rel], tree)) && forall key | key in tree :: FromSome(pkgs, key)
  }

  ghost predicate Extends(a: Symbols, b: Symbols) {
    forall key | key in a :: key in b && b[key] == a[key]
  }

  /** One directory of the tree. */
  method AddDirectory(rel: string, syms: Symbols, tree: Symbols) returns (out: Symbols)
    requires forall k | k in syms :: TreeKey(rel, k) !in tree
    ensures HasDirectory(rel, syms, out) && Extends(tree, out)
    ensures forall key | key in out :: key in tree || FromDirectory(rel, syms, key)
  {
    out := tree;
    var left := syms.Keys;
    while left != {}
      invariant left <= syms.Keys
      invariant forall k | k in syms && k !in left :: TreeKey(rel, k) in out && out[TreeKey(rel, k)] == TreeSymbol(rel, syms[k])
      invariant Extends(tree, out)
      invariant forall key | key in out :: key in tree || FromDirectory(rel, syms, key)
      decreases left
    {
      var k :| k in left;
      left := left - {k};
      forall l | l in syms && l != k ensures TreeKey(rel, l) != TreeKey(rel, k) {
        assert TreeKey(rel, l)[|rel| + 1..] == l && TreeKey(rel, k)[|rel| + 1..] == k;
      }
      assert FromDirectory(rel, syms, TreeKey(rel, k));
      out := out[TreeKey(rel, k) := TreeSymbol(rel, syms[k])];
    }
  }

  /** censusTree, on the censuses of the directories, in any order. */
  method CensusTree(pkgs: map<string, Symbols>) returns (tree: Symbols)
    requires Paths(pkgs)
    ensures IsTree(pkgs, tree)
  {
    tree := map[];
    var left := pkgs.Keys;
    ghost var done: map<string, Symbols> := map[];
    while left != {}
      invariant left <= pkgs.Keys && done.Keys == pkgs.Keys - left
      invariant forall rel | rel in done :: done[rel] == pkgs[rel]
      invariant IsTree(done, tree)
      decreases left
    {
      var rel :| rel in left;
      left := left - {rel};
      NotYet(done, tree, rel, pkgs[rel]);
      var before := tree;
      tree := AddDirectory(rel, pkgs[rel], before);
      TreeGrows(done, before, rel, pkgs[rel], tree);
      done := done[rel := pkgs[rel]];
    }
    assert done == pkgs;
  }

  lemma NotYet(done: map<string, Symbols>, tree: Symbols, rel: string, syms: Symbols)
    requires Paths(done) && IsTree(done, tree) && rel !in done && '\0' !in rel
    ensures forall k | k in syms :: TreeKey(rel, k) !in tree
  {
    forall k | k in syms ensures TreeKey(rel, k) !in tree {
      if TreeKey(rel, k) in tree {
        assert FromSome(done, TreeKey(rel, k));
        var a :| a in done && FromDirectory(a, done[a], TreeKey(rel, k));
        var l :| l in done[a] && TreeKey(rel, k) == TreeKey(a, l);
        TreeKeyInjective(rel, k, a, l);
      }
    }
  }

  lemma TreeGrows(done: map<string, Symbols>, before: Symbols, rel: string, syms: Symbols, tree: Symbols)
    requires IsTree(done, before) && rel !in done && HasDirectory(rel, syms, tree) && Extends(before, tree)
    requires forall key | key in tree :: key in before || FromDirectory(rel, syms, key)
    ensures IsTree(done[rel := syms], tree)
  {
    var more := done[rel := syms];
    forall key | key in tree ensures FromSome(more, key) {
      KeyHasOrigin(done, rel, syms, more, key, key in before);
    }
    forall a | a in more ensures HasDirectory(a, more[a], tree) {
      if a != rel {
        DirectoryStays(a, done[a], before, tree);
      }
    }
  }

  lemma KeyHasOrigin(done: map<string, Symbols>, rel: string, syms: Symbols, more: map<string, Symbols>, key: string, known: bool)
    requires more == done[rel := syms] && rel !in done
    requires if known then FromSome(done, key) else FromDirectory(rel, syms, key)
    ensures FromSome(more, key)
  {
    if known {
      var a :| a in done && FromDirectory(a, done[a], key);
      assert a in more && FromDirectory(a, more[a], key);
    } else {
      assert rel in more && FromDirectory(rel, more[rel], key);
    }
  }

  lemma DirectoryStays(rel: string, syms: Symbols, a: Symbols, b: Symbols)
    requires HasDirectory(rel, syms, a) && Extends(a, b)
    ensures HasDirectory(rel, syms, b)
  {
  }

  /** The census of one directory, empty when there is none. */
  function PackageOf(pkgs: map<string, Symbols>, rel: string): Symbols {
    if rel in pkgs then pkgs[rel] else map[]
  }

  lemma TreeHas(pkgs: map<string, Symbols>, tree: Symbols, rel: string, k: string)
    requires Paths(pkgs) && IsTree(pkgs, tree) && '\0' !in rel
    ensures TreeKey(rel, k) in tree <==> k in PackageOf(pkgs, rel)
    ensures k in PackageOf(pkgs, rel) ==> tree[TreeKey(rel, k)] == TreeSymbol(rel, PackageOf(pkgs, rel)[k])
  {
    if TreeKey(rel, k) in tree {
      assert FromSome(pkgs, TreeKey(rel, k));
      var a :| a in pkgs && FromDirectory(a, pkgs[a], TreeKey(rel, k));
      var l :| l in pkgs[a] && TreeKey(rel, k) == TreeKey(a, l);
      TreeKeyInjective(rel, k, a, l);
    }
    if k in PackageOf(pkgs, rel) {
      assert HasDirectory(rel, pkgs[rel], tree);
    }
  }

  /** A symbol is added, removed or changed in the tree exactly when it is in its
      own directory: what another directory holds cannot hide it. */
  lemma TreeDiffIsPerDirectory(base: map<string, Symbols>, head: map<string, Symbols>, baseTree: Symbols, headTree: Symbols, rel: string, k: string)
    requires Paths(base) && Paths(head) && IsTree(base, baseTree) && IsTree(head, headTree) && '\0' !in rel
    ensures var b, h, key := PackageOf(base, rel), PackageOf(head, rel), TreeKey(rel, k);
      (key in AddedKeys(baseTree, headTree) <==> k in AddedKeys(b, h)) &&
      (key in AddedKeys(headTree, baseTree) <==> k in AddedKeys(h, b)) &&
      (key in ChangedKeys(baseTree, headTree) <==> k in ChangedKeys(b, h))
  {
    TreeHas(base, baseTree, rel, k);
    TreeHas(head, headTree, rel, k);
  }

  /** And everything in the diff of the trees comes from a directory of one. */
  lemma TreeDiffHasDirectory(base: map<string, Symbols>, head: map<string, Symbols>, baseTree: Symbols, headTree: Symbols, key: string)
    requires Paths(base) && Paths(head) && IsTree(base, baseTree) && IsTree(head, headTree)
    requires key in baseTree || key in headTree
    ensures exists rel, k ::
      key == TreeKey(rel, k) && ((rel in base && k in base[rel]) || (rel in head && k in head[rel]))
  {
    var pkgs := if key in baseTree then base else head;
    assert FromSome(pkgs, key);
    var rel :| rel in pkgs && FromDirectory(rel, pkgs[rel], key);
    var k :| k in pkgs[rel] && key == TreeKey(rel, k);
    assert key == TreeKey(rel, k) && ((rel in base && k in base[rel]) || (rel in head && k in head[rel]));
  }

  // The reports

  /** What the lists of some directories come to, tagged with their directory. */
  function Sum<T>(tag: string -> T -> T, lists: string -> seq<T>, dirs: seq<string>): multiset<T> {
    if dirs == [] then multiset{}
    else
      var rel := dirs[|dirs| - 1];
      Sum(tag, lists, dirs[..|dirs| - 1]) + multiset(Image(tag(rel), lists(rel)))
  }

  /** The list holds what f gives at each of the keys, once. */
  ghost predicate Lists<T(!new)>(list: seq<T>, f: string -> T, keys: set<string>) {
    exists order :: Enumerates(order, keys) && multiset(list) == multiset(Image(f, order))
  }

  /** A directory's keys and what stands at them, the keys they get in the tree,
      and what stands there. */
  datatype Parts<!T> = Parts(
    keys: string -> set<string>, at: string -> string -> T, tag: string -> T -> T, key: string -> string -> string, whole: string -> T)

  ghost predicate IsKey<T>(p: Parts<T>, dirs: seq<string>, key: string) {
    exists rel, k :: rel in dirs && k in p.keys(rel) && p.key(rel)(k) == key
  }

  /** Keys of the tree do not clash, and hold what the directories hold, tagged. */
  ghost predicate Fits<T(!new)>(p: Parts<T>, dirs: seq<string>) {
    (forall a, k, b, l | a in dirs && b in dirs && p.key(a)(k) == p.key(b)(l) :: a == b && k == l) &&
    forall rel, k | rel in dirs && k in p.keys(rel) :: p.whole(p.key(rel)(k)) == p.tag(rel)(p.at(rel)(k))
  }

  lemma DirectoryKeys<T(!new)>(p: Parts<T>, dirs: seq<string>, rel: string, order: seq<string>, keys: seq<string>)
    requires Fits(p, dirs) && rel in dirs && Enumerates(order, p.keys(rel)) && keys == Image(p.key(rel), order)
    ensures NoDuplicates(keys) && forall key :: key in keys <==> exists k :: k in p.keys(rel) && p.key(rel)(k) == key
    ensures Image(p.whole, keys) == Image(p.tag(rel), Image(p.at(rel), order))
  {
    forall key ensures key in keys <==> exists k :: k in p.keys(rel) && p.key(rel)(k) == key {
      if key in keys {
        var i :| 0 <= i < |keys| && keys[i] == key;
        assert order[i] in order;
      }
      if k :| k in p.keys(rel) && p.key(rel)(k) == key {
        assert k in order;
        var i :| 0 <= i < |order| && order[i] == k;
        assert keys[i] == key;
      }
    }
    forall i | 0 <= i < |order| ensures Image(p.whole, keys)[i] == Image(p.tag(rel), Image(p.at(rel), order))[i] {
      assert order[i] in order;
    }
  }

  lemma KeysGrow<T(!new)>(p: Parts<T>, dirs: seq<string>, before: seq<string>, rel: string, order: seq<string>, keys: seq<string>)
    requires Fits(p, dirs) && dirs == before + [rel] && rel !in before
    requires NoDuplicates(order) && forall key :: key in order <==> IsKey(p, before, key)
    requires NoDuplicates(keys) && forall key :: key in keys <==> exists k :: k in p.keys(rel) && p.key(rel)(k) == key
    ensures NoDuplicates(order + keys) && forall key :: key in order + keys <==> IsKey(p, dirs, key)
  {
    forall key ensures key in order + keys <==> IsKey(p, dirs, key) {
      if IsKey(p, dirs, key) {
        var a, k :| a in dirs && k in p.keys(a) && p.key(a)(k) == key;
        assert a in before ==> IsKey(p, before, key);
      }
    }
    forall key | key in order ensures key !in keys {
      OtherDirectory(p, dirs, before, rel, key);
    }
    JoinNoDuplicates(order, keys);
  }

  lemma OtherDirectory<T(!new)>(p: Parts<T>, dirs: seq<string>, before: seq<string>, rel: string, key: string)
    requires Fits(p, dirs) && dirs == before + [rel] && rel !in before && IsKey(p, before, key)
    ensures forall k | k in p.keys(rel) :: p.key(rel)(k) != key
  {
    var a, l :| a in before && l in p.keys(a) && p.key(a)(l) == key;
    assert a in dirs && rel in dirs;
  }

  lemma JoinNoDuplicates<T>(a: seq<T>, b: seq<T>)
    requires NoDuplicates(a) && NoDuplicates(b) && forall x | x in a :: x !in b
    ensures NoDuplicates(a + b)
  {
    forall i, j | 0 <= i < j < |a + b| ensures (a + b)[i] != (a + b)[j] {
      if i < |a| <= j {
        assert a[i] in a && b[j - |a|] in b;
      }
    }
  }

  /** All the keys of the directories, listed, hold the sum of their lists. */
  lemma {:induction false} SumIsListed<T(!new)>(p: Parts<T>, lists: string -> seq<T>, dirs: seq<string>) returns (order: seq<string>)
    requires NoDuplicates(dirs) && Fits(p, dirs)
    requires forall rel | rel in dirs :: Lists(lists(rel), p.at(rel), p.keys(rel))
    ensures NoDuplicates(order) && forall key :: key in order <==> IsKey(p, dirs, key)
    ensures multiset(Image(p.whole, order)) == Sum(p.tag, lists, dirs)
  {
    if dirs == [] {
      order := [];
    } else {
      var before, rel := dirs[..|dirs| - 1], dirs[|dirs| - 1];
      assert dirs == before + [rel];
      assert rel in dirs && forall a | a in before :: a in dirs;
      order := SumIsListed(p, lists, before);
      var here :| Enumerates(here, p.keys(rel)) && multiset(lists(rel)) == multiset(Image(p.at(rel), here));
      var keys := Image(p.key(rel), here);
      DirectoryKeys(p, dirs, rel, here, keys);
      KeysGrow(p, dirs, before, rel, order, keys);
      ImageConcat(p.whole, order, keys);
      ImagePermuted(p.tag(rel), lists(rel), Image(p.at(rel), here));
      order := order + keys;
    }
  }

  /** A list of the whole tree is the sum of the lists of its directories. */
  lemma ListIsSum<T(!new)>(p: Parts<T>, lists: string -> seq<T>, dirs: seq<string>, list: seq<T>, keys: set<string>)
    requires NoDuplicates(dirs) && Fits(p, dirs)
    requires forall rel | rel in dirs :: Lists(lists(rel), p.at(rel), p.keys(rel))
    requires Lists(list, p.whole, keys) && forall key :: key in keys <==> IsKey(p, dirs, key)
    ensures multiset(list) == Sum(p.tag, lists, dirs)
  {
    var order := SumIsListed(p, lists, dirs);
    var other :| Enumerates(other, keys) && multiset(list) == multiset(Image(p.whole, other));
    EnumerationsAgree(order, other, keys);
    ImagePermuted(p.whole, order, other);
  }

  // The three lists of a report

  const NOBODY: Symbol := Symbol("", "", "", false, [])

  function Getter(syms: Symbols): string -> Symbol {
    k => if k in syms then syms[k] else NOBODY
  }

  function ChangeGetter(base: Symbols, head: Symbols): string -> Change {
    k => if k in base && k in head then ChangeAt(base, head, k) else Change(NOBODY, "", "", false)
  }

  lemma ListsByGetter(list: seq<Symbol>, syms: Symbols, keys: set<string>)
    requires keys <= syms.Keys && ListsSymbols(list, syms, keys)
    ensures Lists(list, Getter(syms), keys)
  {
    var order :| Enumerates(order, keys) && multiset(list) == multiset(SymbolsAt(syms, order));
    forall i | 0 <= i < |order| ensures SymbolsAt(syms, order)[i] == Image(Getter(syms), order)[i] {
      assert order[i] in order;
    }
    assert SymbolsAt(syms, order) == Image(Getter(syms), order);
  }

  lemma ListsByChangeGetter(list: seq<Change>, base: Symbols, head: Symbols)
    requires ListsChanges(list, base, head)
    ensures Lists(list, ChangeGetter(base, head), ChangedKeys(base, head))
  {
    var order :| Enumerates(order, ChangedKeys(base, head)) && multiset(list) == multiset(ChangesAt(base, head, order));
    forall i | 0 <= i < |order| ensures ChangesAt(base, head, order)[i] == Image(ChangeGetter(base, head), order)[i] {
      assert order[i] in order;
    }
    assert ChangesAt(base, head, order) == Image(ChangeGetter(base, head), order);
  }

  function TagSymbol(): string -> Symbol -> Symbol {
    rel => s => TreeSymbol(rel, s)
  }

  function TagChange(): string -> Change -> Change {
    rel => (c: Change) => c.(symbol := TreeSymbol(rel, c.symbol))
  }

  function KeyIn(): string -> string -> string {
    rel => k => TreeKey(rel, k)
  }

  /** The diffs of all the directories, in some order. */
  ghost predicate AllReports(base: map<string, Symbols>, head: map<string, Symbols>, reports: string -> Report, dirs: seq<string>) {
    Enumerates(dirs, base.Keys + head.Keys) &&
    forall rel | rel in dirs :: IsDiff(PackageOf(base, rel), PackageOf(head, rel), reports(rel))
  }

  ghost predicate AreTrees(base: map<string, Symbols>, head: map<string, Symbols>, baseTree: Symbols, headTree: Symbols) {
    Paths(base) && Paths(head) && IsTree(base, baseTree) && IsTree(head, headTree)
  }

  function AddedOf(reports: string -> Report): string -> seq<Symbol> {
    rel => reports(rel).added
  }

  function RemovedOf(reports: string -> Report): string -> seq<Symbol> {
    rel => reports(rel).removed
  }

  function ChangedOf(reports: string -> Report): string -> seq<Change> {
    rel => reports(rel).changed
  }

  function PartsAdded(base: map<string, Symbols>, head: map<string, Symbols>, headTree: Symbols): Parts<Symbol> {
    Parts(rel => AddedKeys(PackageOf(base, rel), PackageOf(head, rel)), rel => Getter(PackageOf(head, rel)),
      TagSymbol(), KeyIn(), Getter(headTree))
  }

  function PartsChanged(base: map<string, Symbols>, head: map<string, Symbols>, baseTree: Symbols, headTree: Symbols): Parts<Change> {
    Parts(rel => ChangedKeys(PackageOf(base, rel), PackageOf(head, rel)),
      rel => ChangeGetter(PackageOf(base, rel), PackageOf(head, rel)), TagChange(), KeyIn(), ChangeGetter(baseTree, headTree))
  }

  lemma KeysApart<T(!new)>(p: Parts<T>, dirs: seq<string>)
    requires p.key == KeyIn() && forall rel | rel in dirs :: '\0' !in rel
    ensures forall a, k, b, l | a in dirs && b in dirs && p.key(a)(k) == p.key(b)(l) :: a == b && k == l
  {
    forall a, k, b, l | a in dirs && b in dirs && p.key(a)(k) == p.key(b)(l) ensures a == b && k == l {
      assert TreeKey(a, k) == TreeKey(b, l);
      TreeKeyInjective(a, k, b, l);
    }
  }

  /** The keys that are new in the tree are those of its directories. */
  lemma AddedKeysFit(base: map<string, Symbols>, head: map<string, Symbols>, baseTree: Symbols, headTree: Symbols, dirs: seq<string>)
    requires AreTrees(base, head, baseTree, headTree) && Enumerates(dirs, base.Keys + head.Keys)
    requires forall rel | rel in dirs :: '\0' !in rel
    ensures Fits(PartsAdded(base, head, headTree), dirs)
    ensures forall key :: key in AddedKeys(baseTree, headTree) <==> IsKey(PartsAdded(base, head, headTree), dirs, key)
  {
    var p := PartsAdded(base, head, headTree);
    KeysApart(p, dirs);
    forall rel, k | rel in dirs
      ensures k in p.keys(rel) <==> p.key(rel)(k) in AddedKeys(baseTree, headTree)
      ensures k in p.keys(rel) ==> p.whole(p.key(rel)(k)) == p.tag(rel)(p.at(rel)(k))
    {
      TreeDiffIsPerDirectory(base, head, baseTree, headTree, rel, k);
      TreeHas(head, headTree, rel, k);
    }
    forall key | key in AddedKeys(baseTree, headTree) ensures IsKey(p, dirs, key) {
      var rel, k := DirectoryOf(base, head, baseTree, headTree, key);
      assert rel in dirs && p.key(rel)(k) == key;
    }
  }

  lemma DirectoryOf(base: map<string, Symbols>, head: map<string, Symbols>, baseTree: Symbols, headTree: Symbols, key: string)
      returns (rel: string, k: string)
    requires AreTrees(base, head, baseTree, headTree) && (key in baseTree || key in headTree)
    ensures (rel in base || rel in head) && key == TreeKey(rel, k)
  {
    TreeDiffHasDirectory(base, head, baseTree, headTree, key);
    rel, k :| key == TreeKey(rel, k) && ((rel in base && k in base[rel]) || (rel in head && k in head[rel]));
  }

  lemma ChangeFits(base: map<string, Symbols>, head: map<string, Symbols>, baseTree: Symbols, headTree: Symbols,
      p: Parts<Change>, rel: string, k: string)
    requires AreTrees(base, head, baseTree, headTree) && '\0' !in rel && p == PartsChanged(base, head, baseTree, headTree)
    ensures k in p.keys(rel) <==> p.key(rel)(k) in ChangedKeys(baseTree, headTree)
    ensures k in p.keys(rel) ==> p.whole(p.key(rel)(k)) == p.tag(rel)(p.at(rel)(k))
  {
    var b, h := PackageOf(base, rel), PackageOf(head, rel);
    TreeDiffIsPerDirectory(base, head, baseTree, headTree, rel, k);
    TreeHas(base, baseTree, rel, k);
    TreeHas(head, headTree, rel, k);
    assert p.keys(rel) == ChangedKeys(b, h) && p.key(rel)(k) == TreeKey(rel, k);
    if k in b && k in h {
      ChangeTagged(rel, b, h, baseTree, headTree, k, TreeKey(rel, k));
      assert p.at(rel)(k) == ChangeAt(b, h, k);
      assert p.whole(TreeKey(rel, k)) == ChangeAt(baseTree, headTree, TreeKey(rel, k));
    }
  }

  lemma ChangeTagged(rel: string, b: Symbols, h: Symbols, baseTree: Symbols, headTree: Symbols, k: string, key: string)
    requires k in b && k in h && key in baseTree && key in headTree
    requires baseTree[key] == TreeSymbol(rel, b[k]) && headTree[key] == TreeSymbol(rel, h[k])
    ensures ChangeAt(baseTree, headTree, key) == TagChange()(rel)(ChangeAt(b, h, k))
  {
  }

  lemma ChangedKeysFit(base: map<string, Symbols>, head: map<string, Symbols>, baseTree: Symbols, headTree: Symbols, dirs: seq<string>)
    requires AreTrees(base, head, baseTree, headTree) && Enumerates(dirs, base.Keys + head.Keys)
    requires forall rel | rel in dirs :: '\0' !in rel
    ensures Fits(PartsChanged(base, head, baseTree, headTree), dirs)
    ensures forall key :: key in ChangedKeys(baseTree, headTree) <==> IsKey(PartsChanged(base, head, baseTree, headTree), dirs, key)
  {
    var p := PartsChanged(base, head, baseTree, headTree);
    KeysApart(p, dirs);
    forall rel, k | rel in dirs
      ensures k in p.keys(rel) <==> p.key(rel)(k) in ChangedKeys(baseTree, headTree)
      ensures k in p.keys(rel) ==> p.whole(p.key(rel)(k)) == p.tag(rel)(p.at(rel)(k))
    {
      ChangeFits(base, head, baseTree, headTree, p, rel, k);
    }
    forall key | key in ChangedKeys(baseTree, headTree) ensures IsKey(p, dirs, key) {
      var rel, k := DirectoryOf(base, head, baseTree, headTree, key);
      assert rel in dirs && p.key(rel)(k) == key;
    }
  }

  lemma AddedIsSum(base: map<string, Symbols>, head: map<string, Symbols>, baseTree: Symbols, headTree: Symbols,
      list: seq<Symbol>, lists: string -> seq<Symbol>, dirs: seq<string>)
    requires AreTrees(base, head, baseTree, headTree) && Enumerates(dirs, base.Keys + head.Keys)
    requires ListsSymbols(list, headTree, AddedKeys(baseTree, headTree))
    requires forall rel | rel in dirs ::
      ListsSymbols(lists(rel), PackageOf(head, rel), AddedKeys(PackageOf(base, rel), PackageOf(head, rel)))
    ensures multiset(list) == Sum(TagSymbol(), lists, dirs)
  {
    var p := PartsAdded(base, head, headTree);
    forall rel | rel in dirs ensures '\0' !in rel && Lists(lists(rel), p.at(rel), p.keys(rel)) {
      assert rel in base || rel in head;
      ListsByGetter(lists(rel), PackageOf(head, rel), AddedKeys(PackageOf(base, rel), PackageOf(head, rel)));
    }
    AddedKeysFit(base, head, baseTree, headTree, dirs);
    ListsByGetter(list, headTree, AddedKeys(baseTree, headTree));
    ListIsSum(p, lists, dirs, list, AddedKeys(baseTree, headTree));
  }

  lemma ChangedIsSum(base: map<string, Symbols>, head: map<string, Symbols>, baseTree: Symbols, headTree: Symbols,
      list: seq<Change>, lists: string -> seq<Change>, dirs: seq<string>)
    requires AreTrees(base, head, baseTree, headTree) && Enumerates(dirs, base.Keys + head.Keys)
    requires ListsChanges(list, baseTree, headTree)
    requires forall rel | rel in dirs :: ListsChanges(lists(rel), PackageOf(base, rel), PackageOf(head, rel))
    ensures multiset(list) == Sum(TagChange(), lists, dirs)
  {
    var p := PartsChanged(base, head, baseTree, headTree);
    forall rel | rel in dirs ensures '\0' !in rel && Lists(lists(rel), p.at(rel), p.keys(rel)) {
      assert rel in base || rel in head;
      ListsByChangeGetter(lists(rel), PackageOf(base, rel), PackageOf(head, rel));
    }
    ChangedKeysFit(base, head, baseTree, headTree, dirs);
    ListsByChangeGetter(list, baseTree, headTree);
    ListIsSum(p, lists, dirs, list, ChangedKeys(baseTree, headTree));
  }

  /** The report of two trees is the sum of the reports of their directories,
      each symbol named with its directory: nothing one directory holds can hide
      or add anything in another, even when the names they print are alike. */
  lemma TreeReportIsSum(base: map<string, Symbols>, head: map<string, Symbols>, baseTree: Symbols, headTree: Symbols,
      r: Report, reports: string -> Report, dirs: seq<string>)
    requires AreTrees(base, head, baseTree, headTree) && IsDiff(baseTree, headTree, r) && AllReports(base, head, reports, dirs)
    ensures multiset(r.added) == Sum(TagSymbol(), AddedOf(reports), dirs)
    ensures multiset(r.removed) == Sum(TagSymbol(), RemovedOf(reports), dirs)
    ensures multiset(r.changed) == Sum(TagChange(), ChangedOf(reports), dirs)
  {
    AddedIsSum(base, head, baseTree, headTree, r.added, AddedOf(reports), dirs);
    assert head.Keys + base.Keys == base.Keys + head.Keys;
    AddedIsSum(head, base, headTree, baseTree, r.removed, RemovedOf(reports), dirs);
    ChangedIsSum(base, head, baseTree, headTree, r.changed, ChangedOf(reports), dirs);
  }
}
