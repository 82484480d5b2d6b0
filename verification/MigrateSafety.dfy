/** What the copy keeps: nothing in the new tree is altered, whatever it adds
    mirrors the old tree, and a clean copy left nothing behind. */
module MigrateSafety {
  import opened Text
  import opened Migrate
  import opened MigrateLinks

  // The old tree

  function Child(children: seq<Named>, name: string): Option<Node> {
    if children == [] then None
    else if children[0].name == name then Some(children[0].node)
    else Child(children[1..], name)
  }

  /** What stands at a path of the old tree. */
  function At(root: Node, path: Path): Option<Node>
    decreases |path|
  {
    if path == [] then Some(root)
    else
      match At(root, Parent(path))
      case Some(Dir(children)) => Child(children, path[|path| - 1])
      case _ => None
  }

  predicate DistinctNames(children: seq<Named>) {
    forall i, j | 0 <= i < j < |children| :: children[i].name != children[j].name
  }

  /** No directory names two entries alike. */
  predicate WellFormed(node: Node)
    decreases node
  {
    node.Dir? ==>
      DistinctNames(node.children) && forall i | 0 <= i < |node.children| :: WellFormed(node.children[i].node)
  }

  lemma {:induction false} ChildAt(children: seq<Named>, i: nat)
    requires DistinctNames(children) && i < |children|
    ensures Child(children, children[i].name) == Some(children[i].node)
  {
    if i > 0 {
      ChildAt(children[1..], i - 1);
    }
  }

  lemma {:induction false} ChildFound(children: seq<Named>, name: string) returns (i: nat)
    requires Child(children, name).Some?
    ensures i < |children| && children[i].name == name && children[i].node == Child(children, name).value
  {
    if children[0].name == name {
      i := 0;
    } else {
      i := ChildFound(children[1..], name);
      i := i + 1;
    }
  }

  lemma AtChild(root: Node, path: Path, node: Node, i: nat)
    requires node.Dir? && WellFormed(node) && At(root, path) == Some(node) && i < |node.children|
    ensures At(root, path + [node.children[i].name]) == Some(node.children[i].node)
  {
    ChildAt(node.children, i);
    assert Parent(path + [node.children[i].name]) == path;
  }

  // What a step of the copy may do

  /** Nothing that was there is altered. */
  ghost predicate Kept(a: Tree, b: Tree) {
    forall p | p in a :: p in b && b[p] == a[p]
  }

  /** An entry says what the old tree has at its path: a file is whole, or torn
      when something failed, and a link leads where it should. */
  ghost predicate Mirrors(d: Dirs, root: Node, p: Path, e: Entry, whole: bool) {
    match At(root, p)
    case Some(File(bytes)) => e.FileEntry? && e.bytes <= bytes && (whole ==> e.bytes == bytes)
    case Some(Link(target)) => e.LinkEntry? && LeadsAlike(d, target, e.target)
    case Some(Dir(_)) => e.DirEntry?
    case _ => false
  }

  ghost predicate Added(d: Dirs, root: Node, a: Tree, b: Tree, whole: bool) {
    forall p | p in b && p !in a :: Mirrors(d, root, p, b[p], whole)
  }

  /** A link of the tree stands above the path. */
  predicate LinkAbove(tree: Tree, p: Path)
    decreases |p|
  {
    |p| > 1 && ((Parent(p) in tree && tree[Parent(p)].LinkEntry?) || LinkAbove(tree, Parent(p)))
  }

  /** Nothing is added below a link that was there. */
  ghost predicate Reached(a: Tree, b: Tree) {
    forall p | p in b && p !in a :: !LinkAbove(a, p)
  }

  /** A part of the copy: errors are only added, nothing is altered, what is new
      mirrors the old tree, whole when there was no error, and stands below no
      link. */
  ghost predicate Step(d: Dirs, root: Node, s: Copying, t: Copying) {
    s.rep.errors <= t.rep.errors && Kept(s.tree, t.tree) && Reached(s.tree, t.tree) &&
    Added(d, root, s.tree, t.tree, t.rep.errors == s.rep.errors)
  }

  lemma {:induction false} LinkStays(a: Tree, b: Tree, p: Path)
    requires Kept(a, b) && LinkAbove(a, p)
    ensures LinkAbove(b, p)
    decreases |p|
  {
    if !(Parent(p) in a && a[Parent(p)].LinkEntry?) {
      LinkStays(a, b, Parent(p));
    }
  }

  lemma StepsCompose(d: Dirs, root: Node, s: Copying, t: Copying, u: Copying)
    requires Step(d, root, s, t) && Step(d, root, t, u)
    ensures Step(d, root, s, u)
    ensures u.rep.errors == s.rep.errors ==> t.rep.errors == s.rep.errors
  {
    var whole := u.rep.errors == s.rep.errors;
    forall p | p in u.tree && p !in s.tree ensures Mirrors(d, root, p, u.tree[p], whole) && !LinkAbove(s.tree, p) {
      if p in t.tree {
        assert Mirrors(d, root, p, t.tree[p], t.rep.errors == s.rep.errors);
      } else if LinkAbove(s.tree, p) {
        LinkStays(s.tree, t.tree, p);
      }
    }
  }

  predicate IsDir(root: Node, p: Path) {
    At(root, p).Some? && At(root, p).value.Dir?
  }

  /** The copy puts no link where the old tree has a directory, so a link above
      an entry of a directory was there before. */
  lemma {:induction false} LinkWasThere(d: Dirs, root: Node, a: Tree, b: Tree, whole: bool, p: Path)
    requires Added(d, root, a, b, whole) && Kept(a, b) && p != [] && IsDir(root, Parent(p)) && LinkAbove(b, p)
    ensures LinkAbove(a, p)
    decreases |p|
  {
    var parent := Parent(p);
    if parent in b && b[parent].LinkEntry? {
      assert parent !in a ==> Mirrors(d, root, parent, b[parent], whole);
    } else {
      assert IsDir(root, Parent(parent));
      LinkWasThere(d, root, a, b, whole, parent);
    }
  }

  /** A path behind a link has a link above it, and one in the tree has none. */
  lemma {:induction false} PlaceTellsLinks(w: World, tree: Tree, path: Path)
    ensures PlaceOf(w, tree, path).Behind? ==> LinkAbove(tree, path)
    ensures PlaceOf(w, tree, path).InTree? ==> !LinkAbove(tree, path)
    decreases |path|
  {
    if |path| > 1 {
      PlaceTellsLinks(w, tree, Parent(path));
    }
  }

  lemma {:induction false} MakeAllAdds(d: Dirs, w: World, root: Node, tree: Tree, path: Path, whole: bool)
    requires IsDir(root, path)
    ensures Kept(tree, MakeAll(w, tree, path).0) && Added(d, root, tree, MakeAll(w, tree, path).0, whole)
    ensures Reached(tree, MakeAll(w, tree, path).0)
    ensures MakeAll(w, tree, path).1 ==> path == [] || path in MakeAll(w, tree, path).0 || LinkAbove(tree, path)
    decreases |path|
  {
    if |path| > 0 && path !in tree {
      var made := tree;
      if |path| > 1 {
        assert IsDir(root, Parent(path));
        MakeAllAdds(d, w, root, tree, Parent(path), whole);
        made := MakeAll(w, tree, Parent(path)).0;
      }
      MadeHere(d, w, root, tree, made, path, whole);
    }
  }

  lemma MadeHere(d: Dirs, w: World, root: Node, tree: Tree, made: Tree, path: Path, whole: bool)
    requires IsDir(root, path) && path != []
    requires Kept(tree, made) && Added(d, root, tree, made, whole) && Reached(tree, made)
    ensures PlaceOf(w, made, path).Behind? ==> LinkAbove(tree, path)
    ensures PlaceOf(w, made, path).InTree? ==> !LinkAbove(tree, path)
  {
    PlaceTellsLinks(w, made, path);
    if LinkAbove(made, path) {
      assert IsDir(root, Parent(path));
      LinkWasThere(d, root, tree, made, whole, path);
    }
    if LinkAbove(tree, path) {
      LinkStays(tree, made, path);
    }
  }

  // The parts of the copy

  lemma EnterStep(d: Dirs, w: World, root: Node, s: Copying, path: Path)
    requires IsDir(root, path)
    ensures Step(d, root, s, EnterDir(w, s, path).0)
    ensures EnterDir(w, s, path).1 ==>
      path == [] || path == MARKER || path in EnterDir(w, s, path).0.tree || LinkAbove(s.tree, path)
    ensures !EnterDir(w, s, path).1 ==> EnterDir(w, s, path).0.rep.errors != s.rep.errors
  {
    MakeAllAdds(d, w, root, s.tree, path, true);
    MakeAllAdds(d, w, root, s.tree, path, false);
  }

  lemma FileStep(d: Dirs, w: World, root: Node, s: Copying, path: Path, bytes: string, t: Copying)
    requires t == CopyFile(w, s, path, bytes) && path != [] && At(root, path) == Some(File(bytes))
    ensures Step(d, root, s, t)
    ensures t.rep.errors == s.rep.errors ==> path in t.tree || LinkAbove(s.tree, path)
  {
    PlaceTellsLinks(w, s.tree, path);
    if path in t.tree && path !in s.tree {
      FileMirrors(d, root, path, bytes, t.tree[path], t.rep.errors == s.rep.errors);
    }
  }

  lemma FileMirrors(d: Dirs, root: Node, path: Path, bytes: string, e: Entry, whole: bool)
    requires At(root, path) == Some(File(bytes)) && e.FileEntry? && e.bytes <= bytes && (whole ==> e.bytes == bytes)
    ensures Mirrors(d, root, path, e, whole)
  {
  }

  lemma LinkStep(d: Dirs, w: World, root: Node, s: Copying, path: Path, target: Target, t: Copying)
    requires t == CopyLink(d, w, s, path, target) && path != [] && At(root, path) == Some(Link(target))
    ensures Step(d, root, s, t)
    ensures t.rep.errors == s.rep.errors ==> path in t.tree || LinkAbove(s.tree, path)
  {
    PlaceTellsLinks(w, s.tree, path);
    RedirectLeadsAlike(d, target);
  }

  // The whole walk

  /** Whatever is not irregular has an entry at its path in b, the note aside,
      unless a link of a stood above it. */
  ghost predicate Placed(a: Tree, b: Tree, path: Path, node: Node)
    decreases node
  {
    (path == [] || path == MARKER || node.Irregular? || path in b || LinkAbove(a, path)) &&
    (node.Dir? ==> forall i | 0 <= i < |node.children| :: Placed(a, b, path + [node.children[i].name], node.children[i].node))
  }

  /** The copy goes on from b to c, and began with a. */
  lemma {:induction false} PlacedStays(a: Tree, b: Tree, c: Tree, path: Path, node: Node)
    requires Placed(a, b, path, node) && Kept(b, c)
    ensures Placed(a, c, path, node)
    decreases node
  {
    if node.Dir? {
      forall i | 0 <= i < |node.children| ensures Placed(a, c, path + [node.children[i].name], node.children[i].node) {
        PlacedStays(a, b, c, path + [node.children[i].name], node.children[i].node);
      }
    }
  }

  lemma {:induction false} PlacedBefore(d: Dirs, root: Node, a: Tree, b: Tree, whole: bool, c: Tree, path: Path, node: Node)
    requires Added(d, root, a, b, whole) && Kept(a, b) && Placed(b, c, path, node)
    requires WellFormed(node) && At(root, path) == Some(node) && (path != [] ==> IsDir(root, Parent(path)))
    ensures Placed(a, c, path, node)
    decreases node
  {
    if LinkAbove(b, path) {
      LinkWasThere(d, root, a, b, whole, path);
    }
    if node.Dir? {
      forall i | 0 <= i < |node.children| ensures Placed(a, c, path + [node.children[i].name], node.children[i].node) {
        AtChild(root, path, node, i);
        assert Parent(path + [node.children[i].name]) == path;
        PlacedBefore(d, root, a, b, whole, c, path + [node.children[i].name], node.children[i].node);
      }
    }
  }

  lemma {:induction false} WalkStep(d: Dirs, w: World, root: Node, s: Copying, path: Path, node: Node)
    requires At(root, path) == Some(node) && WellFormed(node) && root.Dir?
    ensures Step(d, root, s, Walk(d, w, s, path, node))
    ensures Walk(d, w, s, path, node).rep.errors == s.rep.errors ==>
      Placed(s.tree, Walk(d, w, s, path, node).tree, path, node)
    decreases node, 1
  {
    match node
    case Dir(children) =>
      EnterStep(d, w, root, s, path);
      var (entered, into) := EnterDir(w, s, path);
      if into && !w.unreadable(path) {
        WalkAllStep(d, w, root, entered, path, node, |children|);
        var t := WalkAll(d, w, entered, path, node, |children|);
        StepsCompose(d, root, s, entered, t);
        if t.rep.errors == s.rep.errors {
          ChildrenBefore(d, root, s.tree, entered.tree, true, t.tree, path, node, |children|);
        }
      }
    case File(bytes) =>
      if path != MARKER {
        FileStep(d, w, root, s, path, bytes, CopyFile(w, s, path, bytes));
      }
    case Link(target) =>
      if path != MARKER {
        LinkStep(d, w, root, s, path, target, CopyLink(d, w, s, path, target));
      }
    case Irregular =>
  }

  /** The first n entries of a directory are placed. */
  ghost predicate ChildrenPlaced(a: Tree, b: Tree, path: Path, node: Node, n: nat)
    requires node.Dir? && n <= |node.children|
  {
    forall i | 0 <= i < n :: Placed(a, b, path + [node.children[i].name], node.children[i].node)
  }

  lemma ChildrenBefore(d: Dirs, root: Node, a: Tree, b: Tree, whole: bool, c: Tree, path: Path, node: Node, n: nat)
    requires Added(d, root, a, b, whole) && Kept(a, b) && node.Dir? && n <= |node.children|
    requires ChildrenPlaced(b, c, path, node, n) && At(root, path) == Some(node) && WellFormed(node)
    ensures ChildrenPlaced(a, c, path, node, n)
  {
    forall i | 0 <= i < n ensures Placed(a, c, path + [node.children[i].name], node.children[i].node) {
      AtChild(root, path, node, i);
      assert Parent(path + [node.children[i].name]) == path;
      PlacedBefore(d, root, a, b, whole, c, path + [node.children[i].name], node.children[i].node);
    }
  }

  lemma {:induction false} WalkAllStep(d: Dirs, w: World, root: Node, s: Copying, path: Path, node: Node, n: nat)
    requires At(root, path) == Some(node) && WellFormed(node) && root.Dir? && node.Dir? && n <= |node.children|
    ensures Step(d, root, s, WalkAll(d, w, s, path, node, n))
    ensures WalkAll(d, w, s, path, node, n).rep.errors == s.rep.errors ==>
      ChildrenPlaced(s.tree, WalkAll(d, w, s, path, node, n).tree, path, node, n)
    decreases node, 0, n
  {
    if n > 0 {
      var child := node.children[n - 1];
      var before, t := WalkAll(d, w, s, path, node, n - 1), WalkAll(d, w, s, path, node, n);
      WalkAllStep(d, w, root, s, path, node, n - 1);
      AtChild(root, path, node, n - 1);
      WalkStep(d, w, root, before, path + [child.name], child.node);
      StepsCompose(d, root, s, before, t);
      if t.rep.errors == s.rep.errors {
        OneMorePlaced(d, root, s.tree, before.tree, t.tree, path, node, n);
      }
    }
  }

  lemma OneMorePlaced(d: Dirs, root: Node, a: Tree, b: Tree, c: Tree, path: Path, node: Node, n: nat)
    requires At(root, path) == Some(node) && WellFormed(node) && node.Dir? && 0 < n <= |node.children|
    requires Added(d, root, a, b, true) && Kept(a, b) && Kept(b, c) && ChildrenPlaced(a, b, path, node, n - 1)
    requires Placed(b, c, path + [node.children[n - 1].name], node.children[n - 1].node)
    ensures ChildrenPlaced(a, c, path, node, n)
  {
    AtChild(root, path, node, n - 1);
    assert Parent(path + [node.children[n - 1].name]) == path;
    PlacedBefore(d, root, a, b, true, c, path + [node.children[n - 1].name], node.children[n - 1].node);
    forall i | 0 <= i < n - 1 ensures Placed(a, c, path + [node.children[i].name], node.children[i].node) {
      PlacedStays(a, b, c, path + [node.children[i].name], node.children[i].node);
    }
  }

  lemma {:induction false} PlacedAt(a: Tree, b: Tree, root: Node, path: Path, node: Node)
    requires Placed(a, b, [], root) && At(root, path) == Some(node)
    ensures Placed(a, b, path, node)
    decreases |path|
  {
    if path != [] {
      var parent := Parent(path);
      var above := At(root, parent).value;
      PlacedAt(a, b, root, parent, above);
      var i := ChildFound(above.children, path[|path| - 1]);
      assert parent + [above.children[i].name] == path;
    }
  }
}
