/** What the report of a copy counts: every file and link of the old tree is
    copied, skipped or an error. */
module MigrateCounts {
  import opened Migrate

  /** The files and links from a path on. The note of the old directory is not
      one of them, and neither are sockets and devices. */
  function Leaves(path: Path, node: Node): nat
    decreases node, 1
  {
    match node
    case Dir(children) => LeavesIn(path, node, |children|)
    case Irregular => 0
    case _ => if path == [] || path == MARKER then 0 else 1
  }

  /** Those in the first n entries of a directory. */
  function LeavesIn(path: Path, node: Node, n: nat): nat
    requires node.Dir? && n <= |node.children|
    decreases node, 0, n
  {
    if n == 0 then 0
    else LeavesIn(path, node, n - 1) + Leaves(path + [node.children[n - 1].name], node.children[n - 1].node)
  }

  function Counted(rep: Report): nat {
    rep.files + rep.links + |rep.skipped|
  }

  /** One copy more, or several: errors are only added, and without any the
      counts grow by so much. */
  predicate Counts(a: Report, b: Report, n: nat) {
    a.errors <= b.errors && (b.errors == a.errors ==> Counted(b) == Counted(a) + n)
  }

  lemma EnterCounts(w: World, s: Copying, path: Path)
    ensures Counts(s.rep, EnterDir(w, s, path).0.rep, 0)
    ensures !EnterDir(w, s, path).1 ==> EnterDir(w, s, path).0.rep.errors != s.rep.errors
  {
  }

  lemma CountsJoin(a: Report, b: Report, c: Report, m: nat, n: nat)
    requires Counts(a, b, m) && Counts(b, c, n)
    ensures Counts(a, c, m + n)
  {
  }

  lemma {:induction false} WalkCounts(d: Dirs, w: World, s: Copying, path: Path, node: Node)
    ensures Counts(s.rep, Walk(d, w, s, path, node).rep, Leaves(path, node))
    decreases node, 1
  {
    match node
    case Dir(children) =>
      EnterCounts(w, s, path);
      var (entered, into) := EnterDir(w, s, path);
      if into && !w.unreadable(path) {
        WalkAllCounts(d, w, entered, path, node, |children|);
        CountsJoin(s.rep, entered.rep, WalkAll(d, w, entered, path, node, |children|).rep, 0, Leaves(path, node));
      }
    case _ =>
      EnterCounts(w, s, path);
  }

  lemma {:induction false} WalkAllCounts(d: Dirs, w: World, s: Copying, path: Path, node: Node, n: nat)
    requires node.Dir? && n <= |node.children|
    ensures Counts(s.rep, WalkAll(d, w, s, path, node, n).rep, LeavesIn(path, node, n))
    decreases node, 0, n
  {
    if n > 0 {
      var child := node.children[n - 1];
      var before := WalkAll(d, w, s, path, node, n - 1);
      WalkAllCounts(d, w, s, path, node, n - 1);
      WalkCounts(d, w, before, path + [child.name], child.node);
      CountsJoin(s.rep, before.rep, WalkAll(d, w, s, path, node, n).rep, LeavesIn(path, node, n - 1),
        Leaves(path + [child.name], child.node));
    }
  }

  /** A copy without errors counts every file and link of the old tree once, as
      copied or as skipped. */
  lemma EverythingCounted(d: Dirs, w: World, tree: Tree, root: Node)
    ensures var rep := Walk(d, w, Copying(tree, Report(0, 0, [], [])), [], root).rep;
      Clean(rep) ==> rep.files + rep.links + |rep.skipped| == Leaves([], root)
  {
    WalkCounts(d, w, Copying(tree, Report(0, 0, [], [])), [], root);
  }
}
