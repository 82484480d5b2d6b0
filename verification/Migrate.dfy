/** Copying the legacy data directory: CopyUserData and copyFileNoClobber of
    packages/agent/migrate.go. The old tree is a value, since nothing writes to
    it while it is copied. The new tree is a map from relative paths. Every file
    operation may fail. */
module Migrate {

  type Path = seq<string>

  datatype Named = Named(name: string, node: Node)

  /** What the old directory holds. Irregular is a socket, a FIFO or a device. */
  datatype Node = File(bytes: string) | Link(target: Target) | Irregular | Dir(children: seq<Named>)

  /** A link target, as the names between its separators. */
  datatype Target = Absolute(parts: Path) | Relative(parts: Path)

  datatype Entry = FileEntry(bytes: string) | LinkEntry(target: Target) | DirEntry | OtherEntry

  type Tree = map<Path, Entry>

  /** How the copy of one file ends. A failed write leaves so many bytes. */
  datatype Fate = NotOpened | NotCreated | Torn(n: nat) | NotClosed | Copied

  /** What the file system does during the run, by relative path: which
      directories cannot be read or made, how each copy ends, which links cannot
      be read or made, which entries Lstat does not see, and for links of the
      new tree, which lead to a directory and what already exists behind them. */
  datatype World = World(
    unreadable: Path -> bool, unmade: Path -> bool, fate: Path -> Fate,
    unreadLink: Path -> bool, unmadeLink: Path -> bool, unseen: Path -> bool,
    leads: Path -> bool, behind: Path -> bool)

  datatype Report = Report(files: nat, links: nat, skipped: seq<Path>, errors: seq<Path>)

  predicate Clean(rep: Report) {
    rep.errors == []
  }

  datatype Copying = Copying(tree: Tree, rep: Report)

  function Failed(s: Copying, path: Path): Copying {
    s.(rep := s.rep.(errors := s.rep.errors + [path]))
  }

  function Skipped(s: Copying, path: Path): Copying {
    s.(rep := s.rep.(skipped := s.rep.skipped + [path]))
  }

  function CountFile(rep: Report): Report {
    rep.(files := rep.files + 1)
  }

  function CountLink(rep: Report): Report {
    rep.(links := rep.links + 1)
  }

  /** The note that only means something in the old directory. */
  const MARKER: Path := [".terva-migration-note-shown"]

  // The new tree

  function Parent(path: Path): Path
    requires path != []
  {
    path[..|path| - 1]
  }

  /** Where a path of the new tree stands: in the tree, behind a link that leads
      to some directory, or under something that is no directory. */
  datatype Place = InTree | Behind | Nowhere

  function PlaceOf(w: World, tree: Tree, path: Path): Place
    decreases |path|
  {
    if |path| <= 1 then InTree
    else
      var parent := Parent(path);
      match PlaceOf(w, tree, parent)
      case Nowhere => Nowhere
      case Behind => Behind
      case InTree =>
        if parent !in tree then Nowhere
        else
          match tree[parent]
          case DirEntry => InTree
          case LinkEntry(_) => if w.leads(parent) then Behind else Nowhere
          case _ => Nowhere
  }

  /** os.MkdirAll, which follows links and keeps the directories it made when a
      later one fails. */
  function MakeAll(w: World, tree: Tree, path: Path): (Tree, bool)
    decreases |path|
  {
    if path == [] then (tree, !w.unmade(path))
    else if path in tree then
      (tree, tree[path].DirEntry? || (tree[path].LinkEntry? && w.leads(path)))
    else
      var (made, ok) := if |path| == 1 then (tree, true) else MakeAll(w, tree, Parent(path));
      if !ok || w.unmade(path) then (made, false)
      else if PlaceOf(w, made, path).InTree? then (made[path := DirEntry], true)
      else (made, PlaceOf(w, made, path).Behind?)
  }

  /** Whether a path of the new tree has something in it already. */
  predicate Taken(w: World, tree: Tree, path: Path) {
    match PlaceOf(w, tree, path)
    case InTree => path in tree
    case Behind => w.behind(path)
    case Nowhere => false
  }

  // Links

  /** Going on by one name, from the root at the most. */
  function Entered(before: Path, name: string): Path {
    if name == "" || name == "." then before
    else if name == ".." then (if before == [] then [] else before[..|before| - 1])
    else before + [name]
  }

  function ResolveDots(parts: Path): Path {
    if parts == [] then [] else Entered(ResolveDots(parts[..|parts| - 1]), parts[|parts| - 1])
  }

  /** Going on by one name, or up. */
  function Climbing(before: Path, name: string): Path {
    if name == "" || name == "." then before
    else if name == ".." && before != [] && before[|before| - 1] != ".." then before[..|before| - 1]
    else before + [name]
  }

  /** A relative path cleaned: it may climb, at its start alone. */
  function ClimbDots(parts: Path): Path {
    if parts == [] then [] else Climbing(ClimbDots(parts[..|parts| - 1]), parts[|parts| - 1])
  }

  /** filepath.Clean */
  function Cleaned(t: Target): Target {
    if t.Absolute? then Absolute(ResolveDots(t.parts)) else Relative(ClimbDots(t.parts))
  }

  /** filepath.Join */
  function Joined(t: Target, rest: Path): Target {
    Cleaned(t.(parts := t.parts + rest))
  }

  datatype Dirs = Dirs(source: Target, target: Target)

  /** An absolute target that lies in the old directory, lexically. */
  predicate Inside(d: Dirs, target: Target) {
    d.source.Absolute? && target.Absolute? && ResolveDots(d.source.parts) <= ResolveDots(target.parts)
  }

  /** The target a link gets: one inside the old directory moves to the new. */
  function Redirect(d: Dirs, target: Target): Target {
    if Inside(d, target) then
      Joined(d.target, ResolveDots(target.parts)[|ResolveDots(d.source.parts)|..])
    else target
  }

  // The copy

  function CopyFile(w: World, s: Copying, path: Path, bytes: string): Copying {
    var fate := w.fate(path);
    if fate.NotOpened? then Failed(s, path)
    else if Taken(w, s.tree, path) then Skipped(s, path)
    else if fate.NotCreated? || PlaceOf(w, s.tree, path).Nowhere? then Failed(s, path)
    else
      var written := if fate.Torn? && fate.n <= |bytes| then bytes[..fate.n] else bytes;
      var tree := if PlaceOf(w, s.tree, path).InTree? then s.tree[path := FileEntry(written)] else s.tree;
      if fate.Copied? then Copying(tree, CountFile(s.rep))
      else Failed(s.(tree := tree), path)
  }

  function CopyLink(d: Dirs, w: World, s: Copying, path: Path, target: Target): Copying {
    if Taken(w, s.tree, path) && !w.unseen(path) then Skipped(s, path)
    else if w.unreadLink(path) || Taken(w, s.tree, path) || w.unmadeLink(path) || PlaceOf(w, s.tree, path).Nowhere? then
      Failed(s, path)
    else
      var tree := if PlaceOf(w, s.tree, path).InTree? then s.tree[path := LinkEntry(Redirect(d, target))] else s.tree;
      Copying(tree, CountLink(s.rep))
  }

  /** A directory, before its entries: whether the walk goes on into it. */
  function EnterDir(w: World, s: Copying, path: Path): (Copying, bool) {
    if path == MARKER then (s, true)
    else
      var (tree, ok) := MakeAll(w, s.tree, path);
      if ok then (s.(tree := tree), true) else (Failed(s.(tree := tree), path), false)
  }

  /** The walk, from a path on. The root only makes the new directory. */
  function Walk(d: Dirs, w: World, s: Copying, path: Path, node: Node): Copying
    decreases node, 1
  {
    match node
    case Dir(children) =>
      var (entered, into) := EnterDir(w, s, path);
      if !into then entered
      else if w.unreadable(path) then Failed(entered, path)
      else WalkAll(d, w, entered, path, node, |children|)
    case _ =>
      if path == [] then EnterDir(w, s, path).0
      else if path == MARKER then s
      else
        match node
        case File(bytes) => CopyFile(w, s, path, bytes)
        case Link(target) => CopyLink(d, w, s, path, target)
        case _ => s
  }

  /** The first n entries of a directory. */
  function WalkAll(d: Dirs, w: World, s: Copying, path: Path, node: Node, n: nat): Copying
    requires node.Dir? && n <= |node.children|
    decreases node, 0, n
  {
    if n == 0 then s
    else
      var child := node.children[n - 1];
      Walk(d, w, WalkAll(d, w, s, path, node, n - 1), path + [child.name], child.node)
  }

  /** A run of the copy, on the two trees it works on. */
  class Copier {
    const dirs: Dirs
    const w: World
    var tree: Tree
    var rep: Report

    constructor (dirs: Dirs, w: World, tree: Tree)
      ensures this.dirs == dirs && this.w == w && this.tree == tree && rep == Report(0, 0, [], [])
    {
      this.dirs, this.w, this.tree, rep := dirs, w, tree, Report(0, 0, [], []);
    }

    function State(): Copying
      reads this
    {
      Copying(tree, rep)
    }

    method CopyFileNoClobber(path: Path, bytes: string)
      modifies this
      ensures State() == CopyFile(w, old(State()), path, bytes)
    {
      var fate := w.fate(path);
      if fate.NotOpened? {
        rep := rep.(errors := rep.errors + [path]);
        return;
      }
      var place := PlaceOf(w, tree, path);
      if Taken(w, tree, path) {
        rep := rep.(skipped := rep.skipped + [path]);
        return;
      }
      if fate.NotCreated? || place.Nowhere? {
        rep := rep.(errors := rep.errors + [path]);
        return;
      }
      var written := if fate.Torn? && fate.n <= |bytes| then bytes[..fate.n] else bytes;
      if place.InTree? {
        tree := tree[path := FileEntry(written)];
      }
      if fate.Copied? {
        rep := rep.(files := rep.files + 1);
      } else {
        rep := rep.(errors := rep.errors + [path]);
      }
    }

    method CopySymlink(path: Path, target: Target)
      modifies this
      ensures State() == CopyLink(dirs, w, old(State()), path, target)
    {
      var place := PlaceOf(w, tree, path);
      var taken := Taken(w, tree, path);
      if taken && !w.unseen(path) {
        rep := rep.(skipped := rep.skipped + [path]);
        return;
      }
      if w.unreadLink(path) {
        rep := rep.(errors := rep.errors + [path]);
        return;
      }
      var to := Redirect(dirs, target);
      if taken || place.Nowhere? || w.unmadeLink(path) {
        rep := rep.(errors := rep.errors + [path]);
        return;
      }
      if place.InTree? {
        tree := tree[path := LinkEntry(to)];
      }
      rep := rep.(links := rep.links + 1);
    }

    method MakeDir(path: Path) returns (into: bool)
      modifies this
      ensures (State(), into) == EnterDir(w, old(State()), path)
    {
      if path == MARKER {
        return true;
      }
      var made := MakeAll(w, tree, path);
      tree := made.0;
      if !made.1 {
        rep := rep.(errors := rep.errors + [path]);
      }
      return made.1;
    }

    /** filepath.WalkDir with the function that CopyUserData gives it. */
    method Visit(path: Path, node: Node)
      modifies this
      ensures State() == Walk(dirs, w, old(State()), path, node)
      decreases node, 1
    {
      if node.Dir? {
        var into := MakeDir(path);
        if !into {
          return;
        }
        if w.unreadable(path) {
          rep := rep.(errors := rep.errors + [path]);
          return;
        }
        ghost var entered := State();
        var i := 0;
        while i < |node.children|
          invariant i <= |node.children|
          invariant State() == WalkAll(dirs, w, entered, path, node, i)
        {
          Visit(path + [node.children[i].name], node.children[i].node);
          i := i + 1;
        }
      } else if path == [] {
        var into := MakeDir(path);
      } else if path != MARKER {
        match node
        case File(bytes) => CopyFileNoClobber(path, bytes);
        case Link(target) => CopySymlink(path, target);
        case _ =>
      }
    }
  }
}
