/** What a clean closure check promises: no run of references from a stable,
    unmarked symbol leaves the promise, whatever unexported types it passes
    through. */
module Promise {
  import opened Text
  import opened Api
  import opened Hidden
  import opened Closure

  /** Every package of the module, as parsed. */
  type Sources = map<string, Source>

  function CensusAll(srcs: Sources): Censuses {
    map pkg | pkg in srcs :: Census(srcs[pkg])
  }

  /** What a reference can name: a symbol, an unexported type of a package, or
      nothing because no import matches. */
  datatype Node = Sym(pkg: string, name: string) | Local(pkg: string, name: string) | Lost

  /** r, written in package pkg, names node b. A reference without an import is to
      its own package, unless it has a qualifier that no import is called; the
      imports of the module are its own path, for the root, and what lies below
      it. */
  predicate RefNames(mod: string, srcs: Sources, pkg: string, r: Ref, b: Node) {
    pkg in srcs &&
    if r.qual == "" && !srcs[pkg].locals.exported(r.name) && r.name in srcs[pkg].locals.shows then b == Local(pkg, r.name)
    else if r.path == "" then b == if r.qual == "" then Sym(pkg, r.name) else Lost
    else b.Sym? && b.name == r.name && ((r.path == mod && b.pkg == ".") || r.path == mod + "/" + b.pkg)
  }

  /** The references a node shows a host, as parsed. */
  function Shown(srcs: Sources, a: Node): seq<Ref> {
    match a
    case Sym(pkg, name) => if pkg in srcs && name in srcs[pkg].syms then srcs[pkg].syms[name].refs else []
    case Local(pkg, name) => if pkg in srcs && name in srcs[pkg].locals.shows then srcs[pkg].locals.shows[name] else []
    case Lost => []
  }

  ghost predicate Names(mod: string, srcs: Sources, a: Node, b: Node) {
    !a.Lost? && exists r :: r in Shown(srcs, a) && RefNames(mod, srcs, a.pkg, r, b)
  }

  /** A run of references: each node names the next. */
  ghost predicate IsChain(mod: string, srcs: Sources, p: seq<Node>) {
    p != [] && forall i | 0 <= i < |p| - 1 :: Names(mod, srcs, p[i], p[i + 1])
  }

  /** The symbol, or the type it is a member of, is marked. */
  ghost predicate IsMarked(syms: Symbols, name: string) {
    (name in syms && syms[name].unstable) ||
    exists t :: t in syms && syms[t].unstable && '.' !in t && t + "." <= name
  }

  /** A symbol of a package listed stable that no marker takes out of the promise. */
  ghost predicate Promised(entries: seq<Entry>, srcs: Sources, a: Node) {
    a.Sym? && Entry(a.pkg, Stable) in entries && a.pkg in srcs && a.name in srcs[a.pkg].syms &&
    !IsMarked(srcs[a.pkg].syms, a.name)
  }

  ghost predicate IsPromiseOrLocal(entries: seq<Entry>, srcs: Sources, a: Node) {
    a.Local? || Promised(entries, srcs, a)
  }

  /** No run of references from a promised symbol leaves the promise. */
  ghost predicate PromiseHolds(mod: string, entries: seq<Entry>, srcs: Sources) {
    forall p | IsChain(mod, srcs, p) && Promised(entries, srcs, p[0]) ::
      IsPromiseOrLocal(entries, srcs, p[|p| - 1])
  }

  lemma MarkedMeans(syms: Symbols, name: string)
    requires name in syms
    ensures Marked(syms)[name].unstable <==> IsMarked(syms, name)
  {
    if t :| t in syms && syms[t].unstable && '.' !in t && t + "." <= name {
      assert name == t + ['.'] + name[|t| + 1..];
      FirstIndex(t, '.', name[|t| + 1..]);
    }
    if OwnerMarked(syms, name) {
      var i := IndexOf(name, '.').value;
      assert name[..i] + "." <= name;
    }
  }

  /** What the census and the manifest say of a promised symbol. */
  predicate KeepsPromise(entries: seq<Entry>, censuses: Censuses, pkg: string, name: string) {
    ClassOf(entries, pkg) == Some(Stable) && name in SymbolsOf(censuses, pkg) && !SymbolsOf(censuses, pkg)[name].unstable
  }

  lemma PromisedMeans(entries: seq<Entry>, srcs: Sources, pkg: string, name: string)
    requires DistinctPackages(entries)
    ensures Promised(entries, srcs, Sym(pkg, name)) <==> KeepsPromise(entries, CensusAll(srcs), pkg, name)
  {
    ListedMeans(entries, pkg, Stable);
    if pkg in srcs && name in srcs[pkg].syms {
      MarkedMeans(srcs[pkg].syms, name);
    }
  }

  /** The references of a promised symbol's census are clean. */
  ghost predicate AllClean(mod: string, entries: seq<Entry>, srcs: Sources) {
    forall pkg, name, r |
      Promised(entries, srcs, Sym(pkg, name)) && r in Census(srcs[pkg])[name].refs ::
      !Breaking(mod, pkg, r, entries, CensusAll(srcs))
  }

  lemma CleanReportIsClean(mod: string, entries: seq<Entry>, srcs: Sources)
    requires DistinctPackages(entries)
    ensures CheckEntries(mod, entries, entries, CensusAll(srcs)).leaks == [] <==> AllClean(mod, entries, srcs)
  {
    var censuses := CensusAll(srcs);
    CleanEntries(mod, entries, entries, censuses);
    if CheckEntries(mod, entries, entries, censuses).leaks == [] {
      forall pkg, name, r | Promised(entries, srcs, Sym(pkg, name)) && r in Census(srcs[pkg])[name].refs
        ensures !Breaking(mod, pkg, r, entries, censuses)
      {
        PromisedMeans(entries, srcs, pkg, name);
        var e := Entry(pkg, Stable);
        assert e in entries && name in SymbolsOf(censuses, e.pkg);
        assert CleanSymbol(mod, pkg, name, entries, censuses);
      }
    }
    if AllClean(mod, entries, srcs) {
      forall e, name | e in entries && e.cls.Stable? && name in SymbolsOf(censuses, e.pkg)
        ensures CleanSymbol(mod, e.pkg, name, entries, censuses)
      {
        CleanWhenPromised(mod, entries, srcs, e, name);
      }
    }
  }

  lemma CleanWhenPromised(mod: string, entries: seq<Entry>, srcs: Sources, e: Entry, name: string)
    requires DistinctPackages(entries) && AllClean(mod, entries, srcs) && e in entries && e.cls.Stable?
    requires name in SymbolsOf(CensusAll(srcs), e.pkg)
    ensures CleanSymbol(mod, e.pkg, name, entries, CensusAll(srcs))
  {
    assert e == Entry(e.pkg, Stable);
    ListedMeans(entries, e.pkg, Stable);
    PromisedMeans(entries, srcs, e.pkg, name);
    assert SymbolsOf(CensusAll(srcs), e.pkg)[name] == Census(srcs[e.pkg])[name];
  }

  lemma NamesMeans(mod: string, srcs: Sources, pkg: string, r: Ref, b: Node)
    requires RefNames(mod, srcs, pkg, r, b) && !IsHidden(srcs[pkg].locals, r)
    ensures match TargetOf(mod, pkg, r)
      case Outside => false
      case Unresolved => b == Lost
      case In(target) => b == Sym(target, r.name)
  {
    if r.path != "" && r.path != mod {
      assert r.path[|mod| + 1..] == b.pkg;
    }
  }

  lemma BrokenIsNamed(mod: string, srcs: Sources, pkg: string, r: Ref)
    requires pkg in srcs && !IsHidden(srcs[pkg].locals, r) && !TargetOf(mod, pkg, r).Outside?
    ensures RefNames(mod, srcs, pkg, r, BrokenName(mod, pkg, r))
  {
    if r.path != "" && r.path != mod {
      assert r.path == mod + "/" + r.path[|mod| + 1..];
    }
  }

  /** A clean reference names a promised symbol, when it names one at all. */
  lemma CleanNames(mod: string, entries: seq<Entry>, srcs: Sources, pkg: string, r: Ref, b: Node)
    requires DistinctPackages(entries) && RefNames(mod, srcs, pkg, r, b) && !IsHidden(srcs[pkg].locals, r)
    ensures !Breaking(mod, pkg, r, entries, CensusAll(srcs)) <==> Promised(entries, srcs, b)
  {
    NamesMeans(mod, srcs, pkg, r, b);
    if b.Sym? {
      PromisedMeans(entries, srcs, b.pkg, b.name);
    }
  }

  lemma ViaIsNotJudged(mod: string, entries: seq<Entry>, srcs: Sources, pkg: string, r: Ref, via: string)
    ensures Breaking(mod, pkg, r.(via := via), entries, CensusAll(srcs)) <==> Breaking(mod, pkg, r, entries, CensusAll(srcs))
  {
    assert TargetOf(mod, pkg, r.(via := via)) == TargetOf(mod, pkg, r);
  }

  // A clean report keeps every run inside

  /** Where a run from a promised symbol can stand: on a promised symbol, or on
      a local type that some promised symbol of its package reaches. */
  ghost predicate Inside(entries: seq<Entry>, srcs: Sources, a: Node) {
    match a
    case Sym(_, _) => Promised(entries, srcs, a)
    case Local(pkg, t) =>
      exists name, root :: Promised(entries, srcs, Sym(pkg, name)) && ShowsThrough(srcs[pkg], name, root, t)
    case Lost => false
  }

  /** The symbol name refers to the hidden type root, which reaches t. */
  ghost predicate ShowsThrough(src: Source, name: string, root: Ref, t: string) {
    name in src.syms && root in src.syms[name].refs && IsHidden(src.locals, root) && Reaches(src.locals, root.name, t)
  }

  lemma ReachesEnd(l: Locals, a: string, b: string, c: string)
    requires Reaches(l, a, b) && Leads(l, b, c)
    ensures Reaches(l, a, c)
  {
    var p :| IsRun(l, p) && p[0] == a && p[|p| - 1] == b;
    var q := p + [c];
    forall i | 0 <= i < |q| - 1 ensures Leads(l, q[i], q[i + 1]) {
      if i < |p| - 1 {
        assert Leads(l, p[i], p[i + 1]);
      }
    }
    assert IsRun(l, q) && q[0] == a && q[|q| - 1] == c;
  }

  lemma StepFromSymbol(mod: string, entries: seq<Entry>, srcs: Sources, a: Node, r: Ref, b: Node)
    requires DistinctPackages(entries) && AllClean(mod, entries, srcs) && Promised(entries, srcs, a)
    requires r in Shown(srcs, a) && RefNames(mod, srcs, a.pkg, r, b)
    ensures Inside(entries, srcs, b)
  {
    var src := srcs[a.pkg];
    if IsHidden(src.locals, r) {
      ReachesItself(src.locals, r.name);
      assert ShowsThrough(src, a.name, r, r.name);
    } else {
      ExpandMembers(src.locals, r, r);
      ThroughMembers(src.locals, src.syms[a.name].refs, r);
      assert r in Census(src)[a.name].refs;
      CleanNames(mod, entries, srcs, a.pkg, r, b);
    }
  }

  lemma StepFromLocal(mod: string, entries: seq<Entry>, srcs: Sources, a: Node, r: Ref, b: Node)
    requires DistinctPackages(entries) && AllClean(mod, entries, srcs) && a.Local? && Inside(entries, srcs, a)
    requires r in Shown(srcs, a) && RefNames(mod, srcs, a.pkg, r, b)
    ensures Inside(entries, srcs, b)
  {
    var src := srcs[a.pkg];
    var name, root :| Promised(entries, srcs, Sym(a.pkg, name)) && ShowsThrough(src, name, root, a.name);
    if IsHidden(src.locals, r) {
      assert Leads(src.locals, a.name, r.name);
      ReachesEnd(src.locals, root.name, a.name, r.name);
      assert ShowsThrough(src, name, root, r.name);
    } else {
      var seen := r.(via := root.name);
      ExpandMembers(src.locals, root, seen);
      ThroughMembers(src.locals, src.syms[name].refs, seen);
      assert seen in Census(src)[name].refs;
      ViaIsNotJudged(mod, entries, srcs, a.pkg, r, root.name);
      CleanNames(mod, entries, srcs, a.pkg, r, b);
    }
  }

  lemma {:induction false} CleanKeepsInside(mod: string, entries: seq<Entry>, srcs: Sources, p: seq<Node>)
    requires DistinctPackages(entries) && AllClean(mod, entries, srcs) && IsChain(mod, srcs, p) && Promised(entries, srcs, p[0])
    ensures Inside(entries, srcs, p[|p| - 1])
  {
    if |p| > 1 {
      var init := p[..|p| - 1];
      forall i | 0 <= i < |init| - 1 ensures Names(mod, srcs, init[i], init[i + 1]) {
        assert Names(mod, srcs, p[i], p[i + 1]);
      }
      CleanKeepsInside(mod, entries, srcs, init);
      var a, b := p[|p| - 2], p[|p| - 1];
      assert Names(mod, srcs, p[|p| - 2], p[|p| - 2 + 1]);
      var r :| r in Shown(srcs, a) && RefNames(mod, srcs, a.pkg, r, b);
      if a.Sym? {
        StepFromSymbol(mod, entries, srcs, a, r, b);
      } else {
        StepFromLocal(mod, entries, srcs, a, r, b);
      }
    }
  }

  // A leak is a run that leaves the promise

  /** A run of hidden types is a run of references. */
  lemma {:induction false} RunIsChain(mod: string, srcs: Sources, pkg: string, run: seq<string>) returns (p: seq<Node>)
    requires pkg in srcs && IsRun(srcs[pkg].locals, run)
    ensures |p| == |run| && IsChain(mod, srcs, p)
    ensures forall i | 0 <= i < |run| :: p[i] == Local(pkg, run[i])
  {
    var l := srcs[pkg].locals;
    p := seq(|run|, i requires 0 <= i < |run| => Local(pkg, run[i]));
    forall i | 0 <= i < |p| - 1 ensures Names(mod, srcs, p[i], p[i + 1]) {
      assert Leads(l, run[i], run[i + 1]);
      var r :| r in l.shows[run[i]] && IsHidden(l, r) && r.name == run[i + 1];
      assert RefNames(mod, srcs, pkg, r, p[i + 1]);
    }
  }

  lemma ChainGrows(mod: string, srcs: Sources, p: seq<Node>, b: Node)
    requires IsChain(mod, srcs, p) && Names(mod, srcs, p[|p| - 1], b)
    ensures IsChain(mod, srcs, p + [b])
  {
    var q := p + [b];
    forall i | 0 <= i < |q| - 1 ensures Names(mod, srcs, q[i], q[i + 1]) {
      if i < |p| - 1 {
        assert Names(mod, srcs, p[i], p[i + 1]);
      }
    }
  }

  lemma ChainStarts(mod: string, srcs: Sources, a: Node, p: seq<Node>)
    requires IsChain(mod, srcs, p) && Names(mod, srcs, a, p[0])
    ensures IsChain(mod, srcs, [a] + p)
  {
    var q := [a] + p;
    forall i | 0 <= i < |q| - 1 ensures Names(mod, srcs, q[i], q[i + 1]) {
      if i > 0 {
        assert Names(mod, srcs, p[i - 1], p[i - 1 + 1]);
        assert q[i] == p[i - 1] && q[i + 1] == p[i];
      }
    }
  }

  /** What a followed reference that breaks the promise names. */
  function BrokenName(mod: string, pkg: string, r: Ref): Node {
    match TargetOf(mod, pkg, r)
    case In(target) => Sym(target, r.name)
    case _ => Lost
  }

  /** Through the hidden types a run passes, to what the last of them shows. */
  lemma LeavesThrough(mod: string, entries: seq<Entry>, srcs: Sources, a: Node, root: Ref, run: seq<string>, s: Ref, b: Node)
    returns (p: seq<Node>)
    requires a.Sym? && a.pkg in srcs && root in Shown(srcs, a) && IsHidden(srcs[a.pkg].locals, root)
    requires IsRun(srcs[a.pkg].locals, run) && run[0] == root.name
    requires s in Shown(srcs, Local(a.pkg, run[|run| - 1])) && RefNames(mod, srcs, a.pkg, s, b)
    ensures IsChain(mod, srcs, p) && p[0] == a && p[|p| - 1] == b
  {
    var q := RunIsChain(mod, srcs, a.pkg, run);
    assert RefNames(mod, srcs, a.pkg, root, q[0]);
    assert Names(mod, srcs, a, q[0]);
    assert Names(mod, srcs, q[|q| - 1], b);
    ChainGrows(mod, srcs, q, b);
    ChainStarts(mod, srcs, a, q + [b]);
    p := [a] + (q + [b]);
  }

  lemma LeavesAtOnce(mod: string, srcs: Sources, a: Node, r: Ref, b: Node) returns (p: seq<Node>)
    requires a.Sym? && r in Shown(srcs, a) && RefNames(mod, srcs, a.pkg, r, b)
    ensures IsChain(mod, srcs, p) && p[0] == a && p[|p| - 1] == b
  {
    p := [a, b];
    assert Names(mod, srcs, p[0], p[0 + 1]);
  }

  /** What a symbol shows a host comes from one reference in its signature,
      through a run of hidden types when that one is hidden. */
  lemma Origin(l: Locals, refs: seq<Ref>, x: Ref) returns (root: Ref, run: seq<string>, s: Ref)
    requires x in ThroughHidden(l, refs)
    ensures root in refs && !IsHidden(l, s) && (x == s || x == s.(via := root.name))
    ensures if IsHidden(l, root) then
        IsRun(l, run) && run[0] == root.name && run[|run| - 1] in l.shows && s in l.shows[run[|run| - 1]]
      else s == root
  {
    ThroughMembers(l, refs, x);
    root :| root in refs && x in Expand(l, root);
    ExpandMembers(l, root, x);
    if !IsHidden(l, root) {
      run, s := [], root;
    } else {
      var t;
      t, s :| t in l.shows && Reaches(l, root.name, t) && s in l.shows[t] && !IsHidden(l, s) && x == s.(via := root.name);
      run :| IsRun(l, run) && run[0] == root.name && run[|run| - 1] == t;
    }
  }

  lemma LeakLeaves(mod: string, entries: seq<Entry>, srcs: Sources, pkg: string, name: string, x: Ref) returns (p: seq<Node>)
    requires DistinctPackages(entries) && Promised(entries, srcs, Sym(pkg, name)) && x in Census(srcs[pkg])[name].refs
    requires Breaking(mod, pkg, x, entries, CensusAll(srcs))
    ensures IsChain(mod, srcs, p) && p[0] == Sym(pkg, name)
    ensures !IsPromiseOrLocal(entries, srcs, p[|p| - 1])
  {
    var l := srcs[pkg].locals;
    var b := BrokenName(mod, pkg, x);
    var root, run, s := Origin(l, srcs[pkg].syms[name].refs, x);
    if x != s {
      ViaIsNotJudged(mod, entries, srcs, pkg, s, root.name);
      assert TargetOf(mod, pkg, s) == TargetOf(mod, pkg, x);
    }
    BrokenIsNamed(mod, srcs, pkg, s);
    CleanNames(mod, entries, srcs, pkg, s, b);
    if !IsHidden(l, root) {
      p := LeavesAtOnce(mod, srcs, Sym(pkg, name), root, b);
    } else {
      p := LeavesThrough(mod, entries, srcs, Sym(pkg, name), root, run, s, b);
    }
  }

  /** The closure check reports no leak if and only if no run of references
      from a promised symbol, through any chain of unexported local types,
      reaches a name that is marked, unlisted, listed unstable, not exported, or
      that no import resolves. */
  lemma CleanReportIsPromise(mod: string, entries: seq<Entry>, srcs: Sources)
    requires DistinctPackages(entries)
    ensures CheckEntries(mod, entries, entries, CensusAll(srcs)).leaks == [] <==> PromiseHolds(mod, entries, srcs)
  {
    CleanReportIsClean(mod, entries, srcs);
    if AllClean(mod, entries, srcs) {
      forall p | IsChain(mod, srcs, p) && Promised(entries, srcs, p[0])
        ensures IsPromiseOrLocal(entries, srcs, p[|p| - 1])
      {
        CleanKeepsInside(mod, entries, srcs, p);
      }
    } else {
      var pkg, name, r :| Promised(entries, srcs, Sym(pkg, name)) && r in Census(srcs[pkg])[name].refs &&
        Breaking(mod, pkg, r, entries, CensusAll(srcs));
      var p := LeakLeaves(mod, entries, srcs, pkg, name, r);
    }
  }
}
