/** Counting the breaks since a ref, twice: breaksSince and breakCount of
    cmd/terva-apidiff/notes.go for the page, and the totals of sinceReport in
    snapshot.go for the report. classAt decides the class of a package that has
    no manifest line of its own. */
module Tally {
  import opened Text
  import opened Api
  import opened Diff
  import Closure

  // Classes

  /** path.Dir of a clean path. */
  function ParentDir(path: string): string {
    match LastIndexOf(path, '/')
    case None => "."
    case Some(i) => if i == 0 then "/" else path[..i]
  }

  predicate IsRoot(path: string) {
    path == "." || path == "/"
  }

  /** The path and the directories above it, short of the root. */
  function Owners(path: string): seq<string>
    decreases |path|
  {
    if IsRoot(path) || |ParentDir(path)| >= |path| then (if IsRoot(path) then [] else [path])
    else [path] + Owners(ParentDir(path))
  }

  function FirstClass(entries: seq<Entry>, owners: seq<string>): Option<Class> {
    if owners == [] then None
    else
      match Closure.ClassOf(entries, owners[0])
      case Some(c) => Some(c)
      case None => FirstClass(entries, owners[1..])
  }

  method ClassMap(entries: seq<Entry>) returns (classes: map<string, Class>)
    ensures forall path :: Closure.ClassOf(entries, path) == if path in classes then Some(classes[path]) else None
  {
    classes := map[];
    for i := 0 to |entries|
      invariant forall path :: Closure.ClassOf(entries[..i], path) == if path in classes then Some(classes[path]) else None
    {
      assert entries[..i + 1][..i] == entries[..i];
      classes := classes[entries[i].pkg := entries[i].cls];
    }
    assert entries[..|entries|] == entries;
  }

  lemma ParentShorter(path: string)
    ensures |ParentDir(path)| >= |path| ==> IsRoot(ParentDir(path))
  {
  }

  // The nearest line

  /** o is the path or a directory above it, short of the root. */
  ghost predicate IsOwner(path: string, o: string) {
    !IsRoot(path) && !IsRoot(o) && (o == path || (o != "" && o + "/" <= path))
  }

  /** The last line for the path gives it the class. */
  ghost predicate IsListed(entries: seq<Entry>, path: string, cls: Class) {
    exists i :: 0 <= i < |entries| && entries[i] == Entry(path, cls) && forall j | i < j < |entries| :: entries[j].pkg != path
  }

  /** The line for o gives the class, and none stands nearer. */
  ghost predicate Decides(entries: seq<Entry>, path: string, o: string, cls: Class) {
    IsOwner(path, o) && IsListed(entries, o, cls) &&
    forall near, d | IsOwner(path, near) && |near| > |o| :: !IsListed(entries, near, d)
  }

  /** The class is that of the nearest owner with a line, None without one. */
  ghost predicate IsNearest(entries: seq<Entry>, path: string, cls: Option<Class>) {
    match cls
    case None => forall o, c | IsOwner(path, o) :: !IsListed(entries, o, c)
    case Some(c) => exists o :: Decides(entries, path, o, c)
  }

  lemma {:induction false} LastLineDecides(entries: seq<Entry>, path: string, cls: Class)
    ensures Closure.ClassOf(entries, path) == Some(cls) <==> IsListed(entries, path, cls)
  {
    if entries != [] {
      var init, last := entries[..|entries| - 1], entries[|entries| - 1];
      LastLineDecides(init, path, cls);
      if last.pkg == path {
        assert last == Entry(path, last.cls) && entries[|entries| - 1] == last;
      } else {
        if IsListed(init, path, cls) {
          var i :| 0 <= i < |init| && init[i] == Entry(path, cls) && forall j | i < j < |init| :: init[j].pkg != path;
          assert entries[i] == Entry(path, cls) && forall j | i < j < |init| :: entries[j] == init[j];
        }
        if IsListed(entries, path, cls) {
          var i :| 0 <= i < |entries| && entries[i] == Entry(path, cls) && forall j | i < j < |entries| :: entries[j].pkg != path;
          assert init[i] == Entry(path, cls) && forall j | i < j < |init| :: entries[j] == init[j];
        }
      }
    }
  }

  /** What lies above the parent lies above the path, and nothing between. */
  lemma OwnersOfParent(path: string, o: string)
    requires !IsRoot(path)
    ensures IsOwner(path, o) <==> o == path || IsOwner(ParentDir(path), o)
  {
    var parent := ParentDir(path);
    match LastIndexOf(path, '/')
    case None =>
      assert forall k | 0 <= k < |path| :: path[k] != '/';
      assert (o + "/")[|o|] == '/';
    case Some(i) =>
      assert forall k | i < k < |path| :: path[k] == path[i + 1..][k - i - 1] && path[k] != '/';
      assert (o + "/")[|o|] == '/';
      if o != "" && o + "/" <= path && 0 < |o| < i {
        assert o + "/" <= path[..i];
      }
      if i > 0 && o == path[..i] {
        assert o + "/" == path[..i + 1];
      }
  }

  lemma {:induction false} OwnersAre(path: string, o: string)
    ensures o in Owners(path) <==> IsOwner(path, o)
    decreases |path|
  {
    if !IsRoot(path) {
      OwnersOfParent(path, o);
      var parent := ParentDir(path);
      ParentShorter(path);
      if |parent| < |path| {
        OwnersAre(parent, o);
      }
    }
  }

  predicate Nested(owners: seq<string>) {
    forall i, j | 0 <= i < j < |owners| :: |owners[i]| > |owners[j]|
  }

  lemma {:induction false} OwnersNest(path: string)
    ensures Nested(Owners(path)) && forall o | o in Owners(path) :: |o| <= |path|
    decreases |path|
  {
    if !IsRoot(path) && |ParentDir(path)| < |path| {
      OwnersNest(ParentDir(path));
    }
  }

  lemma {:induction false} FirstIsNearest(entries: seq<Entry>, owners: seq<string>) returns (i: nat)
    requires Nested(owners) && FirstClass(entries, owners).Some?
    ensures i < |owners| && Closure.ClassOf(entries, owners[i]) == FirstClass(entries, owners)
    ensures forall o | o in owners && |o| > |owners[i]| :: Closure.ClassOf(entries, o).None?
  {
    if Closure.ClassOf(entries, owners[0]).Some? {
      i := 0;
      assert forall o | o in owners :: |o| <= |owners[0]|;
    } else {
      i := FirstIsNearest(entries, owners[1..]);
      i := i + 1;
      assert owners == [owners[0]] + owners[1..];
    }
  }

  /** The class of a path is that of its own line, or else of the line for the
      nearest directory above it, short of the root. */
  lemma ClassIsNearest(entries: seq<Entry>, path: string)
    ensures IsNearest(entries, path, FirstClass(entries, Owners(path)))
  {
    forall o ensures o in Owners(path) <==> IsOwner(path, o) {
      OwnersAre(path, o);
    }
    forall o, c ensures Closure.ClassOf(entries, o) == Some(c) <==> IsListed(entries, o, c) {
      LastLineDecides(entries, o, c);
    }
    OwnersNest(path);
    if FirstClass(entries, Owners(path)).Some? {
      var i := FirstIsNearest(entries, Owners(path));
      assert Owners(path)[i] in Owners(path);
      assert Decides(entries, path, Owners(path)[i], FirstClass(entries, Owners(path)).value);
    } else {
      NoClassNoLine(entries, Owners(path));
    }
  }

  lemma {:induction false} NoClassNoLine(entries: seq<Entry>, owners: seq<string>)
    requires FirstClass(entries, owners).None?
    ensures forall o | o in owners :: Closure.ClassOf(entries, o).None?
  {
    if owners != [] {
      NoClassNoLine(entries, owners[1..]);
      assert owners == [owners[0]] + owners[1..];
    }
  }

  lemma OneDecides(entries: seq<Entry>, path: string, p: string, c: Class, q: string, d: Class)
    requires Decides(entries, path, p, c) && Decides(entries, path, q, d)
    ensures c == d
  {
    assert p == path[..|p|] && q == path[..|q|];
    LastLineDecides(entries, p, c);
    LastLineDecides(entries, p, d);
  }

  /** There is one such class. */
  lemma NearestUnique(entries: seq<Entry>, path: string, a: Option<Class>, b: Option<Class>)
    requires IsNearest(entries, path, a) && IsNearest(entries, path, b)
    ensures a == b
  {
    if a.Some? && b.Some? {
      var p :| Decides(entries, path, p, a.value);
      var q :| Decides(entries, path, q, b.value);
      OneDecides(entries, path, p, a.value, q, b.value);
    }
  }

  /** classAt: the class of the nearest listed owner. */
  method ClassAt(entries: seq<Entry>, pkg: string) returns (cls: Option<Class>)
    ensures IsNearest(entries, pkg, cls) && cls == FirstClass(entries, Owners(pkg))
  {
    ClassIsNearest(entries, pkg);
    var classes := ClassMap(entries);
    var owner := pkg;
    while !IsRoot(owner)
      invariant FirstClass(entries, Owners(pkg)) == FirstClass(entries, Owners(owner))
      decreases if IsRoot(owner) then 0 else |owner| + 1
    {
      ParentShorter(owner);
      if owner in classes {
        return Some(classes[owner]);
      }
      owner := ParentDir(owner);
    }
    return None;
  }

  lemma {:induction false} OwnersAreNoRoots(path: string)
    ensures forall i | 0 <= i < |Owners(path)| :: !IsRoot(Owners(path)[i])
    decreases |path|
  {
    if !IsRoot(path) && |ParentDir(path)| < |path| {
      OwnersAreNoRoots(ParentDir(path));
    }
  }

  /** Without the manifest lines for the root. */
  function WithoutRoots(entries: seq<Entry>): seq<Entry> {
    if entries == [] then []
    else
      var last := entries[|entries| - 1];
      WithoutRoots(entries[..|entries| - 1]) + if IsRoot(last.pkg) then [] else [last]
  }

  lemma {:induction false} RootsGiveNothing(entries: seq<Entry>, path: string)
    requires !IsRoot(path)
    ensures Closure.ClassOf(WithoutRoots(entries), path) == Closure.ClassOf(entries, path)
  {
    if entries != [] {
      var init, last := entries[..|entries| - 1], entries[|entries| - 1];
      RootsGiveNothing(init, path);
      if !IsRoot(last.pkg) {
        assert (WithoutRoots(init) + [last])[..|WithoutRoots(init)|] == WithoutRoots(init);
      } else {
        assert WithoutRoots(init) + [] == WithoutRoots(init);
      }
    }
  }

  lemma {:induction false} RootsChangeNothing(entries: seq<Entry>, owners: seq<string>)
    requires forall i | 0 <= i < |owners| :: !IsRoot(owners[i])
    ensures FirstClass(WithoutRoots(entries), owners) == FirstClass(entries, owners)
  {
    if owners != [] {
      RootsGiveNothing(entries, owners[0]);
      RootsChangeNothing(entries, owners[1..]);
    }
  }

  /** A manifest line for the root claims nothing. */
  lemma RootLineNeverMatches(entries: seq<Entry>, pkg: string)
    ensures FirstClass(WithoutRoots(entries), Owners(pkg)) == FirstClass(entries, Owners(pkg))
  {
    OwnersAreNoRoots(pkg);
    RootsChangeNothing(entries, Owners(pkg));
  }

  lemma {:induction false} ClassIsListed(entries: seq<Entry>, path: string)
    ensures Closure.ClassOf(entries, path).Some? <==> exists e :: e in entries && e.pkg == path
  {
    if entries != [] {
      var init, last := entries[..|entries| - 1], entries[|entries| - 1];
      ClassIsListed(init, path);
      assert entries == init + [last];
    }
  }

  /** A package has a class exactly when a line lists it or a directory above it,
      the root aside. */
  lemma {:induction false} ClassNeedsOwner(entries: seq<Entry>, owners: seq<string>)
    ensures FirstClass(entries, owners).Some? <==> exists e :: e in entries && e.pkg in owners
  {
    if owners != [] {
      ClassIsListed(entries, owners[0]);
      ClassNeedsOwner(entries, owners[1..]);
      assert owners == [owners[0]] + owners[1..];
    }
  }

  // Breaks

  /** One package's diff since the ref. now and was are its classes, None when
      nothing claims it. */
  datatype SincePkg = SincePkg(pkg: string, now: Option<Class>, was: Option<Class>, diff: Diff.Report)

  datatype Breakage = Breakage(pkg: string, name: string, kind: string, cls: Option<Class>, removed: bool)

  /** A marker at the ref took the symbol out of its package's promise. */
  function BreakClass(pkgClass: Option<Class>, marked: bool): Option<Class> {
    if marked then Some(Unstable) else pkgClass
  }

  function RemovedBreaks(p: SincePkg, list: seq<Symbol>): seq<Breakage> {
    if list == [] then []
    else
      var s := list[|list| - 1];
      RemovedBreaks(p, list[..|list| - 1]) + [Breakage(p.pkg, s.name, s.kind, BreakClass(p.was, s.unstable), true)]
  }

  function ChangedBreaks(p: SincePkg, list: seq<Change>): seq<Breakage> {
    if list == [] then []
    else
      var c := list[|list| - 1];
      ChangedBreaks(p, list[..|list| - 1]) +
      [Breakage(p.pkg, c.symbol.name, c.symbol.kind, BreakClass(p.was, c.wasUnstable), false)]
  }

  function BreaksOf(p: SincePkg): seq<Breakage> {
    RemovedBreaks(p, p.diff.removed) + ChangedBreaks(p, p.diff.changed)
  }

  function BreaksSince(pkgs: seq<SincePkg>): seq<Breakage> {
    if pkgs == [] then [] else BreaksSince(pkgs[..|pkgs| - 1]) + BreaksOf(pkgs[|pkgs| - 1])
  }

  method ListBreaks(pkgs: seq<SincePkg>) returns (out: seq<Breakage>)
    ensures out == BreaksSince(pkgs)
  {
    out := [];
    for i := 0 to |pkgs|
      invariant out == BreaksSince(pkgs[..i])
    {
      assert pkgs[..i + 1][..i] == pkgs[..i];
      var removed := ListRemoved(pkgs[i]);
      var changed := ListChanged(pkgs[i]);
      out := out + (removed + changed);
    }
    assert pkgs[..|pkgs|] == pkgs;
  }

  method ListRemoved(p: SincePkg) returns (out: seq<Breakage>)
    ensures out == RemovedBreaks(p, p.diff.removed)
  {
    out := [];
    var list := p.diff.removed;
    for j := 0 to |list|
      invariant out == RemovedBreaks(p, list[..j])
    {
      assert list[..j + 1][..j] == list[..j];
      out := out + [Breakage(p.pkg, list[j].name, list[j].kind, BreakClass(p.was, list[j].unstable), true)];
    }
    assert list[..|list|] == list;
  }

  method ListChanged(p: SincePkg) returns (out: seq<Breakage>)
    ensures out == ChangedBreaks(p, p.diff.changed)
  {
    out := [];
    var list := p.diff.changed;
    for j := 0 to |list|
      invariant out == ChangedBreaks(p, list[..j])
    {
      assert list[..j + 1][..j] == list[..j];
      var c := list[j];
      out := out + [Breakage(p.pkg, c.symbol.name, c.symbol.kind, BreakClass(p.was, c.wasUnstable), false)];
    }
    assert list[..|list|] == list;
  }

  // Counts

  predicate Is(b: Breakage, cls: Option<Class>, removed: bool) {
    b.cls == cls && b.removed == removed
  }

  function Count(breaks: seq<Breakage>, cls: Option<Class>, removed: bool): nat {
    if breaks == [] then 0
    else Count(breaks[..|breaks| - 1], cls, removed) + if Is(breaks[|breaks| - 1], cls, removed) then 1 else 0
  }

  lemma {:induction false} CountConcat(a: seq<Breakage>, b: seq<Breakage>, cls: Option<Class>, removed: bool)
    ensures Count(a + b, cls, removed) == Count(a, cls, removed) + Count(b, cls, removed)
  {
    if b == [] {
      assert a + b == a;
    } else {
      assert (a + b)[..|a + b| - 1] == a + b[..|b| - 1];
      CountConcat(a, b[..|b| - 1], cls, removed);
    }
  }

  function CountIn(pkgClass: Option<Class>, list: seq<Symbol>, cls: Class): nat {
    if list == [] then 0
    else
      CountIn(pkgClass, list[..|list| - 1], cls) +
      if BreakClass(pkgClass, list[|list| - 1].unstable) == Some(cls) then 1 else 0
  }

  function CountChanges(was: Option<Class>, list: seq<Change>, cls: Class): nat {
    if list == [] then 0
    else
      CountChanges(was, list[..|list| - 1], cls) +
      if BreakClass(was, list[|list| - 1].wasUnstable) == Some(cls) then 1 else 0
  }

  /** The package adds to the count of this class. */
  predicate Touches(p: SincePkg, cls: Class) {
    p.was == Some(cls) || Count(BreaksOf(p), Some(cls), true) > 0 || Count(BreaksOf(p), Some(cls), false) > 0 ||
    CountIn(p.now, p.diff.added, cls) > 0
  }

  datatype Tally = Tally(removed: nat, changed: nat, added: nat, pkgs: nat)

  /** A class's totals with one more package. */
  function AddTally(t: Tally, p: SincePkg, cls: Class): Tally {
    Tally(t.removed + Count(BreaksOf(p), Some(cls), true), t.changed + Count(BreaksOf(p), Some(cls), false),
          t.added + CountIn(p.now, p.diff.added, cls), t.pkgs + if Touches(p, cls) then 1 else 0)
  }

  /** What a class's totals come to. */
  function TallyOf(pkgs: seq<SincePkg>, cls: Class): Tally {
    if pkgs == [] then Tally(0, 0, 0, 0) else AddTally(TallyOf(pkgs[..|pkgs| - 1], cls), pkgs[|pkgs| - 1], cls)
  }

  /** A package whose class is unknown has no totals to add to. */
  predicate Counted(p: SincePkg) {
    p.was.Some? && (p.now.Some? || forall i | 0 <= i < |p.diff.added| :: p.diff.added[i].unstable)
  }

  /** A package listed now: its class at the ref is its own now when it had no
      source there or nothing claimed it. */
  function ListedSince(e: Entry, base: Option<seq<Entry>>, source: bool, diff: Diff.Report): SincePkg {
    var was := if base.Some? then FirstClass(base.value, Owners(e.pkg)) else None;
    SincePkg(e.pkg, Some(e.cls), if was.Some? && source then was else Some(e.cls), diff)
  }

  /** A package gone since the ref: the manifest there gives its class, and
      without one the manifest of now. */
  function GoneSince(pkg: string, base: Option<seq<Entry>>, entries: seq<Entry>, diff: Diff.Report): SincePkg {
    var cls := FirstClass(Claims(base, entries), Owners(pkg));
    SincePkg(pkg, cls, cls, diff)
  }

  function Claims(base: Option<seq<Entry>>, entries: seq<Entry>): seq<Entry> {
    match base
    case Some(claims) => claims
    case None => entries
  }

  /** A listed package is always counted, and a gone one exactly when a line
      claims it or a directory above it, the root aside. */
  lemma CountedWhenOwned(e: Entry, pkg: string, base: Option<seq<Entry>>, entries: seq<Entry>, source: bool, diff: Diff.Report)
    ensures Counted(ListedSince(e, base, source, diff))
    ensures Counted(GoneSince(pkg, base, entries, diff)) <==>
            exists claim :: claim in Claims(base, entries) && IsOwner(pkg, claim.pkg)
  {
    ClassNeedsOwner(Claims(base, entries), Owners(pkg));
    forall o ensures o in Owners(pkg) <==> IsOwner(pkg, o) {
      OwnersAre(pkg, o);
    }
  }

  /** When the lines are for the root alone, no gone package is counted: the
      report crashes on the first. */
  lemma RootLinesCountNothing(pkg: string, base: Option<seq<Entry>>, entries: seq<Entry>, diff: Diff.Report)
    requires forall claim | claim in Claims(base, entries) :: IsRoot(claim.pkg)
    ensures !Counted(GoneSince(pkg, base, entries, diff))
  {
    CountedWhenOwned(Entry(pkg, Stable), pkg, base, entries, true, diff);
  }

  // The report

  /** The totals of the two classes. */
  class Totals {
    var stable: Tally
    var unstable: Tally

    constructor ()
      ensures Of(Stable) == Of(Unstable) == Tally(0, 0, 0, 0)
    {
      stable, unstable := Tally(0, 0, 0, 0), Tally(0, 0, 0, 0);
    }

    function Of(cls: Class): Tally
      reads this
    {
      if cls.Stable? then stable else unstable
    }

    method Set(cls: Class, t: Tally)
      modifies this
      ensures forall c :: Of(c) == if c == cls then t else old(Of(c))
    {
      if cls.Stable? {
        stable := t;
      } else {
        unstable := t;
      }
    }

    method AddRemoved(p: SincePkg) returns (crashed: bool, touched: set<Class>)
      modifies this
      ensures crashed ==> p.was.None?
      ensures !crashed ==> forall c ::
        Of(c) == old(Of(c)).(removed := old(Of(c)).removed + CountIn(p.was, p.diff.removed, c)) &&
        (c in touched <==> CountIn(p.was, p.diff.removed, c) > 0)
    {
      touched := {};
      var list := p.diff.removed;
      for i := 0 to |list|
        invariant stable == old(stable).(removed := old(stable).removed + CountIn(p.was, list[..i], Stable))
        invariant unstable == old(unstable).(removed := old(unstable).removed + CountIn(p.was, list[..i], Unstable))
        invariant Stable in touched <==> CountIn(p.was, list[..i], Stable) > 0
        invariant Unstable in touched <==> CountIn(p.was, list[..i], Unstable) > 0
      {
        assert list[..i + 1][..i] == list[..i];
        var cls := BreakClass(p.was, list[i].unstable);
        if cls.None? {
          return true, touched;
        }
        touched := touched + {cls.value};
        if cls.value.Stable? {
          stable := stable.(removed := stable.removed + 1);
        } else {
          unstable := unstable.(removed := unstable.removed + 1);
        }
      }
      assert list[..|list|] == list;
      crashed := false;
    }

    method AddChanged(p: SincePkg) returns (crashed: bool, touched: set<Class>)
      modifies this
      ensures crashed ==> p.was.None?
      ensures !crashed ==> forall c ::
        Of(c) == old(Of(c)).(changed := old(Of(c)).changed + CountChanges(p.was, p.diff.changed, c)) &&
        (c in touched <==> CountChanges(p.was, p.diff.changed, c) > 0)
    {
      touched := {};
      var list := p.diff.changed;
      for i := 0 to |list|
        invariant stable == old(stable).(changed := old(stable).changed + CountChanges(p.was, list[..i], Stable))
        invariant unstable == old(unstable).(changed := old(unstable).changed + CountChanges(p.was, list[..i], Unstable))
        invariant Stable in touched <==> CountChanges(p.was, list[..i], Stable) > 0
        invariant Unstable in touched <==> CountChanges(p.was, list[..i], Unstable) > 0
      {
        assert list[..i + 1][..i] == list[..i];
        var cls := BreakClass(p.was, list[i].wasUnstable);
        if cls.None? {
          return true, touched;
        }
        touched := touched + {cls.value};
        if cls.value.Stable? {
          stable := stable.(changed := stable.changed + 1);
        } else {
          unstable := unstable.(changed := unstable.changed + 1);
        }
      }
      assert list[..|list|] == list;
      crashed := false;
    }

    method AddAdded(p: SincePkg) returns (crashed: bool, touched: set<Class>)
      modifies this
      ensures crashed <==> p.now.None? && exists i :: 0 <= i < |p.diff.added| && !p.diff.added[i].unstable
      ensures !crashed ==> forall c ::
        Of(c) == old(Of(c)).(added := old(Of(c)).added + CountIn(p.now, p.diff.added, c)) &&
        (c in touched <==> CountIn(p.now, p.diff.added, c) > 0)
    {
      touched := {};
      var list := p.diff.added;
      for i := 0 to |list|
        invariant stable == old(stable).(added := old(stable).added + CountIn(p.now, list[..i], Stable))
        invariant unstable == old(unstable).(added := old(unstable).added + CountIn(p.now, list[..i], Unstable))
        invariant Stable in touched <==> CountIn(p.now, list[..i], Stable) > 0
        invariant Unstable in touched <==> CountIn(p.now, list[..i], Unstable) > 0
        invariant p.now.None? ==> forall j | 0 <= j < i :: list[j].unstable
      {
        assert list[..i + 1][..i] == list[..i];
        var cls := BreakClass(p.now, list[i].unstable);
        if cls.None? {
          return true, touched;
        }
        touched := touched + {cls.value};
        if cls.value.Stable? {
          stable := stable.(added := stable.added + 1);
        } else {
          unstable := unstable.(added := unstable.added + 1);
        }
      }
      assert list[..|list|] == list;
      crashed := false;
    }

    /** One package, symbol by symbol. A class that has no totals is a nil entry
        of the map, and the report crashes on it. */
    method CountPackage(p: SincePkg) returns (crashed: bool)
      modifies this
      ensures crashed <==> !Counted(p)
      ensures !crashed ==> forall c :: Of(c) == AddTally(old(Of(c)), p, c)
    {
      var touched, more: set<Class>;
      crashed, touched := AddRemoved(p);
      if crashed {
        return;
      }
      crashed, more := AddChanged(p);
      if crashed {
        return;
      }
      touched := touched + more;
      crashed, more := AddAdded(p);
      if crashed || p.was.None? {
        return true;
      }
      touched := touched + more + {p.was.value};
      forall c ensures c in touched <==> Touches(p, c) {
        CountsOf(p, c);
      }
      CountTouched(touched);
      forall c ensures Of(c) == AddTally(old(Of(c)), p, c) {
        CountsOf(p, c);
      }
    }

    /** A package counts once in each class it adds to. */
    method CountTouched(touched: set<Class>)
      modifies this
      ensures forall c :: Of(c) == old(Of(c)).(pkgs := old(Of(c)).pkgs + if c in touched then 1 else 0)
    {
      var left := touched;
      while left != {}
        invariant left <= touched
        invariant forall c :: Of(c) == old(Of(c)).(pkgs := old(Of(c)).pkgs + if c in touched && c !in left then 1 else 0)
        decreases left
      {
        var c :| c in left;
        left := left - {c};
        Set(c, Of(c).(pkgs := Of(c).pkgs + 1));
      }
    }
  }

  lemma {:induction false} RemovedCounts(p: SincePkg, list: seq<Symbol>, cls: Class)
    ensures Count(RemovedBreaks(p, list), Some(cls), true) == CountIn(p.was, list, cls)
    ensures Count(RemovedBreaks(p, list), Some(cls), false) == 0
  {
    if list != [] {
      RemovedCounts(p, list[..|list| - 1], cls);
    }
  }

  lemma {:induction false} ChangedCounts(p: SincePkg, list: seq<Change>, cls: Class)
    ensures Count(ChangedBreaks(p, list), Some(cls), false) == CountChanges(p.was, list, cls)
    ensures Count(ChangedBreaks(p, list), Some(cls), true) == 0
  {
    if list != [] {
      ChangedCounts(p, list[..|list| - 1], cls);
    }
  }

  /** The report counts each list apart, the page one list of both. */
  lemma CountsOf(p: SincePkg, cls: Class)
    ensures Count(BreaksOf(p), Some(cls), true) == CountIn(p.was, p.diff.removed, cls)
    ensures Count(BreaksOf(p), Some(cls), false) == CountChanges(p.was, p.diff.changed, cls)
  {
    var removed, changed := RemovedBreaks(p, p.diff.removed), ChangedBreaks(p, p.diff.changed);
    CountConcat(removed, changed, Some(cls), true);
    CountConcat(removed, changed, Some(cls), false);
    RemovedCounts(p, p.diff.removed, cls);
    ChangedCounts(p, p.diff.changed, cls);
  }

  /** The totals of sinceReport, None when it crashes. */
  method SinceTotals(pkgs: seq<SincePkg>) returns (r: Option<(Tally, Tally)>)
    ensures r.Some? <==> forall i | 0 <= i < |pkgs| :: Counted(pkgs[i])
    ensures r.Some? ==> r.value == (TallyOf(pkgs, Stable), TallyOf(pkgs, Unstable))
  {
    var totals := new Totals();
    for i := 0 to |pkgs|
      invariant fresh(totals)
      invariant forall j | 0 <= j < i :: Counted(pkgs[j])
      invariant forall c :: totals.Of(c) == TallyOf(pkgs[..i], c)
    {
      assert pkgs[..i + 1][..i] == pkgs[..i];
      var crashed := totals.CountPackage(pkgs[i]);
      if crashed {
        return None;
      }
    }
    assert pkgs[..|pkgs|] == pkgs;
    return Some((totals.Of(Stable), totals.Of(Unstable)));
  }

  // The sentence on the page

  datatype Counts = Counts(removed: nat, changed: nat, unstable: nat)

  const NO_BREAK := ": no stable break, and "
  const UNSTABLES := " unstable break(s)."
  const STABLES := " stable break(s) ("
  const REMOVED := " removed, "
  const NOTED := " changed), each with a note below, and "

  /** The numbers of the sentence, each spelled out. */
  function Middle(spell: nat -> string, c: Counts): string {
    if c.removed + c.changed == 0 then NO_BREAK + (spell(c.unstable) + UNSTABLES)
    else
      ": " + (spell(c.removed + c.changed) + (STABLES + (spell(c.removed) + (REMOVED +
      (spell(c.changed) + (NOTED + (spell(c.unstable) + UNSTABLES)))))))
  }

  function Sentence(spell: nat -> string, c: Counts, since: string): string {
    "Since " + since + Middle(spell, c)
  }

  function CountsText(c: Counts, since: string): string {
    Sentence(Decimal, c, since)
  }

  function CountsOfBreaks(breaks: seq<Breakage>): Counts {
    Counts(Count(breaks, Some(Stable), true), Count(breaks, Some(Stable), false), Others(breaks))
  }

  /** The breaks that are not stable, whether unstable or of no class. */
  function Others(breaks: seq<Breakage>): nat {
    if breaks == [] then 0
    else Others(breaks[..|breaks| - 1]) + if breaks[|breaks| - 1].cls != Some(Stable) then 1 else 0
  }

  method CountBreaks(breaks: seq<Breakage>) returns (c: Counts)
    ensures c == CountsOfBreaks(breaks)
  {
    var removed, changed, unstable := 0, 0, 0;
    for i := 0 to |breaks|
      invariant Counts(removed, changed, unstable) == CountsOfBreaks(breaks[..i])
    {
      assert breaks[..i + 1][..i] == breaks[..i];
      var b := breaks[i];
      if b.cls != Some(Stable) {
        unstable := unstable + 1;
      } else if b.removed {
        removed := removed + 1;
      } else {
        changed := changed + 1;
      }
    }
    assert breaks[..|breaks|] == breaks;
    c := Counts(removed, changed, unstable);
  }

  // The two tallies

  lemma {:induction false} OthersConcat(a: seq<Breakage>, b: seq<Breakage>)
    ensures Others(a + b) == Others(a) + Others(b)
  {
    if b == [] {
      assert a + b == a;
    } else {
      assert (a + b)[..|a + b| - 1] == a + b[..|b| - 1];
      OthersConcat(a, b[..|b| - 1]);
    }
  }

  lemma {:induction false} OthersAreUnstable(breaks: seq<Breakage>)
    requires forall i | 0 <= i < |breaks| :: breaks[i].cls.Some?
    ensures Others(breaks) == Count(breaks, Some(Unstable), true) + Count(breaks, Some(Unstable), false)
  {
    if breaks != [] {
      OthersAreUnstable(breaks[..|breaks| - 1]);
      var cls := breaks[|breaks| - 1].cls.value;
      assert cls == Stable || cls == Unstable;
    }
  }

  lemma {:induction false} BreaksHaveClasses(p: SincePkg, removed: seq<Symbol>, changed: seq<Change>)
    requires p.was.Some?
    ensures forall i | 0 <= i < |RemovedBreaks(p, removed)| :: RemovedBreaks(p, removed)[i].cls.Some?
    ensures forall i | 0 <= i < |ChangedBreaks(p, changed)| :: ChangedBreaks(p, changed)[i].cls.Some?
  {
    if removed != [] {
      BreaksHaveClasses(p, removed[..|removed| - 1], changed);
    } else if changed != [] {
      BreaksHaveClasses(p, removed, changed[..|changed| - 1]);
    }
  }

  /** The page's count and the report's totals agree, class by class, whenever
      the report gives any. */
  lemma {:induction false} TalliesAgree(pkgs: seq<SincePkg>)
    requires forall i | 0 <= i < |pkgs| :: Counted(pkgs[i])
    ensures var c, stable, unstable := CountsOfBreaks(BreaksSince(pkgs)), TallyOf(pkgs, Stable), TallyOf(pkgs, Unstable);
      c.removed == stable.removed && c.changed == stable.changed && c.unstable == unstable.removed + unstable.changed
  {
    if pkgs != [] {
      var init, p := pkgs[..|pkgs| - 1], pkgs[|pkgs| - 1];
      TalliesAgree(init);
      var breaks := BreaksOf(p);
      CountConcat(BreaksSince(init), breaks, Some(Stable), true);
      CountConcat(BreaksSince(init), breaks, Some(Stable), false);
      OthersConcat(BreaksSince(init), breaks);
      BreaksHaveClasses(p, p.diff.removed, p.diff.changed);
      OthersAreUnstable(breaks);
    }
  }

  lemma SentenceReads(c: Counts, since: string)
    ensures c.removed + c.changed == 0 ==>
      CountsText(c, since) == "Since " + since + ": no stable break, and " + Decimal(c.unstable) + " unstable break(s)."
    ensures c.removed + c.changed > 0 ==>
      CountsText(c, since) == "Since " + since + ": " + Decimal(c.removed + c.changed) + " stable break(s) (" +
        Decimal(c.removed) + " removed, " + Decimal(c.changed) + " changed), each with a note below, and " +
        Decimal(c.unstable) + " unstable break(s)."
  {
    var all, removed, changed, unstable := Decimal(c.removed + c.changed), Decimal(c.removed), Decimal(c.changed), Decimal(c.unstable);
    Together(since, NO_BREAK, unstable, UNSTABLES);
    TogetherAll(since, all, removed, changed, unstable, ": ", STABLES, REMOVED, NOTED, UNSTABLES);
  }

  lemma Together(a: string, b: string, c: string, d: string)
    ensures "Since " + a + (b + (c + d)) == "Since " + a + b + c + d
  {
  }

  lemma TogetherAll(a: string, x: string, y: string, z: string, u: string, b: string, c: string, d: string, e: string, f: string)
    ensures "Since " + a + (b + (x + (c + (y + (d + (z + (e + (u + f)))))))) == "Since " + a + b + x + c + y + d + z + e + u + f
  {
  }
}
