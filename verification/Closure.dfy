/** The promise of a stable package: the marker and hidden-reference passes of
    census in cmd/terva-apidiff/main.go, and the closure check of closure.go. */
module Closure {
  import opened Text
  import opened Api
  import opened Hidden
  import opened Sorting

  type Symbols = map<string, Symbol>

  /** A package as it was parsed: its symbols with the references they name,
      and its unexported types. */
  datatype Source = Source(syms: Symbols, locals: Locals)

  // The marker pass

  /** The type that holds a member: the name up to its first dot. */
  function Owner(name: string): Option<string> {
    match IndexOf(name, '.')
    case None => None
    case Some(i) => Some(name[..i])
  }

  predicate OwnerMarked(syms: Symbols, name: string) {
    var owner := Owner(name);
    owner.Some? && owner.value in syms && syms[owner.value].unstable
  }

  /** A type's marker covers its members. */
  function Marked(syms: Symbols): Symbols {
    map name | name in syms :: syms[name].(unstable := syms[name].unstable || OwnerMarked(syms, name))
  }

  lemma OwnerHasNoOwner(name: string)
    requires Owner(name).Some?
    ensures Owner(Owner(name).value).None?
  {
  }

  /** The pass updates the map it ranges over, in no fixed order. */
  method MarkMembers(syms: Symbols) returns (out: Symbols)
    ensures out == Marked(syms)
  {
    out := syms;
    var left := syms.Keys;
    while left != {}
      invariant left <= syms.Keys && out.Keys == syms.Keys
      invariant forall name | name in left :: out[name] == syms[name]
      invariant forall name | name in syms && name !in left :: out[name] == Marked(syms)[name]
      decreases left
    {
      var name :| name in left;
      left := left - {name};
      if Owner(name).Some? {
        OwnerHasNoOwner(name);
      }
      assert OwnerMarked(out, name) <==> OwnerMarked(syms, name);
      if OwnerMarked(out, name) {
        out := out[name := out[name].(unstable := true)];
      }
    }
  }

  // The hidden-reference pass

  /** The census: every symbol marked, with the references a host reaches. */
  function Census(src: Source): Symbols {
    map name | name in src.syms :: Marked(src.syms)[name].(refs := ThroughHidden(src.locals, src.syms[name].refs))
  }

  method TakeCensus(src: Source) returns (out: Symbols)
    ensures out == Census(src)
  {
    out := MarkMembers(src.syms);
    ghost var marked := out;
    var left := out.Keys;
    while left != {}
      invariant left <= out.Keys && out.Keys == src.syms.Keys
      invariant forall name | name in left :: out[name] == marked[name]
      invariant forall name | name in out && name !in left :: out[name] == Census(src)[name]
      decreases left
    {
      var name :| name in left;
      left := left - {name};
      assert out[name].refs == src.syms[name].refs;
      var refs := ReplaceHidden(src.locals, out[name].refs);
      out := out[name := out[name].(refs := refs)];
    }
  }

  // Judging one reference

  const ROOT := "."

  /** Where a reference leads: outside the module, to no import, or to a package. */
  datatype Target = Outside | Unresolved | In(pkg: string)

  function TargetOf(mod: string, pkg: string, r: Ref): Target {
    if r.qual != "" && r.path == "" then Unresolved
    else if r.path == "" then In(pkg)
    else if r.path == mod then In(ROOT)
    else if HasPrefix(r.path, mod + "/") then In(r.path[|mod| + 1..])
    else Outside
  }

  datatype Why = NoImport | ListedUnstable | NotListed | NotExported | MarkedUnstable

  datatype Verdict = NotFollowed | Kept | Breaks(why: Why)

  datatype Leak = Leak(pkg: string, symbol: string, ref: Ref, why: Why)

  type Censuses = map<string, Symbols>

  /** The class the manifest gives a package; the last line for it decides. */
  function ClassOf(entries: seq<Entry>, pkg: string): Option<Class> {
    if entries == [] then None
    else
      var last := entries[|entries| - 1];
      if last.pkg == pkg then Some(last.cls) else ClassOf(entries[..|entries| - 1], pkg)
  }

  /** No package is listed twice: the manifest is refused otherwise. */
  predicate DistinctPackages(entries: seq<Entry>) {
    forall i, j | 0 <= i < j < |entries| :: entries[i].pkg != entries[j].pkg
  }

  lemma {:induction false} ClassOfEntry(entries: seq<Entry>, i: nat)
    requires DistinctPackages(entries) && i < |entries|
    ensures ClassOf(entries, entries[i].pkg) == Some(entries[i].cls)
  {
    var last := |entries| - 1;
    if i < last {
      assert entries[i].pkg != entries[last].pkg;
      ClassOfEntry(entries[..last], i);
    }
  }

  lemma {:induction false} EntryOfClass(entries: seq<Entry>, pkg: string) returns (i: nat)
    requires ClassOf(entries, pkg).Some?
    ensures i < |entries| && entries[i] == Entry(pkg, ClassOf(entries, pkg).value)
  {
    var last := |entries| - 1;
    if entries[last].pkg == pkg {
      i := last;
    } else {
      i := EntryOfClass(entries[..last], pkg);
    }
  }

  lemma ListedMeans(entries: seq<Entry>, pkg: string, c: Class)
    requires DistinctPackages(entries)
    ensures ClassOf(entries, pkg) == Some(c) <==> Entry(pkg, c) in entries
  {
    if ClassOf(entries, pkg).Some? {
      var i := EntryOfClass(entries, pkg);
      assert entries[i] in entries;
    }
    if Entry(pkg, c) in entries {
      var i :| 0 <= i < |entries| && entries[i] == Entry(pkg, c);
      ClassOfEntry(entries, i);
    }
  }

  function SymbolsOf(censuses: Censuses, pkg: string): Symbols {
    if pkg in censuses then censuses[pkg] else map[]
  }

  function LeakOf(mod: string, pkg: string, r: Ref, entries: seq<Entry>, censuses: Censuses): Verdict {
    match TargetOf(mod, pkg, r)
    case Outside => NotFollowed
    case Unresolved => Breaks(NoImport)
    case In(target) =>
      match ClassOf(entries, target)
      case None => Breaks(NotListed)
      case Some(Unstable) => Breaks(ListedUnstable)
      case Some(Stable) =>
        var syms := SymbolsOf(censuses, target);
        if r.name !in syms then Breaks(NotExported)
        else if syms[r.name].unstable then Breaks(MarkedUnstable)
        else Kept
  }

  // The check

  /** What the check reports: the leaks, and how many references it followed. */
  datatype Report = Report(leaks: seq<Leak>, followed: nat)

  function Join2(a: Report, b: Report): Report {
    Report(a.leaks + b.leaks, a.followed + b.followed)
  }

  function CheckRefs(mod: string, pkg: string, s: Symbol, refs: seq<Ref>, entries: seq<Entry>, censuses: Censuses): Report {
    if refs == [] then Report([], 0)
    else
      var rest := CheckRefs(mod, pkg, s, refs[..|refs| - 1], entries, censuses);
      var r := refs[|refs| - 1];
      match LeakOf(mod, pkg, r, entries, censuses)
      case NotFollowed => rest
      case Kept => Report(rest.leaks, rest.followed + 1)
      case Breaks(why) => Report(rest.leaks + [Leak(pkg, s.name, r, why)], rest.followed + 1)
  }

  function CheckSymbols(mod: string, pkg: string, names: seq<string>, entries: seq<Entry>, censuses: Censuses): Report {
    if names == [] then Report([], 0)
    else
      var rest := CheckSymbols(mod, pkg, names[..|names| - 1], entries, censuses);
      var name := names[|names| - 1];
      var syms := SymbolsOf(censuses, pkg);
      if name !in syms || syms[name].unstable then rest
      else Join2(rest, CheckRefs(mod, pkg, syms[name], syms[name].refs, entries, censuses))
  }

  /** The check of the manifest lines some, against the whole manifest. */
  function CheckEntries(mod: string, some: seq<Entry>, entries: seq<Entry>, censuses: Censuses): Report {
    if some == [] then Report([], 0)
    else
      var rest := CheckEntries(mod, some[..|some| - 1], entries, censuses);
      var e := some[|some| - 1];
      if e.cls.Unstable? then rest
      else Join2(rest, CheckSymbols(mod, e.pkg, SortedSet(SymbolsOf(censuses, e.pkg).Keys), entries, censuses))
  }

  method CheckClosure(mod: string, entries: seq<Entry>, censuses: Censuses) returns (leaks: seq<Leak>, followed: nat)
    ensures Report(leaks, followed) == CheckEntries(mod, entries, entries, censuses)
  {
    leaks, followed := [], 0;
    for i := 0 to |entries|
      invariant Report(leaks, followed) == CheckEntries(mod, entries[..i], entries, censuses)
    {
      var e := entries[i];
      assert entries[..i + 1][..i] == entries[..i];
      if e.cls.Unstable? {
        continue;
      }
      var found, count := CheckPackage(mod, e.pkg, entries, censuses);
      leaks, followed := leaks + found, followed + count;
    }
    assert entries[..|entries|] == entries;
  }

  method CheckPackage(mod: string, pkg: string, entries: seq<Entry>, censuses: Censuses)
    returns (leaks: seq<Leak>, followed: nat)
    ensures Report(leaks, followed) == CheckSymbols(mod, pkg, SortedSet(SymbolsOf(censuses, pkg).Keys), entries, censuses)
  {
    leaks, followed := [], 0;
    var syms := SymbolsOf(censuses, pkg);
    var names := SortedSet(syms.Keys);
    for i := 0 to |names|
      invariant Report(leaks, followed) == CheckSymbols(mod, pkg, names[..i], entries, censuses)
    {
      assert names[..i + 1][..i] == names[..i];
      assert names[i] in names;
      if syms[names[i]].unstable {
        continue;
      }
      var found, count := CheckSymbol(mod, pkg, syms[names[i]], entries, censuses);
      leaks, followed := leaks + found, followed + count;
    }
    assert names[..|names|] == names;
  }

  method CheckSymbol(mod: string, pkg: string, s: Symbol, entries: seq<Entry>, censuses: Censuses)
    returns (leaks: seq<Leak>, followed: nat)
    ensures Report(leaks, followed) == CheckRefs(mod, pkg, s, s.refs, entries, censuses)
  {
    leaks, followed := [], 0;
    for j := 0 to |s.refs|
      invariant Report(leaks, followed) == CheckRefs(mod, pkg, s, s.refs[..j], entries, censuses)
    {
      assert s.refs[..j + 1][..j] == s.refs[..j];
      match LeakOf(mod, pkg, s.refs[j], entries, censuses) {
        case NotFollowed =>
        case Kept =>
          followed := followed + 1;
        case Breaks(why) =>
          leaks, followed := leaks + [Leak(pkg, s.name, s.refs[j], why)], followed + 1;
      }
    }
    assert s.refs[..|s.refs|] == s.refs;
  }

  // What a clean report means for one reference

  predicate Breaking(mod: string, pkg: string, r: Ref, entries: seq<Entry>, censuses: Censuses) {
    LeakOf(mod, pkg, r, entries, censuses).Breaks?
  }

  lemma {:induction false} CleanRefs(mod: string, pkg: string, s: Symbol, refs: seq<Ref>, entries: seq<Entry>, censuses: Censuses)
    ensures CheckRefs(mod, pkg, s, refs, entries, censuses).leaks == [] <==>
            forall r | r in refs :: !Breaking(mod, pkg, r, entries, censuses)
  {
    if refs != [] {
      var init, r := refs[..|refs| - 1], refs[|refs| - 1];
      assert refs == init + [r];
      CleanRefs(mod, pkg, s, init, entries, censuses);
      assert r in refs;
      if Breaking(mod, pkg, r, entries, censuses) {
        assert |CheckRefs(mod, pkg, s, refs, entries, censuses).leaks| > 0;
      }
    }
  }

  predicate CleanSymbol(mod: string, pkg: string, name: string, entries: seq<Entry>, censuses: Censuses) {
    var syms := SymbolsOf(censuses, pkg);
    name in syms && !syms[name].unstable ==> forall r | r in syms[name].refs :: !Breaking(mod, pkg, r, entries, censuses)
  }

  lemma {:induction false} CleanSymbols(mod: string, pkg: string, names: seq<string>, entries: seq<Entry>, censuses: Censuses)
    ensures CheckSymbols(mod, pkg, names, entries, censuses).leaks == [] <==>
            forall name | name in names :: CleanSymbol(mod, pkg, name, entries, censuses)
  {
    if names != [] {
      var init, name := names[..|names| - 1], names[|names| - 1];
      assert names == init + [name];
      CleanSymbols(mod, pkg, init, entries, censuses);
      var syms := SymbolsOf(censuses, pkg);
      assert name in names;
      if name in syms && !syms[name].unstable {
        CleanRefs(mod, pkg, syms[name], syms[name].refs, entries, censuses);
        BothEmpty(CheckSymbols(mod, pkg, init, entries, censuses).leaks,
                  CheckRefs(mod, pkg, syms[name], syms[name].refs, entries, censuses).leaks);
      }
    }
  }

  lemma {:induction false} CleanEntries(mod: string, some: seq<Entry>, entries: seq<Entry>, censuses: Censuses)
    ensures CheckEntries(mod, some, entries, censuses).leaks == [] <==>
            forall e, name | e in some && e.cls.Stable? && name in SymbolsOf(censuses, e.pkg) ::
              CleanSymbol(mod, e.pkg, name, entries, censuses)
  {
    if some != [] {
      var init, e := some[..|some| - 1], some[|some| - 1];
      assert some == init + [e];
      CleanEntries(mod, init, entries, censuses);
      CleanSymbols(mod, e.pkg, SortedSet(SymbolsOf(censuses, e.pkg).Keys), entries, censuses);
      BothEmpty(CheckEntries(mod, init, entries, censuses).leaks,
                CheckSymbols(mod, e.pkg, SortedSet(SymbolsOf(censuses, e.pkg).Keys), entries, censuses).leaks);
    }
  }

  lemma BothEmpty<T>(a: seq<T>, b: seq<T>)
    ensures a + b == [] <==> a == [] && b == []
  {
    assert |a + b| == |a| + |b|;
  }
}
