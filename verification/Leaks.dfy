/** What the closure check reports, said on the paths of the references: which
    references it follows, which of them it reports and why, and in what order. */
module Leaks {
  import opened Text
  import opened Api
  import opened Sorting
  import opened Closure

  // One reference

  /** The reference is to a name of package target. */
  predicate IsTo(mod: string, pkg: string, r: Ref, target: string) {
    if r.path == "" then r.qual == "" && target == pkg
    else (r.path == mod && target == ".") || r.path == mod + "/" + target
  }

  /** It has no import path, or one of the module. */
  predicate IsOurs(mod: string, r: Ref) {
    r.path == "" || r.path == mod || mod + "/" <= r.path
  }

  /** Why the reference breaks the promise. */
  ghost predicate IsFault(mod: string, entries: seq<Entry>, censuses: Censuses, pkg: string, r: Ref, why: Why) {
    match why
    case NoImport => r.path == "" && r.qual != ""
    case NotListed => exists target :: IsTo(mod, pkg, r, target) && forall c :: Entry(target, c) !in entries
    case ListedUnstable => exists target :: IsTo(mod, pkg, r, target) && Entry(target, Unstable) in entries
    case NotExported =>
      exists target :: IsTo(mod, pkg, r, target) && Entry(target, Stable) in entries && r.name !in SymbolsOf(censuses, target)
    case MarkedUnstable =>
      exists target :: IsTo(mod, pkg, r, target) && Entry(target, Stable) in entries &&
        r.name in SymbolsOf(censuses, target) && SymbolsOf(censuses, target)[r.name].unstable
  }

  lemma TargetIsTo(mod: string, pkg: string, r: Ref, target: string)
    ensures TargetOf(mod, pkg, r) == In(target) <==> IsTo(mod, pkg, r, target)
    ensures TargetOf(mod, pkg, r).Outside? <==> !IsOurs(mod, r)
  {
    if mod + "/" <= r.path {
      assert r.path == mod + "/" + r.path[|mod| + 1..];
    }
    if r.path == mod + "/" + target {
      assert r.path[|mod| + 1..] == target;
    }
  }

  lemma FaultIsJudged(mod: string, entries: seq<Entry>, censuses: Censuses, pkg: string, r: Ref, why: Why)
    requires DistinctPackages(entries)
    ensures LeakOf(mod, pkg, r, entries, censuses) == Breaks(why) <==> IsFault(mod, entries, censuses, pkg, r, why)
    ensures LeakOf(mod, pkg, r, entries, censuses).NotFollowed? <==> !IsOurs(mod, r)
  {
    forall target ensures TargetOf(mod, pkg, r) == In(target) <==> IsTo(mod, pkg, r, target) {
      TargetIsTo(mod, pkg, r, target);
    }
    TargetIsTo(mod, pkg, r, "");
    forall target, c ensures ClassOf(entries, target) == Some(c) <==> Entry(target, c) in entries {
      ListedMeans(entries, target, c);
    }
    if TargetOf(mod, pkg, r).In? {
      var target := TargetOf(mod, pkg, r).pkg;
      assert IsTo(mod, pkg, r, target);
      if ClassOf(entries, target).Some? {
        assert Entry(target, ClassOf(entries, target).value) in entries;
      }
    }
  }

  // The whole report

  /** Where a reference stands: the line of the manifest, the symbol of its
      package, and the place among the references of the symbol. */
  datatype Site = Site(line: nat, name: string, place: nat)

  /** Lines first, then symbols by name, then places. */
  predicate Before(a: Site, b: Site) {
    a.line < b.line ||
    (a.line == b.line && ((a.name != b.name && Leq(a.name, b.name)) || (a.name == b.name && a.place < b.place)))
  }

  predicate InOrder(sites: seq<Site>) {
    forall i, j | 0 <= i < j < |sites| :: Before(sites[i], sites[j])
  }

  /** A reference of an unmarked symbol of a package listed stable. */
  predicate IsRef(entries: seq<Entry>, censuses: Censuses, s: Site) {
    s.line < |entries| && entries[s.line].cls.Stable? &&
    var syms := SymbolsOf(censuses, entries[s.line].pkg);
    s.name in syms && !syms[s.name].unstable && s.place < |syms[s.name].refs|
  }

  function RefAt(entries: seq<Entry>, censuses: Censuses, s: Site): Ref
    requires IsRef(entries, censuses, s)
  {
    SymbolsOf(censuses, entries[s.line].pkg)[s.name].refs[s.place]
  }

  predicate IsFollowed(mod: string, entries: seq<Entry>, censuses: Censuses, s: Site) {
    IsRef(entries, censuses, s) && IsOurs(mod, RefAt(entries, censuses, s))
  }

  predicate AllFollowed(mod: string, entries: seq<Entry>, censuses: Censuses, sites: seq<Site>) {
    forall s | s in sites :: IsFollowed(mod, entries, censuses, s)
  }

  /** The leak is that of the reference at the site. */
  ghost predicate IsLeak(mod: string, entries: seq<Entry>, censuses: Censuses, s: Site, leak: Leak) {
    IsRef(entries, censuses, s) &&
    var pkg, r := entries[s.line].pkg, RefAt(entries, censuses, s);
    leak.pkg == pkg && leak.symbol == SymbolsOf(censuses, pkg)[s.name].name && leak.ref == r &&
    IsFault(mod, entries, censuses, pkg, r, leak.why)
  }

  /** The second list holds, in order, one that belongs to each of the first that
      has any. */
  ghost predicate AreTheirs<S, L(!new)>(of: (S, L) -> bool, sites: seq<S>, leaks: seq<L>)
    decreases |sites|
  {
    if sites == [] then leaks == []
    else
      var init, s := sites[..|sites| - 1], sites[|sites| - 1];
      if HasAny(of, s) then
        leaks != [] && of(s, leaks[|leaks| - 1]) && AreTheirs(of, init, leaks[..|leaks| - 1])
      else AreTheirs(of, init, leaks)
  }

  ghost predicate HasAny<S, L(!new)>(of: (S, L) -> bool, s: S) {
    exists leak: L :: of(s, leak)
  }

  lemma {:induction false} TheirsJoin<S, L(!new)>(of: (S, L) -> bool, sites: seq<S>, leaks: seq<L>, more: seq<S>, moreLeaks: seq<L>)
    requires AreTheirs(of, sites, leaks) && AreTheirs(of, more, moreLeaks)
    ensures AreTheirs(of, sites + more, leaks + moreLeaks)
    decreases |more|
  {
    if more == [] {
      assert sites + more == sites && leaks + moreLeaks == leaks;
    } else {
      var init, s := more[..|more| - 1], more[|more| - 1];
      assert (sites + more)[..|sites + more| - 1] == sites + init && (sites + more)[|sites + more| - 1] == s;
      if HasAny(of, s) {
        var all := leaks + moreLeaks;
        assert all[..|all| - 1] == leaks + moreLeaks[..|moreLeaks| - 1] && all[|all| - 1] == moreLeaks[|moreLeaks| - 1];
        TheirsJoin(of, sites, leaks, init, moreLeaks[..|moreLeaks| - 1]);
      } else {
        TheirsJoin(of, sites, leaks, init, moreLeaks);
      }
    }
  }

  ghost function LeakAt(mod: string, entries: seq<Entry>, censuses: Censuses): (Site, Leak) -> bool {
    (s: Site, leak: Leak) => IsLeak(mod, entries, censuses, s, leak)
  }

  /** The leaks are those of the sites in their order, one for each that has one. */
  ghost predicate AreLeaks(mod: string, entries: seq<Entry>, censuses: Censuses, sites: seq<Site>, leaks: seq<Leak>) {
    AreTheirs(LeakAt(mod, entries, censuses), sites, leaks)
  }

  /** The sites of a report: what it follows, and its leaks. */
  ghost predicate Reports(mod: string, entries: seq<Entry>, censuses: Censuses, sites: seq<Site>, rep: Report) {
    InOrder(sites) && AllFollowed(mod, entries, censuses, sites) && rep.followed == |sites| &&
    AreLeaks(mod, entries, censuses, sites, rep.leaks)
  }

  lemma ReportsJoin(mod: string, entries: seq<Entry>, censuses: Censuses, a: seq<Site>, x: Report, b: seq<Site>, y: Report)
    requires Reports(mod, entries, censuses, a, x) && Reports(mod, entries, censuses, b, y)
    requires forall s, t | s in a && t in b :: Before(s, t)
    ensures Reports(mod, entries, censuses, a + b, Join2(x, y))
  {
    TheirsJoin(LeakAt(mod, entries, censuses), a, x.leaks, b, y.leaks);
    var c := a + b;
    forall i, j | 0 <= i < j < |c| ensures Before(c[i], c[j]) {
      assert i < |a| ==> c[i] in a;
      assert j >= |a| ==> c[j] in b;
      assert i >= |a| ==> Before(b[i - |a|], b[j - |a|]);
    }
  }

  lemma OneRef(mod: string, entries: seq<Entry>, censuses: Censuses, s: Site) returns (sites: seq<Site>, rep: Report)
    requires DistinctPackages(entries) && IsRef(entries, censuses, s)
    ensures sites == (if IsFollowed(mod, entries, censuses, s) then [s] else []) && Reports(mod, entries, censuses, sites, rep)
    ensures var pkg, r := entries[s.line].pkg, RefAt(entries, censuses, s);
      rep == match LeakOf(mod, pkg, r, entries, censuses)
        case NotFollowed => Report([], 0)
        case Kept => Report([], 1)
        case Breaks(why) => Report([Leak(pkg, SymbolsOf(censuses, pkg)[s.name].name, r, why)], 1)
  {
    var pkg, r := entries[s.line].pkg, RefAt(entries, censuses, s);
    forall why ensures LeakOf(mod, pkg, r, entries, censuses) == Breaks(why) <==> IsFault(mod, entries, censuses, pkg, r, why) {
      FaultIsJudged(mod, entries, censuses, pkg, r, why);
    }
    FaultIsJudged(mod, entries, censuses, pkg, r, NoImport);
    match LeakOf(mod, pkg, r, entries, censuses)
    case NotFollowed =>
      sites, rep := [], Report([], 0);
    case Kept =>
      sites, rep := [s], Report([], 1);
      assert !HasAny(LeakAt(mod, entries, censuses), s);
      assert sites[..0] == [];
    case Breaks(why) =>
      var leak := Leak(pkg, SymbolsOf(censuses, pkg)[s.name].name, r, why);
      sites, rep := [s], Report([leak], 1);
      assert LeakAt(mod, entries, censuses)(s, leak) && HasAny(LeakAt(mod, entries, censuses), s);
      assert sites[..0] == [] && rep.leaks[..0] == [];
  }

  lemma OneRefMore(mod: string, pkg: string, sym: Symbol, n: nat, entries: seq<Entry>, censuses: Censuses, rep: Report)
    requires 0 < n <= |sym.refs|
    requires rep == match LeakOf(mod, pkg, sym.refs[n - 1], entries, censuses)
        case NotFollowed => Report([], 0)
        case Kept => Report([], 1)
        case Breaks(why) => Report([Leak(pkg, sym.name, sym.refs[n - 1], why)], 1)
    ensures CheckRefs(mod, pkg, sym, sym.refs[..n], entries, censuses) ==
            Join2(CheckRefs(mod, pkg, sym, sym.refs[..n - 1], entries, censuses), rep)
  {
    assert sym.refs[..n][..n - 1] == sym.refs[..n - 1];
  }

  lemma OneLineMore(mod: string, entries: seq<Entry>, censuses: Censuses, k: nat)
    requires 0 < k <= |entries|
    ensures var rest, e := CheckEntries(mod, entries[..k - 1], entries, censuses), entries[k - 1];
      CheckEntries(mod, entries[..k], entries, censuses) == if e.cls.Unstable? then rest
        else Join2(rest, CheckSymbols(mod, e.pkg, SortedSet(SymbolsOf(censuses, e.pkg).Keys), entries, censuses))
  {
    assert entries[..k][..k - 1] == entries[..k - 1] && entries[..k][k - 1] == entries[k - 1];
  }

  /** The sites are those of the followed references of a symbol, the first n of them. */
  ghost predicate AreRefSites(mod: string, entries: seq<Entry>, censuses: Censuses, line: nat, name: string, n: nat, sites: seq<Site>) {
    forall s :: s in sites <==> s.line == line && s.name == name && s.place < n && IsFollowed(mod, entries, censuses, s)
  }

  lemma OneSiteMore(mod: string, entries: seq<Entry>, censuses: Censuses, line: nat, name: string, n: nat, a: seq<Site>, b: seq<Site>)
    requires n > 0 && AreRefSites(mod, entries, censuses, line, name, n - 1, a)
    requires b == if IsFollowed(mod, entries, censuses, Site(line, name, n - 1)) then [Site(line, name, n - 1)] else []
    ensures AreRefSites(mod, entries, censuses, line, name, n, a + b)
    ensures forall s, t | s in a && t in b :: Before(s, t)
  {
  }

  lemma {:induction false} RefSites(mod: string, entries: seq<Entry>, censuses: Censuses, line: nat, name: string, n: nat, sym: Symbol)
    returns (sites: seq<Site>)
    requires DistinctPackages(entries) && line < |entries| && entries[line].cls.Stable?
    requires name in SymbolsOf(censuses, entries[line].pkg) && sym == SymbolsOf(censuses, entries[line].pkg)[name]
    requires !sym.unstable && n <= |sym.refs|
    ensures AreRefSites(mod, entries, censuses, line, name, n, sites)
    ensures Reports(mod, entries, censuses, sites, CheckRefs(mod, entries[line].pkg, sym, sym.refs[..n], entries, censuses))
  {
    if n == 0 {
      sites := [];
    } else {
      var pkg, s := entries[line].pkg, Site(line, name, n - 1);
      var before := RefSites(mod, entries, censuses, line, name, n - 1, sym);
      var last, rep := OneRef(mod, entries, censuses, s);
      OneSiteMore(mod, entries, censuses, line, name, n, before, last);
      ReportsJoin(mod, entries, censuses, before, CheckRefs(mod, pkg, sym, sym.refs[..n - 1], entries, censuses), last, rep);
      sites := before + last;
      OneRefMore(mod, pkg, sym, n, entries, censuses, rep);
    }
  }

  /** The followed references of the first k of some symbols. */
  lemma {:induction false} SymbolSites(mod: string, entries: seq<Entry>, censuses: Censuses, line: nat, names: seq<string>, k: nat)
    returns (sites: seq<Site>)
    requires DistinctPackages(entries) && line < |entries| && entries[line].cls.Stable?
    requires Sorted(names) && NoDuplicates(names) && k <= |names|
    ensures forall s :: s in sites <==>
      s.line == line && s.name in names[..k] && IsFollowed(mod, entries, censuses, s)
    ensures Reports(mod, entries, censuses, sites, CheckSymbols(mod, entries[line].pkg, names[..k], entries, censuses))
  {
    if k == 0 {
      sites := [];
    } else {
      var pkg, name := entries[line].pkg, names[k - 1];
      var syms := SymbolsOf(censuses, pkg);
      sites := SymbolSites(mod, entries, censuses, line, names, k - 1);
      assert names[..k][..k - 1] == names[..k - 1] && names[..k] == names[..k - 1] + [name];
      if name in syms && !syms[name].unstable {
        var more := RefSites(mod, entries, censuses, line, name, |syms[name].refs|, syms[name]);
        assert syms[name].refs[..|syms[name].refs|] == syms[name].refs;
        forall s, t | s in sites && t in more ensures Before(s, t) {
          var i :| 0 <= i < k - 1 && names[i] == s.name;
        }
        ReportsJoin(mod, entries, censuses, sites, CheckSymbols(mod, pkg, names[..k - 1], entries, censuses),
          more, CheckRefs(mod, pkg, syms[name], syms[name].refs, entries, censuses));
        sites := sites + more;
      }
    }
  }

  /** The followed references of one line. */
  lemma LineSites(mod: string, entries: seq<Entry>, censuses: Censuses, line: nat, names: seq<string>) returns (sites: seq<Site>)
    requires DistinctPackages(entries) && line < |entries| && entries[line].cls.Stable?
    requires names == SortedSet(SymbolsOf(censuses, entries[line].pkg).Keys)
    ensures forall s :: s in sites <==> s.line == line && IsFollowed(mod, entries, censuses, s)
    ensures Reports(mod, entries, censuses, sites, CheckSymbols(mod, entries[line].pkg, names, entries, censuses))
  {
    sites := SymbolSites(mod, entries, censuses, line, names, |names|);
    assert names[..|names|] == names;
  }

  lemma LineJoins(mod: string, entries: seq<Entry>, censuses: Censuses, k: nat, a: seq<Site>, b: seq<Site>)
    requires 0 < k <= |entries| && forall s :: s in a <==> s.line < k - 1 && IsFollowed(mod, entries, censuses, s)
    requires forall s :: s in b <==> s.line == k - 1 && IsFollowed(mod, entries, censuses, s)
    ensures forall s :: s in a + b <==> s.line < k && IsFollowed(mod, entries, censuses, s)
    ensures forall s, t | s in a && t in b :: Before(s, t)
  {
  }

  /** The followed references of the first k lines. */
  lemma {:induction false} EntrySites(mod: string, entries: seq<Entry>, censuses: Censuses, k: nat) returns (sites: seq<Site>)
    requires DistinctPackages(entries) && k <= |entries|
    ensures forall s :: s in sites <==> s.line < k && IsFollowed(mod, entries, censuses, s)
    ensures Reports(mod, entries, censuses, sites, CheckEntries(mod, entries[..k], entries, censuses))
  {
    if k == 0 {
      sites := [];
    } else {
      var e, rest := entries[k - 1], CheckEntries(mod, entries[..k - 1], entries, censuses);
      sites := EntrySites(mod, entries, censuses, k - 1);
      OneLineMore(mod, entries, censuses, k);
      if e.cls.Stable? {
        var names := SortedSet(SymbolsOf(censuses, e.pkg).Keys);
        var more := LineSites(mod, entries, censuses, k - 1, names);
        LineJoins(mod, entries, censuses, k, sites, more);
        ReportsJoin(mod, entries, censuses, sites, rest, more, CheckSymbols(mod, e.pkg, names, entries, censuses));
        sites := sites + more;
      }
    }
  }

  /** The check follows every reference of an unmarked symbol of a stable package
      that has no import path or one of the module, in order, and its leaks are
      those of them that break the promise. */
  lemma ReportIsExact(mod: string, entries: seq<Entry>, censuses: Censuses) returns (sites: seq<Site>)
    requires DistinctPackages(entries)
    ensures InOrder(sites) && forall s :: s in sites <==> IsFollowed(mod, entries, censuses, s)
    ensures var rep := CheckEntries(mod, entries, entries, censuses);
      rep.followed == |sites| && AreLeaks(mod, entries, censuses, sites, rep.leaks)
  {
    sites := EntrySites(mod, entries, censuses, |entries|);
    assert entries[..|entries|] == entries;
  }

  lemma {:induction false} LeaksAre(mod: string, entries: seq<Entry>, censuses: Censuses, sites: seq<Site>, leaks: seq<Leak>, leak: Leak)
    requires AreLeaks(mod, entries, censuses, sites, leaks) && DistinctPackages(entries)
    ensures leak in leaks <==> exists s :: s in sites && IsLeak(mod, entries, censuses, s, leak)
    decreases |sites|
  {
    if sites != [] {
      var init, s := sites[..|sites| - 1], sites[|sites| - 1];
      assert sites == init + [s];
      var of := LeakAt(mod, entries, censuses);
      assert IsLeak(mod, entries, censuses, s, leak) ==> of(s, leak) && HasAny(of, s);
      if HasAny(of, s) {
        var l := leaks[|leaks| - 1];
        assert leaks == leaks[..|leaks| - 1] + [l];
        LeaksAre(mod, entries, censuses, init, leaks[..|leaks| - 1], leak);
        if IsLeak(mod, entries, censuses, s, leak) {
          FaultIsJudged(mod, entries, censuses, leak.pkg, leak.ref, leak.why);
          FaultIsJudged(mod, entries, censuses, leak.pkg, leak.ref, l.why);
        }
      } else {
        LeaksAre(mod, entries, censuses, init, leaks, leak);
      }
    }
  }

  /** A leak is reported if and only if it is that of a reference of an unmarked
      symbol of a stable package. */
  lemma LeakIsReported(mod: string, entries: seq<Entry>, censuses: Censuses, leak: Leak)
    requires DistinctPackages(entries)
    ensures leak in CheckEntries(mod, entries, entries, censuses).leaks <==>
            exists s :: IsRef(entries, censuses, s) && IsLeak(mod, entries, censuses, s, leak)
  {
    var sites := ReportIsExact(mod, entries, censuses);
    LeaksAre(mod, entries, censuses, sites, CheckEntries(mod, entries, entries, censuses).leaks, leak);
    if s :| IsRef(entries, censuses, s) && IsLeak(mod, entries, censuses, s, leak) {
      FaultIsJudged(mod, entries, censuses, leak.pkg, leak.ref, leak.why);
      assert s in sites;
    }
  }
}
