/** What the lists and the counts of breaks hold: each removed and changed
    symbol once, in the class that the ref gave it, and each count the number of
    places where one stands. */
module Breaks {
  import opened Text
  import opened Api
  import opened Diff
  import opened Tally

  // The lists

  /** A symbol marked unstable at the ref is out of its package's promise. */
  predicate InClass(b: Breakage, was: Option<Class>, marked: bool) {
    b.cls == if marked then Some(Unstable) else was
  }

  /** A break for each removed symbol, then one for each changed symbol. */
  predicate AreBreaks(p: SincePkg, breaks: seq<Breakage>) {
    var r := |p.diff.removed|;
    |breaks| == r + |p.diff.changed| &&
    (forall i | 0 <= i < r :: breaks[i].removed && breaks[i].pkg == p.pkg && breaks[i].name == p.diff.removed[i].name &&
       breaks[i].kind == p.diff.removed[i].kind && InClass(breaks[i], p.was, p.diff.removed[i].unstable)) &&
    forall j | 0 <= j < |p.diff.changed| :: !breaks[r + j].removed && breaks[r + j].pkg == p.pkg &&
      breaks[r + j].name == p.diff.changed[j].symbol.name && breaks[r + j].kind == p.diff.changed[j].symbol.kind &&
      InClass(breaks[r + j], p.was, p.diff.changed[j].wasUnstable)
  }

  lemma {:induction false} RemovedAre(p: SincePkg, list: seq<Symbol>)
    ensures var out := RemovedBreaks(p, list);
      |out| == |list| &&
      forall i | 0 <= i < |list| ::
        out[i].removed && out[i].pkg == p.pkg &&
        out[i].name == list[i].name && out[i].kind == list[i].kind && InClass(out[i], p.was, list[i].unstable)
  {
    if list != [] {
      RemovedAre(p, list[..|list| - 1]);
    }
  }

  lemma {:induction false} ChangedAre(p: SincePkg, list: seq<Change>)
    ensures var out := ChangedBreaks(p, list);
      |out| == |list| &&
      forall i | 0 <= i < |list| ::
        !out[i].removed && out[i].pkg == p.pkg &&
        out[i].name == list[i].symbol.name && out[i].kind == list[i].symbol.kind && InClass(out[i], p.was, list[i].wasUnstable)
  {
    if list != [] {
      ChangedAre(p, list[..|list| - 1]);
    }
  }

  /** The breaks of all packages are those of each, one package after the other. */
  ghost predicate AreAllBreaks(pkgs: seq<SincePkg>, breaks: seq<Breakage>)
    decreases |pkgs|
  {
    if pkgs == [] then breaks == []
    else
      exists before, last ::
        breaks == before + last && AreBreaks(pkgs[|pkgs| - 1], last) && AreAllBreaks(pkgs[..|pkgs| - 1], before)
  }

  lemma {:induction false} BreaksAre(pkgs: seq<SincePkg>)
    ensures AreAllBreaks(pkgs, BreaksSince(pkgs))
  {
    if pkgs != [] {
      var p := pkgs[|pkgs| - 1];
      BreaksAre(pkgs[..|pkgs| - 1]);
      RemovedAre(p, p.diff.removed);
      ChangedAre(p, p.diff.changed);
      assert AreBreaks(p, BreaksOf(p));
    }
  }

  // The counts

  /** Where a break of the class stands. */
  function PlacesOf(breaks: seq<Breakage>, cls: Option<Class>, removed: bool): set<nat> {
    set i: nat | i < |breaks| && breaks[i].cls == cls && breaks[i].removed == removed
  }

  lemma PlacesMore(breaks: seq<Breakage>, b: Breakage, cls: Option<Class>, removed: bool)
    ensures var n := |breaks|;
      PlacesOf(breaks + [b], cls, removed) ==
      PlacesOf(breaks, cls, removed) + (if b.cls == cls && b.removed == removed then {n} else {})
    ensures |breaks| !in PlacesOf(breaks, cls, removed)
  {
  }

  lemma {:induction false} CountIs(breaks: seq<Breakage>, cls: Option<Class>, removed: bool)
    ensures Count(breaks, cls, removed) == |PlacesOf(breaks, cls, removed)|
  {
    if breaks != [] {
      var init, b := breaks[..|breaks| - 1], breaks[|breaks| - 1];
      assert breaks == init + [b];
      CountIs(init, cls, removed);
      PlacesMore(init, b, cls, removed);
    }
  }

  /** Where a symbol stands that counts in the class, if the package has class now. */
  function AddedOf(now: Option<Class>, list: seq<Symbol>, cls: Class): set<nat> {
    set i: nat | i < |list| && (if list[i].unstable then cls == Unstable else now == Some(cls))
  }

  lemma {:induction false} AddedIs(now: Option<Class>, list: seq<Symbol>, cls: Class)
    ensures CountIn(now, list, cls) == |AddedOf(now, list, cls)|
  {
    if list != [] {
      var n := |list| - 1;
      AddedIs(now, list[..n], cls);
      var here: set<nat> := if n in AddedOf(now, list, cls) then {n} else {};
      assert AddedOf(now, list, cls) == AddedOf(now, list[..n], cls) + here;
    }
  }

  /** The sum of a number over the packages. */
  function Sum(pkgs: seq<SincePkg>, of: SincePkg -> nat): nat {
    if pkgs == [] then 0 else Sum(pkgs[..|pkgs| - 1], of) + of(pkgs[|pkgs| - 1])
  }

  function AddedIn(cls: Class): SincePkg -> nat {
    (p: SincePkg) => |AddedOf(p.now, p.diff.added, cls)|
  }

  /** A package counts in its class at the ref, and in each that a symbol of its
      diff counts in. */
  ghost predicate CountsIn(p: SincePkg, cls: Class) {
    p.was == Some(cls) || AddedOf(p.now, p.diff.added, cls) != {} ||
    (cls.Unstable? && ((exists s :: s in p.diff.removed && s.unstable) || exists c :: c in p.diff.changed && c.wasUnstable))
  }

  ghost function PackageIn(cls: Class): SincePkg -> nat {
    (p: SincePkg) => if CountsIn(p, cls) then 1 else 0
  }

  lemma {:induction false} RemovedTouch(was: Option<Class>, list: seq<Symbol>, cls: Class)
    requires was != Some(cls)
    ensures CountIn(was, list, cls) > 0 <==> cls.Unstable? && exists s :: s in list && s.unstable
  {
    if list != [] {
      var init, last := list[..|list| - 1], list[|list| - 1];
      assert list == init + [last];
      RemovedTouch(was, init, cls);
    }
  }

  lemma {:induction false} ChangedTouch(was: Option<Class>, list: seq<Change>, cls: Class)
    requires was != Some(cls)
    ensures CountChanges(was, list, cls) > 0 <==> cls.Unstable? && exists c :: c in list && c.wasUnstable
  {
    if list != [] {
      var init, last := list[..|list| - 1], list[|list| - 1];
      assert list == init + [last];
      ChangedTouch(was, init, cls);
    }
  }

  lemma TouchIs(p: SincePkg, cls: Class)
    ensures Touches(p, cls) <==> CountsIn(p, cls)
  {
    CountsOf(p, cls);
    AddedIs(p.now, p.diff.added, cls);
    if p.was != Some(cls) {
      RemovedTouch(p.was, p.diff.removed, cls);
      ChangedTouch(p.was, p.diff.changed, cls);
    }
  }

  /** The totals of a class are the numbers of its removed, changed and added
      symbols, and of the packages that count in it. */
  lemma {:induction false} TotalsAre(pkgs: seq<SincePkg>, cls: Class)
    ensures TallyOf(pkgs, cls) == Tally(
      |PlacesOf(BreaksSince(pkgs), Some(cls), true)|, |PlacesOf(BreaksSince(pkgs), Some(cls), false)|,
      Sum(pkgs, AddedIn(cls)), Sum(pkgs, PackageIn(cls)))
  {
    CountIs(BreaksSince(pkgs), Some(cls), true);
    CountIs(BreaksSince(pkgs), Some(cls), false);
    if pkgs != [] {
      var init, p := pkgs[..|pkgs| - 1], pkgs[|pkgs| - 1];
      TotalsAre(init, cls);
      CountIs(BreaksSince(init), Some(cls), true);
      CountIs(BreaksSince(init), Some(cls), false);
      CountConcat(BreaksSince(init), BreaksOf(p), Some(cls), true);
      CountConcat(BreaksSince(init), BreaksOf(p), Some(cls), false);
      AddedIs(p.now, p.diff.added, cls);
      TouchIs(p, cls);
    }
  }
}
