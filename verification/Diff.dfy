/** Comparing two censuses: diffSymbols and knownBefore of
    cmd/terva-apidiff/snapshot.go. */
module Diff {
  import opened Text
  import opened Api
  import opened Sorting

  type Symbols = map<string, Symbol>

  datatype Change = Change(symbol: Symbol, was: string, wasKind: string, wasUnstable: bool)

  datatype Report = Report(added: seq<Symbol>, removed: seq<Symbol>, changed: seq<Change>)

  // The diff, key by key

  function AddedKeys(base: Symbols, head: Symbols): set<string> {
    head.Keys - base.Keys
  }

  predicate Differs(a: Symbol, b: Symbol) {
    a.sig != b.sig || a.kind != b.kind
  }

  function ChangedKeys(base: Symbols, head: Symbols): set<string> {
    set k | k in base && k in head && Differs(base[k], head[k])
  }

  function ChangeAt(base: Symbols, head: Symbols, k: string): Change
    requires k in base && k in head
  {
    Change(head[k], base[k].sig, base[k].kind, base[k].unstable)
  }

  function SymbolsAt(syms: Symbols, order: seq<string>): seq<Symbol>
    requires forall k | k in order :: k in syms
  {
    seq(|order|, i requires 0 <= i < |order| => assert order[i] in order; syms[order[i]])
  }

  function ChangesAt(base: Symbols, head: Symbols, order: seq<string>): seq<Change>
    requires forall k | k in order :: k in base && k in head
  {
    seq(|order|, i requires 0 <= i < |order| => assert order[i] in order; ChangeAt(base, head, order[i]))
  }

  ghost predicate ListsSymbols(list: seq<Symbol>, syms: Symbols, keys: set<string>)
    requires keys <= syms.Keys
  {
    exists order :: Enumerates(order, keys) && multiset(list) == multiset(SymbolsAt(syms, order))
  }

  ghost predicate ListsChanges(list: seq<Change>, base: Symbols, head: Symbols) {
    exists order :: Enumerates(order, ChangedKeys(base, head)) && multiset(list) == multiset(ChangesAt(base, head, order))
  }

  /** The report holds each added, removed and changed symbol once, by name. */
  ghost predicate IsDiff(base: Symbols, head: Symbols, r: Report) {
    ListsSymbols(r.added, head, AddedKeys(base, head)) && SortedBy((s: Symbol) => s.name, r.added) &&
    ListsSymbols(r.removed, base, AddedKeys(head, base)) && SortedBy((s: Symbol) => s.name, r.removed) &&
    ListsChanges(r.changed, base, head) && SortedBy((c: Change) => c.symbol.name, r.changed)
  }

  /** The list holds the symbols at these keys, in this order. */
  ghost predicate SymbolsInOrder(list: seq<Symbol>, order: seq<string>, syms: Symbols, keys: set<string>) {
    keys <= syms.Keys && Enumerates(order, keys) && list == SymbolsAt(syms, order)
  }

  ghost predicate ChangesInOrder(list: seq<Change>, order: seq<string>, base: Symbols, head: Symbols, keys: set<string>) {
    keys <= ChangedKeys(base, head) && Enumerates(order, keys) && list == ChangesAt(base, head, order)
  }

  lemma SymbolsMore(list: seq<Symbol>, order: seq<string>, syms: Symbols, keys: set<string>, k: string)
    requires SymbolsInOrder(list, order, syms, keys) && k in syms && k !in keys
    ensures SymbolsInOrder(list + [syms[k]], order + [k], syms, keys + {k})
  {
  }

  lemma ChangesMore(list: seq<Change>, order: seq<string>, base: Symbols, head: Symbols, keys: set<string>, k: string)
    requires ChangesInOrder(list, order, base, head, keys) && k in ChangedKeys(base, head) && k !in keys
    ensures ChangesInOrder(list + [ChangeAt(base, head, k)], order + [k], base, head, keys + {k})
  {
  }

  lemma OneLess(all: set<string>, left: set<string>, k: string)
    requires k in left
    ensures all - (left - {k}) == if k in all then (all - left) + {k} else all - left
  {
  }

  /** diffSymbols: both maps are ranged over in no fixed order. */
  method DiffSymbols(base: Symbols, head: Symbols) returns (r: Report)
    ensures IsDiff(base, head, r)
  {
    var added, changed := NewAndChanged(base, head);
    var removed := Missing(base, head);
    r := Report(SortBy((s: Symbol) => s.name, added), SortBy((s: Symbol) => s.name, removed),
      SortBy((c: Change) => c.symbol.name, changed));
  }

  method NewAndChanged(base: Symbols, head: Symbols) returns (added: seq<Symbol>, changed: seq<Change>)
    ensures ListsSymbols(added, head, AddedKeys(base, head)) && ListsChanges(changed, base, head)
  {
    added, changed := [], [];
    ghost var news, olds := AddedKeys(base, head), ChangedKeys(base, head);
    ghost var newOrder: seq<string>, oldOrder: seq<string> := [], [];
    var left := head.Keys;
    while left != {}
      invariant left <= head.Keys
      invariant SymbolsInOrder(added, newOrder, head, news - left)
      invariant ChangesInOrder(changed, oldOrder, base, head, olds - left)
      decreases left
    {
      var k :| k in left;
      OneLess(news, left, k);
      OneLess(olds, left, k);
      if k !in base {
        SymbolsMore(added, newOrder, head, news - left, k);
        newOrder, added := newOrder + [k], added + [head[k]];
      } else if Differs(base[k], head[k]) {
        ChangesMore(changed, oldOrder, base, head, olds - left, k);
        oldOrder, changed := oldOrder + [k], changed + [ChangeAt(base, head, k)];
      }
      left := left - {k};
    }
    assert news - left == news && olds - left == olds;
  }

  method Missing(base: Symbols, head: Symbols) returns (removed: seq<Symbol>)
    ensures ListsSymbols(removed, base, AddedKeys(head, base))
  {
    removed := [];
    ghost var gone := AddedKeys(head, base);
    ghost var order: seq<string> := [];
    var left := base.Keys;
    while left != {}
      invariant left <= base.Keys && SymbolsInOrder(removed, order, base, gone - left)
      decreases left
    {
      var k :| k in left;
      OneLess(gone, left, k);
      if k !in head {
        SymbolsMore(removed, order, base, gone - left, k);
        order, removed := order + [k], removed + [base[k]];
      }
      left := left - {k};
    }
    assert gone - left == gone;
  }

  // Applying a diff

  /** A census keys each symbol by its name. */
  ghost predicate Keyed(syms: Symbols) {
    forall k | k in syms :: syms[k].name == k
  }

  function Names(list: seq<Symbol>): set<string> {
    set s | s in list :: s.name
  }

  function ChangedNames(list: seq<Change>): set<string> {
    set c | c in list :: c.symbol.name
  }

  function Named(list: seq<Symbol>, name: string): Option<Symbol> {
    if list == [] then None else if list[0].name == name then Some(list[0]) else Named(list[1..], name)
  }

  function NewSymbols(changed: seq<Change>): seq<Symbol> {
    seq(|changed|, i requires 0 <= i < |changed| => changed[i].symbol)
  }

  /** The base with what the report says done to it. */
  function Apply(base: Symbols, r: Report): Symbols {
    var news := r.added + NewSymbols(r.changed);
    map k | k in (base.Keys - Names(r.removed)) + Names(news) ::
      match Named(news, k)
      case Some(s) => s
      case None => if k in base then base[k] else Symbol(k, "", "", false, [])
  }

  /** The two name the same symbols, with the same kinds and signatures. */
  ghost predicate Agree(a: Symbols, b: Symbols) {
    a.Keys == b.Keys && forall k | k in a :: !Differs(a[k], b[k])
  }

  lemma SymbolsListed(list: seq<Symbol>, syms: Symbols, keys: set<string>, s: Symbol)
    requires keys <= syms.Keys && ListsSymbols(list, syms, keys)
    ensures s in list <==> exists k :: k in keys && syms[k] == s
  {
    var order :| Enumerates(order, keys) && multiset(list) == multiset(SymbolsAt(syms, order));
    var all := SymbolsAt(syms, order);
    assert s in list <==> s in multiset(list);
    assert s in all <==> s in multiset(all);
    if s in all {
      var i :| 0 <= i < |all| && all[i] == s;
      assert order[i] in order;
    }
    if k :| k in keys && syms[k] == s {
      var i :| 0 <= i < |order| && order[i] == k;
      assert all[i] == s;
    }
  }

  lemma ChangesListed(list: seq<Change>, base: Symbols, head: Symbols, c: Change)
    requires ListsChanges(list, base, head)
    ensures c in list <==> exists k :: k in ChangedKeys(base, head) && ChangeAt(base, head, k) == c
  {
    var order :| Enumerates(order, ChangedKeys(base, head)) && multiset(list) == multiset(ChangesAt(base, head, order));
    var all := ChangesAt(base, head, order);
    assert c in list <==> c in multiset(list);
    assert c in all <==> c in multiset(all);
    if c in all {
      var i :| 0 <= i < |all| && all[i] == c;
      assert order[i] in order;
    }
    if k :| k in ChangedKeys(base, head) && ChangeAt(base, head, k) == c {
      var i :| 0 <= i < |order| && order[i] == k;
      assert all[i] == c;
    }
  }

  /** The names of the symbols at some keys. */
  function NamesAt(syms: Symbols, keys: set<string>): set<string>
    requires keys <= syms.Keys
  {
    set k | k in keys :: syms[k].name
  }

  lemma ListedNames(list: seq<Symbol>, syms: Symbols, keys: set<string>)
    requires keys <= syms.Keys && ListsSymbols(list, syms, keys)
    ensures Names(list) == NamesAt(syms, keys) && (list == [] <==> keys == {})
  {
    forall s ensures s in list <==> exists k :: k in keys && syms[k] == s {
      SymbolsListed(list, syms, keys, s);
    }
    forall k | k in keys ensures syms[k].name in Names(list) {
      assert syms[k] in list;
    }
    if list != [] {
      assert list[0] in list;
    }
  }

  lemma ListedChangedNames(list: seq<Change>, base: Symbols, head: Symbols)
    requires ListsChanges(list, base, head)
    ensures ChangedNames(list) == NamesAt(head, ChangedKeys(base, head)) && (list == [] <==> ChangedKeys(base, head) == {})
  {
    var keys := ChangedKeys(base, head);
    forall c ensures c in list <==> exists k :: k in keys && ChangeAt(base, head, k) == c {
      ChangesListed(list, base, head, c);
    }
    forall k | k in keys ensures head[k].name in ChangedNames(list) {
      assert ChangeAt(base, head, k) in list;
    }
    if list != [] {
      assert list[0] in list;
    }
  }

  lemma KeyedNames(syms: Symbols, keys: set<string>)
    requires keys <= syms.Keys && Keyed(syms)
    ensures NamesAt(syms, keys) == keys
  {
  }

  /** The three lists hold the symbols at the keys that differ in each way, which
      are disjoint. In a census that keys symbols by their names, so are the
      names. */
  lemma ReportNames(base: Symbols, head: Symbols, r: Report)
    requires IsDiff(base, head, r)
    ensures Names(r.added) == NamesAt(head, AddedKeys(base, head)) && Names(r.removed) == NamesAt(base, AddedKeys(head, base))
    ensures ChangedNames(r.changed) == NamesAt(head, ChangedKeys(base, head))
    ensures AddedKeys(base, head) !! AddedKeys(head, base) && AddedKeys(base, head) !! ChangedKeys(base, head)
    ensures AddedKeys(head, base) !! ChangedKeys(base, head)
    ensures Keyed(base) && Keyed(head) ==>
      Names(r.added) == AddedKeys(base, head) && Names(r.removed) == AddedKeys(head, base) &&
      ChangedNames(r.changed) == ChangedKeys(base, head)
  {
    ListedNames(r.added, head, AddedKeys(base, head));
    ListedNames(r.removed, base, AddedKeys(head, base));
    ListedChangedNames(r.changed, base, head);
    if Keyed(base) && Keyed(head) {
      KeyedNames(head, AddedKeys(base, head));
      KeyedNames(base, AddedKeys(head, base));
      KeyedNames(head, ChangedKeys(base, head));
    }
  }

  lemma ListHolds(list: seq<Symbol>, syms: Symbols, keys: set<string>, s: Symbol)
    requires keys <= syms.Keys && ListsSymbols(list, syms, keys)
    ensures s in list <==> exists k :: k in keys && s == syms[k]
  {
    var order :| Enumerates(order, keys) && multiset(list) == multiset(SymbolsAt(syms, order));
    assert s in multiset(list) <==> s in multiset(SymbolsAt(syms, order));
    if k :| k in keys && s == syms[k] {
      assert k in order;
      var i :| 0 <= i < |order| && order[i] == k;
      assert SymbolsAt(syms, order)[i] == s;
    }
    if s in SymbolsAt(syms, order) {
      var i :| 0 <= i < |order| && SymbolsAt(syms, order)[i] == s;
      assert order[i] in order;
    }
  }

  lemma ChangesHold(list: seq<Change>, base: Symbols, head: Symbols, c: Change)
    requires ListsChanges(list, base, head)
    ensures c in list <==> exists k :: k in ChangedKeys(base, head) && c == ChangeAt(base, head, k)
  {
    var order :| Enumerates(order, ChangedKeys(base, head)) && multiset(list) == multiset(ChangesAt(base, head, order));
    assert c in multiset(list) <==> c in multiset(ChangesAt(base, head, order));
    if k :| k in ChangedKeys(base, head) && c == ChangeAt(base, head, k) {
      assert k in order;
      var i :| 0 <= i < |order| && order[i] == k;
      assert ChangesAt(base, head, order)[i] == c;
    }
    if c in ChangesAt(base, head, order) {
      var i :| 0 <= i < |order| && ChangesAt(base, head, order)[i] == c;
      assert order[i] in order;
    }
  }

  /** A change is the symbol as it is now, with its kind, its signature and its
      marker at the base. */
  predicate IsChange(base: Symbols, head: Symbols, k: string, c: Change) {
    k in base && k in head && c.symbol == head[k] && c.was == base[k].sig && c.wasKind == base[k].kind &&
    c.wasUnstable == base[k].unstable && !(head[k].sig == c.was && head[k].kind == c.wasKind)
  }

  /** What the lists hold: the symbols of one side alone as they are there, and
      those whose kind or signature differs with what they were. */
  lemma ReportHolds(base: Symbols, head: Symbols, r: Report)
    requires IsDiff(base, head, r)
    ensures forall s :: s in r.added <==> exists k :: k in head && k !in base && s == head[k]
    ensures forall s :: s in r.removed <==> exists k :: k in base && k !in head && s == base[k]
    ensures forall c :: c in r.changed <==> exists k :: IsChange(base, head, k, c)
  {
    forall s ensures s in r.added <==> exists k :: k in head && k !in base && s == head[k] {
      ListHolds(r.added, head, AddedKeys(base, head), s);
    }
    forall s ensures s in r.removed <==> exists k :: k in base && k !in head && s == base[k] {
      ListHolds(r.removed, base, AddedKeys(head, base), s);
    }
    forall c ensures c in r.changed <==> exists k :: IsChange(base, head, k, c) {
      ChangesHold(r.changed, base, head, c);
      if k :| IsChange(base, head, k, c) {
        assert k in ChangedKeys(base, head) && c == ChangeAt(base, head, k);
      }
      if k :| k in ChangedKeys(base, head) && c == ChangeAt(base, head, k) {
        assert IsChange(base, head, k, c);
      }
    }
  }

  lemma {:induction false} NamedFinds(list: seq<Symbol>, name: string)
    ensures Named(list, name).Some? <==> name in Names(list)
    ensures Named(list, name).Some? ==> Named(list, name).value in list && Named(list, name).value.name == name
  {
    if list != [] {
      NamedFinds(list[1..], name);
      assert list == [list[0]] + list[1..];
    }
  }

  /** Every new symbol of a report is the head's. */
  lemma NewIsHead(base: Symbols, head: Symbols, r: Report, s: Symbol)
    requires Keyed(head) && IsDiff(base, head, r) && s in r.added + NewSymbols(r.changed)
    ensures s.name in head && head[s.name] == s
  {
    if s in r.added {
      SymbolsListed(r.added, head, AddedKeys(base, head), s);
    } else {
      var i :| 0 <= i < |NewSymbols(r.changed)| && NewSymbols(r.changed)[i] == s;
      ChangesListed(r.changed, base, head, r.changed[i]);
    }
  }

  lemma NewNames(r: Report)
    ensures Names(r.added + NewSymbols(r.changed)) == Names(r.added) + ChangedNames(r.changed)
  {
    var news := NewSymbols(r.changed);
    forall c | c in r.changed ensures c.symbol in news {
      var i :| 0 <= i < |r.changed| && r.changed[i] == c;
      assert news[i] == c.symbol;
    }
    forall s | s in news ensures s.name in ChangedNames(r.changed) {
      var i :| 0 <= i < |news| && news[i] == s;
      assert r.changed[i] in r.changed;
    }
  }

  lemma ApplyAt(base: Symbols, r: Report, news: seq<Symbol>, k: string)
    requires news == r.added + NewSymbols(r.changed)
    ensures k in Apply(base, r) <==> (k in base && k !in Names(r.removed)) || k in Names(news)
    ensures k in Apply(base, r) && k !in Names(news) ==> Apply(base, r)[k] == base[k]
    ensures k in Names(news) ==> Named(news, k).Some? && Apply(base, r)[k] == Named(news, k).value
  {
    NamedFinds(news, k);
  }

  /** Doing to the base what its diff with the head says gives the head. */
  lemma DiffApplies(base: Symbols, head: Symbols, r: Report)
    requires Keyed(base) && Keyed(head) && IsDiff(base, head, r)
    ensures Agree(Apply(base, r), head)
  {
    ReportNames(base, head, r);
    NewNames(r);
    var news := r.added + NewSymbols(r.changed);
    forall k
      ensures k in Apply(base, r) <==> k in head
      ensures k in head ==> !Differs(Apply(base, r)[k], head[k])
    {
      AppliedAt(base, head, r, news, k);
    }
    assert Apply(base, r).Keys == head.Keys;
  }

  lemma AppliedAt(base: Symbols, head: Symbols, r: Report, news: seq<Symbol>, k: string)
    requires Keyed(head) && IsDiff(base, head, r) && news == r.added + NewSymbols(r.changed)
    requires Names(news) == AddedKeys(base, head) + ChangedKeys(base, head) && Names(r.removed) == AddedKeys(head, base)
    ensures k in Apply(base, r) <==> k in head
    ensures k in head ==> !Differs(Apply(base, r)[k], head[k])
  {
    ApplyAt(base, r, news, k);
    if k in Names(news) {
      NamedFinds(news, k);
      NewIsHead(base, head, r, Named(news, k).value);
    }
  }

  lemma KeysAgree(base: Symbols, head: Symbols)
    ensures AddedKeys(base, head) == {} && AddedKeys(head, base) == {} && ChangedKeys(base, head) == {} <==> Agree(base, head)
  {
    if AddedKeys(base, head) == {} && AddedKeys(head, base) == {} && ChangedKeys(base, head) == {} {
      forall k ensures k in base <==> k in head {
        assert k !in AddedKeys(base, head) && k !in AddedKeys(head, base);
      }
      forall k | k in base ensures !Differs(base[k], head[k]) {
        assert k !in ChangedKeys(base, head);
      }
    }
  }

  /** A diff is empty exactly when the two agree. */
  lemma EmptyDiffAgrees(base: Symbols, head: Symbols, r: Report)
    requires IsDiff(base, head, r)
    ensures r == Report([], [], []) <==> Agree(base, head)
  {
    ListedNames(r.added, head, AddedKeys(base, head));
    ListedNames(r.removed, base, AddedKeys(head, base));
    ListedChangedNames(r.changed, base, head);
    KeysAgree(base, head);
  }

  // A type that became visible

  predicate BecameVisible(c: Change) {
    c.symbol.kind == "var" && c.wasKind == "var" && c.was == ""
  }

  function WithoutVisible(changed: seq<Change>): seq<Change> {
    if changed == [] then []
    else
      var last := changed[|changed| - 1];
      WithoutVisible(changed[..|changed| - 1]) + if BecameVisible(last) then [] else [last]
  }

  /** knownBefore filters the list in place: out is the part already kept. */
  method KnownBefore(changed: array<Change>) returns (kept: nat)
    modifies changed
    ensures kept <= changed.Length && changed[..kept] == WithoutVisible(old(changed[..]))
  {
    kept := 0;
    ghost var all := changed[..];
    for i := 0 to changed.Length
      invariant kept <= i && changed[..kept] == WithoutVisible(all[..i])
      invariant forall j | i <= j < changed.Length :: changed[j] == all[j]
    {
      assert all[..i + 1][..i] == all[..i];
      if !BecameVisible(changed[i]) {
        ghost var before := changed[..kept];
        changed[kept] := changed[i];
        assert changed[..kept] == before && changed[..kept + 1] == before + [all[i]];
        kept := kept + 1;
      }
    }
    assert all[..changed.Length] == all;
  }
}
