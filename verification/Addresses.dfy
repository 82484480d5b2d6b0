/** The paths that a shape prints: each value of a reply has an address, a list
    of keys and items, and the path printed for it is the text of the address. */
module Addresses {
  import opened Text
  import opened Json
  import opened Sorting
  import opened Shape

  datatype Move = Key(name: string) | Item(index: nat)

  type Address = seq<Move>

  /** The value at an address. */
  function ValueAt(v: Json, a: Address): Option<Json>
    decreases |a|
  {
    if a == [] then Some(v)
    else
      match a[0]
      case Key(name) => if v.Obj? && name in v.fields then ValueAt(v.fields[name], a[1..]) else None
      case Item(index) => if v.Arr? && index < |v.items| then ValueAt(v.items[index], a[1..]) else None
  }

  /** Only empty keys: nothing to print. */
  predicate Silent(a: Address) {
    forall i | 0 <= i < |a| :: a[i] == Key("")
  }

  /** The keys of an address joined by dots, with brackets for each item. A key
      with nothing printed before it has no dot. */
  function Spell(a: Address): string {
    if a == [] then ""
    else
      var init := a[..|a| - 1];
      match a[|a| - 1]
      case Item(_) => Spell(init) + "[]"
      case Key(name) => if Silent(init) then name else Spell(init) + "." + name
  }

  lemma SilentMore(a: Address, m: Move)
    ensures Silent(a + [m]) <==> Silent(a) && m == Key("")
  {
    assert (a + [m])[|a|] == m;
    assert forall i | 0 <= i < |a| :: (a + [m])[i] == a[i];
  }

  lemma {:induction false} SpellSilent(a: Address)
    ensures Spell(a) == "" <==> Silent(a)
  {
    if a != [] {
      var init, m := a[..|a| - 1], a[|a| - 1];
      assert a == init + [m];
      SpellSilent(init);
      SilentMore(init, m);
    }
  }

  lemma SpellField(a: Address, name: string)
    ensures Spell(a + [Key(name)]) == FieldPath(Spell(a), name)
  {
    SpellSilent(a);
    assert (a + [Key(name)])[..|a|] == a;
  }

  lemma SpellItem(a: Address, index: nat)
    ensures Spell(a + [Item(index)]) == ItemPath(Spell(a))
  {
    assert (a + [Item(index)])[..|a|] == a;
  }

  // What is seen at the addresses

  function KindName(v: Json): string {
    match v
    case Null => "null"
    case Bool(_) => "bool"
    case Num(_) => "number"
    case Str(_) => "string"
    case Arr(_) => "array"
    case Obj(_) => "object"
  }

  /** Strings have their length for a size, arrays and objects how many they hold. */
  function SizeIn(v: Json): Size {
    match v
    case Str(text) => Size(Bytes(text))
    case Arr(items) => Size(|items|)
    case Obj(fields) => Size(|fields|)
    case _ => NoSize
  }

  /** What is seen at an address below pre. */
  function SeenFrom(pre: Address, v: Json): Address -> Seen {
    (a: Address) =>
      match ValueAt(v, a)
      case None => Seen("", "", NoSize)
      case Some(x) => Seen(Spell(pre + a), KindName(x), SizeIn(x))
  }

  /** All addresses of a reply, each once. */
  ghost predicate AreAll(v: Json, all: seq<Address>) {
    NoDuplicates(all) && forall a :: a in all <==> ValueAt(v, a).Some?
  }

  /** Those that begin with one of some moves. */
  ghost predicate AreBelow(v: Json, begins: Move -> bool, all: seq<Address>) {
    NoDuplicates(all) && forall a :: a in all <==> a != [] && begins(a[0]) && ValueAt(v, a).Some?
  }

  function Under(m: Move): Address -> Address {
    (a: Address) => [m] + a
  }

  lemma UnderDistinct(m: Move, all: seq<Address>)
    requires NoDuplicates(all)
    ensures NoDuplicates(Image(Under(m), all))
    ensures forall a :: a in Image(Under(m), all) <==> a != [] && a[0] == m && a[1..] in all
  {
    var r := Image(Under(m), all);
    forall i, j | 0 <= i < j < |r| ensures r[i] != r[j] {
      assert r[i][1..] == all[i] && r[j][1..] == all[j];
    }
    forall a ensures a in r <==> a != [] && a[0] == m && a[1..] in all {
      if a in r {
        var i :| 0 <= i < |r| && r[i] == a;
        assert a[1..] == all[i];
      }
      if a != [] && a[0] == m && a[1..] in all {
        var i :| 0 <= i < |all| && all[i] == a[1..];
        assert r[i] == [m] + a[1..] == a;
      }
    }
  }

  lemma SeenUnder(pre: Address, v: Json, m: Move, child: Json, all: seq<Address>)
    requires ValueAt(v, [m]) == Some(child)
    ensures Image(SeenFrom(pre, v), Image(Under(m), all)) == Image(SeenFrom(pre + [m], child), all)
  {
    forall i | 0 <= i < |all| ensures SeenFrom(pre, v)(Under(m)(all[i])) == SeenFrom(pre + [m], child)(all[i]) {
      var a := all[i];
      assert ([m] + a)[1..] == a && [m][1..] == [];
      assert pre + ([m] + a) == (pre + [m]) + a;
    }
  }

  /** The addresses below one move more. */
  lemma BelowMore(pre: Address, v: Json, m: Move, child: Json, all: seq<Address>, begins: Move -> bool, rest: seq<Address>,
      more: Move -> bool) returns (r: seq<Address>)
    requires ValueAt(v, [m]) == Some(child) && AreAll(child, all) && AreBelow(v, begins, rest)
    requires !begins(m) && forall x :: more(x) <==> x == m || begins(x)
    ensures AreBelow(v, more, r)
    ensures multiset(Image(SeenFrom(pre, v), r)) ==
      multiset(Image(SeenFrom(pre + [m], child), all)) + multiset(Image(SeenFrom(pre, v), rest))
  {
    var mine := Image(Under(m), all);
    r := mine + rest;
    UnderDistinct(m, all);
    SeenUnder(pre, v, m, child, all);
    ImageConcat(SeenFrom(pre, v), mine, rest);
    BelowJoins(v, m, child, all, mine, begins, rest, more);
  }

  lemma BelowJoins(v: Json, m: Move, child: Json, all: seq<Address>, mine: seq<Address>, begins: Move -> bool, rest: seq<Address>,
      more: Move -> bool)
    requires ValueAt(v, [m]) == Some(child) && AreAll(child, all) && AreBelow(v, begins, rest)
    requires !begins(m) && forall x :: more(x) <==> x == m || begins(x)
    requires NoDuplicates(mine) && forall a :: a in mine <==> a != [] && a[0] == m && a[1..] in all
    ensures AreBelow(v, more, mine + rest)
  {
    forall a ensures a in mine <==> a != [] && a[0] == m && ValueAt(v, a).Some? {
      assert [m][1..] == [];
    }
    var r := mine + rest;
    forall i, j | 0 <= i < j < |r| ensures r[i] != r[j] {
      if i < |mine| <= j {
        assert r[i] in mine && r[j] in rest;
      }
    }
  }

  lemma HereAndBelow(pre: Address, v: Json, begins: Move -> bool, below: seq<Address>) returns (all: seq<Address>)
    requires AreBelow(v, begins, below) && forall a | a != [] && ValueAt(v, a).Some? :: begins(a[0])
    ensures AreAll(v, all)
    ensures multiset(Image(SeenFrom(pre, v), all)) ==
      multiset{Seen(Spell(pre), KindName(v), SizeIn(v))} + multiset(Image(SeenFrom(pre, v), below))
  {
    all := [[]] + below;
    AllAre(v, begins, below);
    ImageConcat(SeenFrom(pre, v), [[]], below);
    assert pre + [] == pre && SeenFrom(pre, v)([]) == Seen(Spell(pre), KindName(v), SizeIn(v));
    assert Image(SeenFrom(pre, v), [[]]) == [SeenFrom(pre, v)([])];
  }

  lemma {:induction false} AllAddresses(pre: Address, v: Json) returns (all: seq<Address>)
    ensures AreAll(v, all)
    ensures SeenIn(Spell(pre), v) == multiset(Image(SeenFrom(pre, v), all))
    decreases v, 1, 0
  {
    var below: seq<Address>;
    match v {
      case Arr(items) =>
        assert items[0..] == items;
        below := ItemAddresses(pre, v, 0);
        all := HereAndBelow(pre, v, (m: Move) => m.Item? && m.index >= 0, below);
      case Obj(fields) =>
        below := FieldAddresses(pre, v, fields.Keys);
        all := HereAndBelow(pre, v, (m: Move) => m.Key? && m.name in fields.Keys, below);
      case _ =>
        all := HereAndBelow(pre, v, (m: Move) => false, []);
        assert Image(SeenFrom(pre, v), []) == [];
    }
  }

  lemma AllAre(v: Json, begins: Move -> bool, below: seq<Address>)
    requires AreBelow(v, begins, below) && forall a | a != [] && ValueAt(v, a).Some? :: begins(a[0])
    ensures AreAll(v, [[]] + below)
  {
    var all := [[]] + below;
    forall i, j | 0 <= i < j < |all| ensures all[i] != all[j] {
      assert all[j] == below[j - 1] && below[j - 1] in below;
      if i > 0 {
        assert all[i] == below[i - 1];
      }
    }
  }

  lemma {:induction false} ItemAddresses(pre: Address, v: Json, n: nat) returns (all: seq<Address>)
    requires v.Arr? && n <= |v.items|
    ensures AreBelow(v, (m: Move) => m.Item? && m.index >= n, all)
    ensures SeenInItems(ItemPath(Spell(pre)), v.items[n..]) == multiset(Image(SeenFrom(pre, v), all))
    decreases v, 0, |v.items| - n
  {
    if n == |v.items| {
      all := [];
    } else {
      var child := v.items[n];
      var rest := ItemAddresses(pre, v, n + 1);
      var mine := AllAddresses(pre + [Item(n)], child);
      SpellItem(pre, n);
      assert [Item(n)][1..] == [];
      all := BelowMore(pre, v, Item(n), child, mine, (m: Move) => m.Item? && m.index >= n + 1, rest,
        (m: Move) => m.Item? && m.index >= n);
      assert v.items[n..][0] == child && v.items[n..][1..] == v.items[n + 1..];
    }
  }

  lemma {:induction false} FieldAddresses(pre: Address, v: Json, keys: set<string>) returns (all: seq<Address>)
    requires v.Obj? && keys <= v.fields.Keys
    ensures AreBelow(v, (m: Move) => m.Key? && m.name in keys, all)
    ensures SeenInFields(Spell(pre), v, keys) == multiset(Image(SeenFrom(pre, v), all))
    decreases v, 0, |keys|
  {
    if keys == {} {
      all := [];
    } else {
      var key :| key in keys;
      var child := v.fields[key];
      SeenInFieldsAdd(Spell(pre), v, keys, key);
      var rest := FieldAddresses(pre, v, keys - {key});
      var mine := AllAddresses(pre + [Key(key)], child);
      SpellField(pre, key);
      assert [Key(key)][1..] == [];
      all := BelowMore(pre, v, Key(key), child, mine, (m: Move) => m.Key? && m.name in keys - {key}, rest,
        (m: Move) => m.Key? && m.name in keys);
    }
  }

  // Which addresses share a path

  /** No key holds a dot or a bracket. */
  predicate PlainKeys(a: Address) {
    forall i | 0 <= i < |a| && a[i].Key? :: '.' !in a[i].name && '[' !in a[i].name
  }

  /** The address without the empty keys it begins with. */
  function Loud(a: Address): Address {
    if a != [] && a[0] == Key("") then Loud(a[1..]) else a
  }

  predicate SameMove(a: Move, b: Move) {
    if a.Item? then b.Item? else a == b
  }

  /** The same keys and items, whichever item. */
  predicate SameWay(a: Address, b: Address) {
    |a| == |b| && forall i | 0 <= i < |a| :: SameMove(a[i], b[i])
  }

  lemma {:induction false} LoudMore(a: Address, m: Move)
    ensures Loud(a + [m]) == if Silent(a + [m]) then [] else if Silent(a) then [m] else Loud(a) + [m]
    ensures Loud(a) == [] <==> Silent(a)
  {
    if a == [] {
      assert a + [m] == [m] && [m][1..] == [];
    } else {
      assert (a + [m])[0] == a[0] && (a + [m])[1..] == a[1..] + [m];
      if a[0] == Key("") {
        LoudMore(a[1..], m);
        SilentTail(a);
        SilentTail(a + [m]);
      }
    }
  }

  lemma SilentTail(a: Address)
    requires a != [] && a[0] == Key("")
    ensures Silent(a) <==> Silent(a[1..])
  {
    if Silent(a[1..]) {
      assert forall i | 0 < i < |a| :: a[i] == a[1..][i - 1];
    }
  }

  lemma SameWayMore(a: Address, x: Move, b: Address, y: Move)
    ensures SameWay(a + [x], b + [y]) <==> SameWay(a, b) && SameMove(x, y)
  {
    assert |a| == |b| ==> (a + [x])[|a|] == x && (b + [y])[|a|] == y;
    assert |a| == |b| ==> forall i | 0 <= i < |a| :: (a + [x])[i] == a[i] && (b + [y])[i] == b[i];
  }

  /** A key is told by what stands after the last dot. */
  lemma AfterDot(s: string, k: string, t: string, l: string)
    requires '.' !in k && '.' !in l
    ensures s + "." + k == t + "." + l <==> s == t && k == l
    ensures s + "." + k != l
  {
    assert (s + "." + k)[|s|] == '.';
    if s + "." + k == t + "." + l {
      DotAt(s, k, t, l);
    }
  }

  lemma NotLonger<T>(s: seq<T>, d: T, k: seq<T>, t: seq<T>, l: seq<T>)
    requires d !in l && s + [d] + k == t + [d] + l
    ensures |s| <= |t|
  {
    var whole := t + [d] + l;
    assert (s + [d] + k)[|s|] == d;
    assert forall i | |t| < i < |whole| :: whole[i] == l[i - |t| - 1] && l[i - |t| - 1] in l;
  }

  lemma DotAt(s: string, k: string, t: string, l: string)
    requires '.' !in k && '.' !in l && s + "." + k == t + "." + l
    ensures s == t && k == l
  {
    NotLonger(s, '.', k, t, l);
    NotLonger(t, '.', l, s, k);
    SameParts(s, '.', k, t, l);
  }

  lemma SameParts<T>(s: seq<T>, d: T, k: seq<T>, t: seq<T>, l: seq<T>)
    requires |s| == |t| && s + [d] + k == t + [d] + l
    ensures s == t && k == l
  {
    var whole := s + [d] + k;
    assert s == whole[..|s|] && t == whole[..|t|];
    assert k == whole[|s| + 1..] && l == whole[|t| + 1..];
  }

  /** No key ends as an item does. */
  lemma KeyIsNoItem(s: string, k: string, t: string)
    requires '[' !in k
    ensures s + "." + k != t + "[]" && k != t + "[]"
  {
    var item := t + "[]";
    assert item[|t|] == '[' && item[|t| + 1] == ']' && |item| == |t| + 2;
    var key := s + "." + k;
    assert |k| >= 2 ==> key[|key| - 2] == k[|k| - 2] && k[|k| - 2] in k;
    assert |k| >= 2 ==> k[|k| - 2] != '[';
    assert |k| == 1 ==> key[|key| - 2] == '.';
  }

  lemma ItemsTell(s: string, t: string)
    ensures s + "[]" == t + "[]" <==> s == t
  {
    if s + "[]" == t + "[]" {
      assert s == (s + "[]")[..|s|] && t == (t + "[]")[..|t|];
    }
  }

  lemma LoudTell(p: Address, x: Move, q: Address, y: Move)
    requires !Silent(p + [x]) && !Silent(q + [y])
    ensures SameWay(Loud(p + [x]), Loud(q + [y])) <==> SameMove(x, y) && SameWay(Loud(p), Loud(q))
  {
    LoudMore(p, x);
    LoudMore(q, y);
    SameWayMore(Loud(p), x, Loud(q), y);
    SameWayMore([], x, Loud(q), y);
    SameWayMore(Loud(p), x, [], y);
    SameWayMore([], x, [], y);
    assert [] + [x] == [x] && [] + [y] == [y];
  }

  /** Two addresses whose keys hold no dot and no bracket have one text exactly
      when they lead the same way, empty keys at their start aside. */
  lemma {:induction false} SpellTells(a: Address, b: Address)
    requires PlainKeys(a) && PlainKeys(b)
    ensures Spell(a) == Spell(b) <==> SameWay(Loud(a), Loud(b))
    decreases |a|
  {
    SpellSilent(a);
    SpellSilent(b);
    LoudMore(a, Key(""));
    LoudMore(b, Key(""));
    if !Silent(a) && !Silent(b) {
      var p, x := a[..|a| - 1], a[|a| - 1];
      var q, y := b[..|b| - 1], b[|b| - 1];
      assert a == p + [x] && b == q + [y];
      LoudMore(p, x);
      LoudMore(q, y);
      SpellTells(p, q);
      LastMovesTell(p, x, q, y);
      LoudTell(p, x, q, y);
    }
  }

  lemma LastMovesTell(p: Address, x: Move, q: Address, y: Move)
    requires PlainKeys(p + [x]) && PlainKeys(q + [y]) && !Silent(p + [x]) && !Silent(q + [y])
    ensures Spell(p + [x]) == Spell(q + [y]) <==> SameMove(x, y) && Spell(p) == Spell(q)
  {
    assert (p + [x])[..|p|] == p && (p + [x])[|p|] == x;
    assert (q + [y])[..|q|] == q && (q + [y])[|q|] == y;
    SpellSilent(p);
    SpellSilent(q);
    var s, t := Spell(p), Spell(q);
    match (x, y)
    case (Item(_), Item(_)) => ItemsTell(s, t);
    case (Item(_), Key(l)) => KeyIsNoItem(t, l, s);
    case (Key(k), Item(_)) => KeyIsNoItem(s, k, t);
    case (Key(k), Key(l)) =>
      AfterDot(s, k, t, l);
      AfterDot(t, l, s, k);
  }

  lemma SpellOne(name: string)
    ensures Spell([Key(name)]) == name
  {
    var a: Address := [];
    assert a + [Key(name)] == [Key(name)];
    SpellField(a, name);
  }

  lemma SpellTwo(name: string, next: string)
    requires name != ""
    ensures Spell([Key(name), Key(next)]) == name + "." + next
  {
    assert [Key(name)] + [Key(next)] == [Key(name), Key(next)];
    SpellOne(name);
    SpellField([Key(name)], next);
  }

  /** A key that holds a dot has the path of the two keys around it, and an empty
      key that of the reply. */
  lemma KeysShareAPath(name: string, next: string)
    requires name != ""
    ensures Spell([Key(name + "." + next)]) == Spell([Key(name), Key(next)])
    ensures Spell([Key("")]) == Spell([])
  {
    SpellOne(name + "." + next);
    SpellTwo(name, next);
    SpellOne("");
  }
}
