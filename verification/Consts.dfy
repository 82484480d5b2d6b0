/** Resolving string constants that are built from one another: flatten and the
    two passes of extractFile in cmd/terva-ste-lint/extract.go. Each pass ranges
    over a map, so in any order. */
module Consts {
  import opened Text
  import opened Sorting

  /** An initializer. A literal is unquoted; Default is a call that carries its
      English text; Opaque is anything else. */
  datatype Expr =
    | Literal(text: string)
    | Plus(left: Expr, right: Expr)
    | Ident(name: string)
    | Paren(inner: Expr)
    | Default(english: Expr)
    | Opaque

  type Decls = map<string, Expr>

  type Values = map<string, string>

  const PLACEHOLDER := "$VALUE"

  /** A sum of two operands, of which at least one must be known. */
  function Sum(l: Option<string>, r: Option<string>): Option<string> {
    if l.None? && r.None? then None
    else Some((if l.Some? then l.value else PLACEHOLDER) + if r.Some? then r.value else PLACEHOLDER)
  }

  function Lookup(consts: Values, name: string): Option<string> {
    if name in consts then Some(consts[name]) else None
  }

  function Flatten(e: Expr, consts: Values): Option<string> {
    match e
    case Literal(text) => Some(text)
    case Plus(l, r) => Sum(Flatten(l, consts), Flatten(r, consts))
    case Ident(name) => Lookup(consts, name)
    case Paren(inner) => Flatten(inner, consts)
    case Default(english) => Flatten(english, consts)
    case Opaque => None
  }

  function Assign(decls: Decls, consts: Values, name: string): Values {
    if name !in decls then consts
    else
      match Flatten(decls[name], consts)
      case Some(s) => consts[name := s]
      case None => consts
  }

  /** One pass over the names, in this order. */
  function Pass(decls: Decls, consts: Values, order: seq<string>): Values {
    if order == [] then consts
    else Assign(decls, Pass(decls, consts, order[..|order| - 1]), order[|order| - 1])
  }

  function Passes(decls: Decls, orders: seq<seq<string>>): Values {
    if orders == [] then map[]
    else Pass(decls, Passes(decls, orders[..|orders| - 1]), orders[|orders| - 1])
  }

  /** An order in which Go may range over the declarations. */
  ghost predicate Ranges(decls: Decls, order: seq<string>) {
    NoDuplicates(order) && forall name :: name in order <==> name in decls
  }

  /** The loops of extractFile, with the orders its ranges happen to take. */
  method ResolveConstants(decls: Decls, orders: seq<seq<string>>) returns (consts: Values)
    requires forall i | 0 <= i < |orders| :: Ranges(decls, orders[i])
    ensures consts == Passes(decls, orders)
  {
    consts := map[];
    var n := 0;
    while n < |orders|
      invariant n <= |orders| && consts == Passes(decls, orders[..n])
    {
      var order := orders[n];
      ghost var before := consts;
      var i := 0;
      while i < |order|
        invariant i <= |order| && consts == Pass(decls, before, order[..i])
      {
        assert order[i] in order && order[..i + 1][..i] == order[..i];
        var str := Flatten(decls[order[i]], consts);
        if str.Some? {
          consts := consts[order[i] := str.value];
        }
        i := i + 1;
      }
      assert order[..|order|] == order && orders[..n + 1][..n] == orders[..n];
      n := n + 1;
    }
    assert orders[..|orders|] == orders;
  }

  // What a constant stands for

  /** Chains of declared names in the expression are at most n long. */
  predicate Depth(decls: Decls, e: Expr, n: nat)
    decreases n, e
  {
    match e
    case Plus(l, r) => Depth(decls, l, n) && Depth(decls, r, n)
    case Ident(name) => name in decls ==> n > 0 && Depth(decls, decls[name], n - 1)
    case Paren(inner) => Depth(decls, inner, n)
    case Default(english) => Depth(decls, english, n)
    case _ => true
  }

  /** The value with every declared name replaced by its own value, n deep. */
  function Meaning(decls: Decls, e: Expr, n: nat): Option<string>
    decreases n, e
  {
    match e
    case Literal(text) => Some(text)
    case Plus(l, r) => Sum(Meaning(decls, l, n), Meaning(decls, r, n))
    case Ident(name) => if name in decls && n > 0 then Meaning(decls, decls[name], n - 1) else None
    case Paren(inner) => Meaning(decls, inner, n)
    case Default(english) => Meaning(decls, english, n)
    case Opaque => None
  }

  lemma {:induction false} DeeperSame(decls: Decls, e: Expr, n: nat)
    requires Depth(decls, e, n)
    ensures Depth(decls, e, n + 1) && Meaning(decls, e, n + 1) == Meaning(decls, e, n)
    decreases n, e
  {
    match e
    case Plus(l, r) =>
      DeeperSame(decls, l, n);
      DeeperSame(decls, r, n);
    case Ident(name) =>
      if name in decls {
        DeeperSame(decls, decls[name], n - 1);
      }
    case Paren(inner) => DeeperSame(decls, inner, n);
    case Default(english) => DeeperSame(decls, english, n);
    case _ =>
  }

  // What the passes settle

  /** Names with chains shorter than n have their meaning. */
  ghost predicate Settled(decls: Decls, consts: Values, n: nat) {
    forall name | name in decls && n > 0 && Depth(decls, decls[name], n - 1) ::
      Lookup(consts, name) == Meaning(decls, decls[name], n - 1)
  }

  /** A name is only ever assigned when it has a meaning. */
  ghost predicate Sound(decls: Decls, consts: Values) {
    forall name | name in consts :: Meant(decls, name)
  }

  ghost predicate Meant(decls: Decls, name: string) {
    name in decls && forall n: nat | Depth(decls, decls[name], n) :: Meaning(decls, decls[name], n).Some?
  }

  /** Knowing more names can only make more expressions known. */
  lemma {:induction false} FlattenMonotone(e: Expr, a: Values, b: Values)
    requires a.Keys <= b.Keys && Flatten(e, a).Some?
    ensures Flatten(e, b).Some?
  {
    match e
    case Plus(l, r) =>
      if Flatten(l, a).Some? {
        FlattenMonotone(l, a, b);
      } else {
        FlattenMonotone(r, a, b);
      }
    case Paren(inner) => FlattenMonotone(inner, a, b);
    case Default(english) => FlattenMonotone(english, a, b);
    case _ =>
  }

  lemma {:induction false} FlattenSound(decls: Decls, e: Expr, consts: Values, n: nat)
    requires Sound(decls, consts) && Depth(decls, e, n) && Flatten(e, consts).Some?
    ensures Meaning(decls, e, n).Some?
  {
    match e
    case Plus(l, r) =>
      if Flatten(l, consts).Some? {
        FlattenSound(decls, l, consts, n);
      } else {
        FlattenSound(decls, r, consts, n);
      }
    case Ident(name) => assert Meant(decls, name);
    case Paren(inner) => FlattenSound(decls, inner, consts, n);
    case Default(english) => FlattenSound(decls, english, consts, n);
    case _ =>
  }

  /** With shorter chains settled, flattening gives the meaning. */
  lemma {:induction false} FlattenSettled(decls: Decls, e: Expr, consts: Values, n: nat)
    requires Settled(decls, consts, n) && Sound(decls, consts) && Depth(decls, e, n)
    ensures Flatten(e, consts) == Meaning(decls, e, n)
  {
    match e
    case Plus(l, r) =>
      FlattenSettled(decls, l, consts, n);
      FlattenSettled(decls, r, consts, n);
    case Ident(name) =>
      if name in consts {
        assert Meant(decls, name);
      }
    case Paren(inner) => FlattenSettled(decls, inner, consts, n);
    case Default(english) => FlattenSettled(decls, english, consts, n);
    case _ =>
  }

  lemma AssignKeeps(decls: Decls, consts: Values, name: string, n: nat)
    requires Settled(decls, consts, n) && Sound(decls, consts)
    ensures Settled(decls, Assign(decls, consts, name), n) && Sound(decls, Assign(decls, consts, name))
    ensures name in decls && Depth(decls, decls[name], n) ==>
      Lookup(Assign(decls, consts, name), name) == Meaning(decls, decls[name], n)
  {
    if name in decls {
      var e := decls[name];
      if Flatten(e, consts).Some? {
        forall m: nat | Depth(decls, e, m) ensures Meaning(decls, e, m).Some? {
          FlattenSound(decls, e, consts, m);
        }
        assert Meant(decls, name);
      }
      if n > 0 && Depth(decls, e, n - 1) {
        DeeperSame(decls, e, n - 1);
      }
      if Depth(decls, e, n) {
        FlattenSettled(decls, e, consts, n);
        if name in consts {
          assert Meant(decls, name);
        }
      }
    }
  }

  /** The names of the order whose chains are n long have their meaning. */
  lemma {:induction false} PassSettles(decls: Decls, consts: Values, order: seq<string>, n: nat)
    requires Settled(decls, consts, n) && Sound(decls, consts)
    ensures Settled(decls, Pass(decls, consts, order), n) && Sound(decls, Pass(decls, consts, order))
    ensures forall name | name in order && name in decls && Depth(decls, decls[name], n) ::
      Lookup(Pass(decls, consts, order), name) == Meaning(decls, decls[name], n)
  {
    if order != [] {
      var init, last := order[..|order| - 1], order[|order| - 1];
      PassSettles(decls, consts, init, n);
      AssignKeeps(decls, Pass(decls, consts, init), last, n);
      assert order == init + [last];
    }
  }

  lemma {:induction false} PassesSettle(decls: Decls, orders: seq<seq<string>>)
    requires forall i | 0 <= i < |orders| :: Ranges(decls, orders[i])
    ensures Settled(decls, Passes(decls, orders), |orders|) && Sound(decls, Passes(decls, orders))
  {
    if orders != [] {
      var n := |orders| - 1;
      PassesSettle(decls, orders[..n]);
      PassSettles(decls, Passes(decls, orders[..n]), orders[n], n);
      forall name | name in decls && Depth(decls, decls[name], n)
        ensures Lookup(Passes(decls, orders), name) == Meaning(decls, decls[name], n)
      {
        assert name in orders[n];
      }
    }
  }

  // The main results

  /** n passes, each in any order, give every constant whose chains are shorter
      than n its meaning, and leave unresolved those that have none. */
  lemma ChainsSettle(decls: Decls, orders: seq<seq<string>>, name: string)
    requires forall i | 0 <= i < |orders| :: Ranges(decls, orders[i])
    requires name in decls && orders != [] && Depth(decls, decls[name], |orders| - 1)
    ensures Lookup(Passes(decls, orders), name) == Meaning(decls, decls[name], |orders| - 1)
  {
    PassesSettle(decls, orders);
  }

  /** So the orders of the ranges do not show. */
  lemma OrdersDoNotMatter(decls: Decls, orders: seq<seq<string>>, others: seq<seq<string>>, name: string)
    requires |orders| == |others| > 0
    requires forall i | 0 <= i < |orders| :: Ranges(decls, orders[i]) && Ranges(decls, others[i])
    requires name in decls && Depth(decls, decls[name], |orders| - 1)
    ensures Lookup(Passes(decls, orders), name) == Lookup(Passes(decls, others), name)
  {
    ChainsSettle(decls, orders, name);
    ChainsSettle(decls, others, name);
  }

  /** Two passes are not enough for a chain of two names: what the third
      constant comes to depends on the order. */
  lemma LongerChainsDepend() returns (decls: Decls, orders: seq<seq<string>>, others: seq<seq<string>>, name: string)
    ensures |orders| == |others| == 2 && name in decls && Depth(decls, decls[name], 2)
    ensures forall i | 0 <= i < 2 :: Ranges(decls, orders[i]) && Ranges(decls, others[i])
    ensures Lookup(Passes(decls, orders), name) != Lookup(Passes(decls, others), name)
  {
    decls := CHAIN;
    name := "c";
    var up, down := ["a", "b", "c"], ["c", "b", "a"];
    orders, others := [up, up], [down, down];
    LastName(decls, up);
    LastName(decls, down);
    assert Lookup(Passes(decls, orders), "c").value[0] == 'x';
    assert Lookup(Passes(decls, others), "c").value[0] == '$';
  }

  const CHAIN: Decls := map["a" := Literal("x"), "b" := Plus(Ident("a"), Literal("y")), "c" := Plus(Ident("b"), Literal("z"))]

  lemma AssignSum(consts: Values, name: string, operand: string, text: string)
    requires name in CHAIN && CHAIN[name] == Plus(Ident(operand), Literal(text))
    ensures Assign(CHAIN, consts, name) == consts[name := (if operand in consts then consts[operand] else PLACEHOLDER) + text]
  {
    assert Flatten(Literal(text), consts) == Some(text) && Flatten(Ident(operand), consts) == Lookup(consts, operand);
    assert Flatten(CHAIN[name], consts) == Sum(Lookup(consts, operand), Some(text));
  }

  /** Where the third constant starts after both passes, upwards and downwards. */
  lemma LastName(decls: Decls, order: seq<string>)
    requires decls == CHAIN && (order == ["a", "b", "c"] || order == ["c", "b", "a"])
    ensures var s := Lookup(Passes(decls, [order, order]), "c");
      s.Some? && s.value != "" && s.value[0] == if order[0] == "a" then 'x' else '$'
  {
    TwoPasses(decls, order);
    var first := Pass(decls, map[], order);
    AfterPass(decls, map[], order[0], order[1], order[2]);
    AfterPass(decls, first, order[0], order[1], order[2]);
    if order[0] == "a" {
      ThirdName(map[]);
      ThirdName(first);
    } else {
      ThirdNameFirst(first);
    }
  }

  lemma ThirdName(consts: Values)
    ensures var t := Assign(CHAIN, Assign(CHAIN, Assign(CHAIN, consts, "a"), "b"), "c");
      "c" in t && t["c"] == "x" + "y" + "z"
  {
    var s := Assign(CHAIN, consts, "a");
    AssignSum(s, "b", "a", "y");
    AssignSum(Assign(CHAIN, s, "b"), "c", "b", "z");
  }

  lemma ThirdNameFirst(first: Values)
    requires first == Assign(CHAIN, Assign(CHAIN, Assign(CHAIN, map[], "c"), "b"), "a")
    ensures var t := Assign(CHAIN, Assign(CHAIN, Assign(CHAIN, first, "c"), "b"), "a");
      "c" in t && t["c"] == PLACEHOLDER + "y" + "z"
  {
    var s := Assign(CHAIN, map[], "c");
    AssignSum(s, "b", "a", "y");
    AssignSum(first, "c", "b", "z");
    AssignSum(Assign(CHAIN, first, "c"), "b", "a", "y");
  }

  lemma AfterPass(decls: Decls, consts: Values, p: string, q: string, r: string)
    ensures Pass(decls, consts, [p, q, r]) == Assign(decls, Assign(decls, Assign(decls, consts, p), q), r)
  {
    assert [p, q, r][..2] == [p, q] && [p, q][..1] == [p];
    assert Pass(decls, consts, [p]) == Assign(decls, consts, p) by {
      assert [p][..0] == [];
    }
    assert Pass(decls, consts, [p, q]) == Assign(decls, Pass(decls, consts, [p]), q);
  }

  lemma TwoPasses(decls: Decls, order: seq<string>)
    ensures Passes(decls, [order, order]) == Pass(decls, Pass(decls, map[], order), order)
  {
    assert [order, order][..1] == [order] && [order][..0] == [];
    assert Passes(decls, [order]) == Pass(decls, Passes(decls, []), order);
  }
}
