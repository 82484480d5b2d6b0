/** What the value of a string expression is: its literals and known names in
    their order, with one placeholder for each part of which nothing is known. */
module ConstTexts {
  import opened Text
  import opened Consts

  /** The operands from left to right, None for one that is not known. */
  function Operands(e: Expr, consts: Values): seq<Option<string>> {
    match e
    case Literal(text) => [Some(text)]
    case Plus(l, r) => Operands(l, consts) + Operands(r, consts)
    case Ident(name) => [if name in consts then Some(consts[name]) else None]
    case Paren(inner) => Operands(inner, consts)
    case Default(english) => Operands(english, consts)
    case Opaque => [None]
  }

  predicate SomeKnown(xs: seq<Option<string>>) {
    exists i :: 0 <= i < |xs| && xs[i].Some?
  }

  predicate AllKnown(xs: seq<Option<string>>) {
    forall i | 0 <= i < |xs| :: xs[i].Some?
  }

  function Concat(xs: seq<Option<string>>): string
    requires AllKnown(xs)
  {
    if xs == [] then "" else xs[0].value + Concat(xs[1..])
  }

  lemma SomeKnownJoin(a: seq<Option<string>>, b: seq<Option<string>>)
    ensures SomeKnown(a + b) <==> SomeKnown(a) || SomeKnown(b)
    ensures AllKnown(a + b) <==> AllKnown(a) && AllKnown(b)
  {
    var c := a + b;
    assert forall i | 0 <= i < |a| :: c[i] == a[i];
    assert forall i | 0 <= i < |b| :: c[|a| + i] == b[i];
  }

  lemma {:induction false} ConcatJoin(a: seq<Option<string>>, b: seq<Option<string>>)
    requires AllKnown(a) && AllKnown(b)
    ensures AllKnown(a + b) && Concat(a + b) == Concat(a) + Concat(b)
  {
    SomeKnownJoin(a, b);
    if a == [] {
      assert a + b == b;
    } else {
      assert (a + b)[0] == a[0] && (a + b)[1..] == a[1..] + b;
      ConcatJoin(a[1..], b);
    }
  }

  lemma OneOperand(x: Option<string>)
    ensures (SomeKnown([x]) <==> x.Some?) && (AllKnown([x]) <==> x.Some?) && (x.Some? ==> Concat([x]) == x.value)
  {
    assert [x][0] == x && [x][1..] == [];
    if x.Some? {
      assert x.value + "" == x.value;
    }
  }

  /** An expression is known exactly when one of its operands is. */
  lemma {:induction false} KnownOperand(e: Expr, consts: Values)
    ensures Flatten(e, consts).Some? <==> SomeKnown(Operands(e, consts))
  {
    match e
    case Plus(l, r) =>
      KnownOperand(l, consts);
      KnownOperand(r, consts);
      SomeKnownJoin(Operands(l, consts), Operands(r, consts));
    case Paren(inner) => KnownOperand(inner, consts);
    case Default(english) => KnownOperand(english, consts);
    case _ =>
      OneOperand(Operands(e, consts)[0]);
  }

  /** The expression with a placeholder for each part of which nothing is known. */
  function Filled(e: Expr, consts: Values): Expr {
    if !SomeKnown(Operands(e, consts)) then Literal("$VALUE")
    else
      match e
      case Plus(l, r) => Plus(Filled(l, consts), Filled(r, consts))
      case Paren(inner) => Filled(inner, consts)
      case Default(english) => Filled(english, consts)
      case _ => e
  }

  /** With every operand known the value is what they are, one after the other. */
  lemma {:induction false} KnownReads(e: Expr, consts: Values)
    requires AllKnown(Operands(e, consts))
    ensures Flatten(e, consts) == Some(Concat(Operands(e, consts)))
  {
    match e
    case Plus(l, r) =>
      SomeKnownJoin(Operands(l, consts), Operands(r, consts));
      KnownReads(l, consts);
      KnownReads(r, consts);
      ConcatJoin(Operands(l, consts), Operands(r, consts));
    case Paren(inner) => KnownReads(inner, consts);
    case Default(english) => KnownReads(english, consts);
    case Literal(text) => OneOperand(Some(text));
    case Ident(name) => OneOperand(Lookup(consts, name));
    case Opaque => OneOperand(None);
  }

  lemma {:induction false} FilledKnown(e: Expr, consts: Values)
    ensures AllKnown(Operands(Filled(e, consts), consts))
  {
    if SomeKnown(Operands(e, consts)) {
      match e
      case Plus(l, r) =>
        FilledKnown(l, consts);
        FilledKnown(r, consts);
        SomeKnownJoin(Operands(Filled(l, consts), consts), Operands(Filled(r, consts), consts));
      case Paren(inner) => FilledKnown(inner, consts);
      case Default(english) => FilledKnown(english, consts);
      case _ =>
    }
  }

  lemma {:induction false} FilledReads(e: Expr, consts: Values)
    ensures Flatten(Filled(e, consts), consts) ==
      if SomeKnown(Operands(e, consts)) then Flatten(e, consts) else Some("$VALUE")
  {
    if SomeKnown(Operands(e, consts)) {
      match e
      case Plus(l, r) =>
        FilledReads(l, consts);
        FilledReads(r, consts);
        KnownOperand(l, consts);
        KnownOperand(r, consts);
        SomeKnownJoin(Operands(l, consts), Operands(r, consts));
      case Paren(inner) => FilledReads(inner, consts);
      case Default(english) => FilledReads(english, consts);
      case _ =>
    }
  }

  /** A value is its operands in their order, one after the other, and a
      placeholder for each part of which nothing is known. */
  lemma ValueReads(e: Expr, consts: Values)
    ensures Flatten(e, consts).Some? <==> SomeKnown(Operands(e, consts))
    ensures AllKnown(Operands(Filled(e, consts), consts))
    ensures Flatten(e, consts).Some? ==> Flatten(e, consts).value == Concat(Operands(Filled(e, consts), consts))
    ensures AllKnown(Operands(e, consts)) ==> Flatten(e, consts) == Some(Concat(Operands(e, consts)))
  {
    KnownOperand(e, consts);
    FilledKnown(e, consts);
    FilledReads(e, consts);
    KnownReads(Filled(e, consts), consts);
    if AllKnown(Operands(e, consts)) {
      KnownReads(e, consts);
    }
  }

  /** The expression with the names replaced by what they are declared as, n
      times over; a name that is still there then is not known. */
  function Inlined(decls: Decls, e: Expr, n: nat): Expr
    decreases n, e
  {
    match e
    case Plus(l, r) => Plus(Inlined(decls, l, n), Inlined(decls, r, n))
    case Ident(name) => if name in decls && n > 0 then Paren(Inlined(decls, decls[name], n - 1)) else Opaque
    case Paren(inner) => Paren(Inlined(decls, inner, n))
    case Default(english) => Default(Inlined(decls, english, n))
    case _ => e
  }

  /** What a constant stands for is the value of its expression with the names
      replaced. */
  lemma {:induction false} MeaningReads(decls: Decls, e: Expr, n: nat)
    ensures Meaning(decls, e, n) == Flatten(Inlined(decls, e, n), map[])
    decreases n, e
  {
    match e
    case Plus(l, r) =>
      MeaningReads(decls, l, n);
      MeaningReads(decls, r, n);
    case Ident(name) =>
      if name in decls && n > 0 {
        MeaningReads(decls, decls[name], n - 1);
      }
    case Paren(inner) => MeaningReads(decls, inner, n);
    case Default(english) => MeaningReads(decls, english, n);
    case _ =>
  }
}
