/** What the text that describes a path tells: it determines the kinds, the
    number of values, the least and the greatest size and the average. */
module ShapeTexts {
  import opened Text
  import opened Sorting
  import opened Shape
  import opened ShapeLines

  /** A run of some characters, with another behind it, is told by the text. */
  lemma RunTells(of: char -> bool, a: string, x: string, b: string, y: string)
    requires (forall i | 0 <= i < |a| :: of(a[i])) && (forall i | 0 <= i < |b| :: of(b[i]))
    requires (x == "" || !of(x[0])) && (y == "" || !of(y[0]))
    ensures a + x == b + y <==> a == b && x == y
  {
    assert x != "" ==> (a + x)[|a|] == x[0];
    assert y != "" ==> (b + y)[|b|] == y[0];
    assert forall i | 0 <= i < |a| :: (a + x)[i] == a[i];
    assert forall i | 0 <= i < |b| :: (b + y)[i] == b[i];
    if a + x == b + y {
      assert |a| == |b|;
      assert a == (a + x)[..|a|] && b == (b + y)[..|b|];
      assert x == (a + x)[|a|..] && y == (b + y)[|b|..];
    }
  }

  lemma DecimalsTell(m: nat, x: string, n: nat, y: string)
    requires (x == "" || !IsDigit(x[0])) && (y == "" || !IsDigit(y[0]))
    ensures Decimal(m) + x == Decimal(n) + y <==> m == n && x == y
  {
    DecimalReads(m);
    DecimalReads(n);
    RunTells(IsDigit, Decimal(m), x, Decimal(n), y);
  }

  lemma PrefixTells<T>(p: seq<T>, x: seq<T>, y: seq<T>)
    ensures p + x == p + y <==> x == y
  {
    assert x == (p + x)[|p|..] && y == (p + y)[|p|..];
  }

  // How many

  lemma TimesTell(m: nat, n: nat)
    requires m > 0 && n > 0
    ensures Times(m) == Times(n) <==> m == n
    ensures Times(m) == "" || Times(m)[0] == ' '
  {
    if m > 1 && n > 1 {
      PrefixTells(" \U{D7}", Decimal(m), Decimal(n));
      DecimalsTell(m, "", n, "");
      assert Decimal(m) + "" == Decimal(m) && Decimal(n) + "" == Decimal(n);
    }
  }

  // The sizes

  /** What the sizes print: None without any. */
  datatype Measure = NoMeasure | Alike(size: nat) | Between(low: nat, high: nat, average: nat)

  function MeasureOf(s: Stats): Measure {
    if s.sized == 0 then NoMeasure
    else if s.minSize == s.maxSize then Alike(s.maxSize)
    else Between(s.minSize, s.maxSize, s.total / s.sized)
  }

  /** The part of the text behind its first bracket. */
  function Inner(m: Measure, times: string): string
    requires !m.NoMeasure?
  {
    match m
    case Alike(size) => Decimal(size) + (")" + times)
    case Between(low, high, average) =>
      Decimal(low) + (".." + (Decimal(high) + (", avg " + (Decimal(average) + (")" + times)))))
  }

  lemma SizesAre(s: Stats, times: string)
    ensures Sizes(s) + times == if s.sized == 0 then times else "(" + Inner(MeasureOf(s), times)
  {
    if s.sized > 0 {
      if s.minSize == s.maxSize {
        Regrouped("(", Decimal(s.maxSize), ")", times);
      } else {
        var a, b, c := Decimal(s.minSize), Decimal(s.maxSize), Decimal(s.total / s.sized);
        Flattened(a, b, c, times);
      }
    }
  }

  lemma Regrouped(a: string, b: string, c: string, d: string)
    ensures (a + (b + c)) + d == a + (b + (c + d))
  {
  }

  lemma Flattened(a: string, b: string, c: string, d: string)
    ensures ("(" + (a + (".." + (b + (", avg " + (c + ")")))))) + d == "(" + (a + (".." + (b + (", avg " + (c + (")" + d))))))
  {
    Regrouped(b, ", avg ", c + ")", d);
    Regrouped("(", a, ".." + (b + (", avg " + (c + ")"))), d);
    Regrouped("..", b, ", avg " + (c + ")"), d);
    Regrouped(", avg ", c, ")", d);
  }

  lemma AlikeTell(m: nat, x: string, n: nat, y: string)
    ensures Decimal(m) + (")" + x) == Decimal(n) + (")" + y) <==> m == n && x == y
  {
    DecimalsTell(m, ")" + x, n, ")" + y);
    PrefixTells(")", x, y);
  }

  lemma BetweenTell(low: nat, high: nat, average: nat, x: string, low': nat, high': nat, average': nat, y: string)
    ensures Inner(Between(low, high, average), x) == Inner(Between(low', high', average'), y) <==>
            low == low' && high == high' && average == average' && x == y
  {
    var c, c' := Decimal(average) + (")" + x), Decimal(average') + (")" + y);
    var b, b' := Decimal(high) + (", avg " + c), Decimal(high') + (", avg " + c');
    DecimalsTell(low, ".." + b, low', ".." + b');
    PrefixTells("..", b, b');
    DecimalsTell(high, ", avg " + c, high', ", avg " + c');
    PrefixTells(", avg ", c, c');
    AlikeTell(average, x, average', y);
  }

  lemma InnersTell(m: Measure, x: string, n: Measure, y: string)
    requires !m.NoMeasure? && !n.NoMeasure?
    ensures Inner(m, x) == Inner(n, y) <==> m == n && x == y
  {
    match (m, n)
    case (Alike(p), Alike(q)) => AlikeTell(p, x, q, y);
    case (Between(a, b, c), Between(d, e, f)) => BetweenTell(a, b, c, x, d, e, f, y);
    case (Alike(p), Between(a, b, c)) => NotAlike(p, x, a, b, c, y);
    case (Between(a, b, c), Alike(q)) => NotAlike(q, y, a, b, c, x);
  }

  lemma NotAlike(p: nat, x: string, a: nat, b: nat, c: nat, y: string)
    ensures Inner(Alike(p), x) != Inner(Between(a, b, c), y)
  {
    DecimalsTell(p, ")" + x, a, ".." + (Decimal(b) + (", avg " + (Decimal(c) + (")" + y)))));
  }

  lemma SizesTell(s: Stats, t: Stats)
    requires s.n > 0 && t.n > 0
    ensures Sizes(s) + Times(s.n) == Sizes(t) + Times(t.n) <==> MeasureOf(s) == MeasureOf(t) && s.n == t.n
  {
    TimesTell(s.n, t.n);
    TimesTell(t.n, s.n);
    SizesAre(s, Times(s.n));
    SizesAre(t, Times(t.n));
    if s.sized > 0 && t.sized > 0 {
      PrefixTells("(", Inner(MeasureOf(s), Times(s.n)), Inner(MeasureOf(t), Times(t.n)));
      InnersTell(MeasureOf(s), Times(s.n), MeasureOf(t), Times(t.n));
    }
  }

  // The kinds

  predicate IsLetter(c: char) {
    'a' <= c <= 'z'
  }

  predicate InKinds(c: char) {
    IsLetter(c) || c == '|'
  }

  /** Kinds are words of letters. */
  predicate AreWords(kinds: set<string>) {
    forall k | k in kinds :: forall i | 0 <= i < |k| :: IsLetter(k[i])
  }

  lemma {:induction false} JoinedWords(words: seq<string>)
    requires forall w | w in words :: forall i | 0 <= i < |w| :: IsLetter(w[i])
    ensures forall i | 0 <= i < |Join(words, '|')| :: InKinds(Join(words, '|')[i])
  {
    if words != [] {
      assert words[0] in words && forall w | w in words[1..] :: w in words;
      JoinedWords(words[1..]);
    }
  }

  lemma WordsTell(a: seq<string>, b: seq<string>)
    requires a != [] && b != []
    requires forall w | w in a :: '|' !in w
    requires forall w | w in b :: '|' !in w
    ensures Join(a, '|') == Join(b, '|') <==> a == b
  {
    assert forall i | 0 <= i < |a| :: a[i] in a;
    assert forall i | 0 <= i < |b| :: b[i] in b;
    SplitJoin(a, '|');
    SplitJoin(b, '|');
  }

  lemma SortedTell(a: set<string>, b: set<string>, p: seq<string>, q: seq<string>)
    requires p == SortedSet(a) && q == SortedSet(b)
    ensures p == q <==> a == b
  {
    if p == q {
      forall x ensures x in a <==> x in b {
        assert x in p <==> x in q;
      }
    }
  }

  lemma KindsTell(a: set<string>, b: set<string>, p: seq<string>, q: seq<string>)
    requires AreWords(a) && AreWords(b) && a != {} && b != {} && p == SortedSet(a) && q == SortedSet(b)
    ensures Join(p, '|') == Join(q, '|') <==> a == b
  {
    var k :| k in a;
    var l :| l in b;
    assert k in p && l in q;
    WordsTell(p, q);
    SortedTell(a, b, p, q);
  }

  lemma TailIsNoKind(s: Stats)
    requires s.n > 0
    ensures var tail := Sizes(s) + Times(s.n); tail == "" || !InKinds(tail[0])
  {
    TimesTell(s.n, s.n);
    SizesAre(s, Times(s.n));
  }

  /** The text that describes a path says neither more nor less than the kinds,
      how many values, and their least, greatest and average size. */
  lemma DescribeTells(s: Stats, t: Stats)
    requires AreWords(s.kinds) && AreWords(t.kinds) && s.kinds != {} && t.kinds != {} && s.n > 0 && t.n > 0
    ensures Describe(s) == Describe(t) <==> s.kinds == t.kinds && s.n == t.n && MeasureOf(s) == MeasureOf(t)
  {
    var a, b := SortedSet(s.kinds), SortedSet(t.kinds);
    JoinedWords(a);
    JoinedWords(b);
    TailIsNoKind(s);
    TailIsNoKind(t);
    RunTells(InKinds, Join(a, '|'), Sizes(s) + Times(s.n), Join(b, '|'), Sizes(t) + Times(t.n));
    KindsTell(s.kinds, t.kinds, a, b);
    SizesTell(s, t);
  }
}
