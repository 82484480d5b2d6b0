/** Sorted lists of strings: sort.Strings, and the sorted keys of a map. Go
    compares strings by their bytes, which is the order of their code points. */
module Sorting {

  predicate Leq(a: string, b: string) {
    a == "" || (b != "" && (a[0] < b[0] || (a[0] == b[0] && Leq(a[1..], b[1..]))))
  }

  /** The order is that of the first difference; a prefix comes first. */
  lemma {:induction false} LeqIsLexicographic(a: string, b: string)
    ensures Leq(a, b) <==> a <= b || exists i :: 0 <= i < |a| && i < |b| && a[..i] == b[..i] && a[i] < b[i]
  {
    if a != "" && b != "" && a[0] == b[0] {
      LeqIsLexicographic(a[1..], b[1..]);
      assert a == [a[0]] + a[1..] && b == [b[0]] + b[1..];
      assert a <= b <==> a[1..] <= b[1..];
      if i :| 0 <= i < |a[1..]| && i < |b[1..]| && a[1..][..i] == b[1..][..i] && a[1..][i] < b[1..][i] {
        assert a[..i + 1] == [a[0]] + a[1..][..i] && b[..i + 1] == [b[0]] + b[1..][..i];
        assert a[i + 1] < b[i + 1];
      }
      if i :| 0 <= i < |a| && i < |b| && a[..i] == b[..i] && a[i] < b[i] {
        assert i > 0;
        assert a[1..][..i - 1] == a[..i][1..] && b[1..][..i - 1] == b[..i][1..];
        assert a[1..][i - 1] < b[1..][i - 1];
      }
    } else if a != "" && b != "" {
      assert a[..0] == b[..0] == "";
    }
  }

  lemma {:induction false} LeqTotal(a: string, b: string)
    ensures Leq(a, b) || Leq(b, a)
  {
    if a != "" && b != "" && a[0] == b[0] {
      LeqTotal(a[1..], b[1..]);
    }
  }

  lemma {:induction false} LeqAntisymmetric(a: string, b: string)
    requires Leq(a, b) && Leq(b, a)
    ensures a == b
  {
    if a != "" && b != "" {
      LeqAntisymmetric(a[1..], b[1..]);
      assert a == [a[0]] + a[1..] && b == [b[0]] + b[1..];
    }
  }

  lemma {:induction false} LeqTransitive(a: string, b: string, c: string)
    requires Leq(a, b) && Leq(b, c)
    ensures Leq(a, c)
  {
    if a != "" && a[0] == b[0] && b[0] == c[0] {
      LeqTransitive(a[1..], b[1..], c[1..]);
    }
  }

  predicate Sorted(xs: seq<string>) {
    forall i, j | 0 <= i < j < |xs| :: Leq(xs[i], xs[j])
  }

  predicate NoDuplicates<T(==)>(xs: seq<T>) {
    forall i, j | 0 <= i < j < |xs| :: xs[i] != xs[j]
  }

  lemma SnocNoDuplicates<T>(xs: seq<T>, x: T)
    requires NoDuplicates(xs) && x !in xs
    ensures NoDuplicates(xs + [x])
  {
  }

  lemma SplitAtElement<T>(xs: seq<T>, x: T) returns (a: seq<T>, b: seq<T>)
    requires x in xs
    ensures xs == a + ([x] + b)
    ensures multiset(xs) == multiset(a + b) + multiset{x}
  {
    var p :| 0 <= p < |xs| && xs[p] == x;
    a, b := xs[..p], xs[p + 1..];
    assert xs == a + ([x] + b);
  }

  lemma CancelOne<T>(a: multiset<T>, b: multiset<T>, x: T)
    requires a + multiset{x} == b + multiset{x}
    ensures a == b
  {
    forall y ensures a[y] == b[y] {
      assert (a + multiset{x})[y] == (b + multiset{x})[y];
    }
  }

  predicate Below(x: string, xs: seq<string>) {
    forall i | 0 <= i < |xs| :: Leq(x, xs[i])
  }

  lemma BelowFirst(x: string, xs: seq<string>)
    requires Sorted(xs) && xs != [] && Leq(x, xs[0])
    ensures Below(x, xs)
  {
    forall j | 0 <= j < |xs| ensures Leq(x, xs[j]) {
      if j > 0 {
        LeqTransitive(x, xs[0], xs[j]);
      }
    }
  }

  lemma SortedCons(x: string, xs: seq<string>)
    requires Sorted(xs) && Below(x, xs)
    ensures Sorted([x] + xs)
  {
    var r := [x] + xs;
    forall i, j | 0 <= i < j < |r| ensures Leq(r[i], r[j]) {
      assert r[j] == xs[j - 1];
      if i > 0 {
        assert r[i] == xs[i - 1];
      }
    }
  }

  function Insert(x: string, xs: seq<string>): seq<string> {
    if xs == [] then [x]
    else if Leq(x, xs[0]) then [x] + xs
    else [xs[0]] + Insert(x, xs[1..])
  }

  lemma {:induction false} InsertAdds(x: string, xs: seq<string>)
    ensures multiset(Insert(x, xs)) == multiset(xs) + multiset{x}
  {
    if xs != [] {
      assert xs == [xs[0]] + xs[1..];
      InsertAdds(x, xs[1..]);
    }
  }

  lemma {:induction false} InsertBelow(low: string, x: string, xs: seq<string>)
    requires Leq(low, x) && Below(low, xs)
    ensures Below(low, Insert(x, xs))
  {
    if xs != [] {
      var rest := xs[1..];
      assert Below(low, rest) by {
        forall i | 0 <= i < |rest| ensures Leq(low, rest[i]) {
          assert rest[i] == xs[i + 1];
        }
      }
      InsertBelow(low, x, rest);
    }
  }

  lemma {:induction false} InsertSorted(x: string, xs: seq<string>)
    requires Sorted(xs)
    ensures Sorted(Insert(x, xs))
  {
    if xs != [] {
      LeqTotal(x, xs[0]);
      if Leq(x, xs[0]) {
        BelowFirst(x, xs);
        SortedCons(x, xs);
      } else {
        var rest := xs[1..];
        InsertSorted(x, rest);
        assert Below(xs[0], rest);
        InsertBelow(xs[0], x, rest);
        SortedCons(xs[0], Insert(x, rest));
      }
    }
  }

  /** sort.Strings */
  function Sort(xs: seq<string>): (r: seq<string>)
    ensures Sorted(r) && multiset(r) == multiset(xs)
  {
    if xs == [] then []
    else
      assert xs == [xs[0]] + xs[1..];
      InsertSorted(xs[0], Sort(xs[1..]));
      InsertAdds(xs[0], Sort(xs[1..]));
      Insert(xs[0], Sort(xs[1..]))
  }

  lemma SameFirst(a: seq<string>, b: seq<string>)
    requires Sorted(a) && Sorted(b) && a != [] && b != [] && a[0] in b && b[0] in a
    ensures a[0] == b[0]
  {
    LeqTotal(a[0], a[0]);
    LeqTotal(b[0], b[0]);
    var i :| 0 <= i < |b| && b[i] == a[0];
    var j :| 0 <= j < |a| && a[j] == b[0];
    LeqAntisymmetric(a[0], b[0]);
  }

  lemma TailMultiset(a: seq<string>)
    requires a != []
    ensures multiset(a[1..]) == multiset(a) - multiset{a[0]} && a[0] in multiset(a)
  {
    assert a == [a[0]] + a[1..];
  }

  /** A sorted list is determined by its elements. */
  lemma {:induction false} SortedUnique(a: seq<string>, b: seq<string>)
    requires Sorted(a) && Sorted(b) && multiset(a) == multiset(b)
    ensures a == b
  {
    assert |a| == |multiset(a)| == |multiset(b)| == |b|;
    if a != [] {
      TailMultiset(a);
      TailMultiset(b);
      SameFirst(a, b);
      SortedUnique(a[1..], b[1..]);
      assert a == [a[0]] + a[1..] && b == [b[0]] + b[1..];
    }
  }

  /** Sorting forgets the order the list came in. */
  lemma SortForgetsOrder(a: seq<string>, b: seq<string>)
    requires multiset(a) == multiset(b)
    ensures Sort(a) == Sort(b)
  {
    SortedUnique(Sort(a), Sort(b));
  }

  lemma {:induction false} NoDuplicatesMultiset(a: seq<string>, x: string)
    requires NoDuplicates(a)
    ensures multiset(a)[x] == if x in a then 1 else 0
  {
    if a != [] {
      assert a == [a[0]] + a[1..];
      NoDuplicatesMultiset(a[1..], x);
      assert a[0] !in a[1..] by {
        forall j | 0 <= j < |a[1..]| ensures a[1..][j] != a[0] {
          assert a[1..][j] == a[j + 1];
        }
      }
    }
  }

  /** Two lists of the same elements, none repeated, sort alike. */
  lemma SortDistinct(a: seq<string>, b: seq<string>)
    requires NoDuplicates(a) && NoDuplicates(b)
    requires forall x :: x in a <==> x in b
    ensures Sort(a) == Sort(b)
  {
    forall x ensures multiset(a)[x] == multiset(b)[x] {
      NoDuplicatesMultiset(a, x);
      NoDuplicatesMultiset(b, x);
    }
    assert multiset(a) == multiset(b);
    SortForgetsOrder(a, b);
  }

  // The sorted elements of a set

  lemma {:induction false} FindMinimum(s: set<string>) returns (m: string)
    requires s != {}
    ensures m in s && forall y | y in s :: Leq(m, y)
  {
    var x :| x in s;
    LeqTotal(x, x);
    m := x;
    if s != {x} {
      var rest := FindMinimum(s - {x});
      LeqTotal(x, rest);
      if Leq(x, rest) {
        forall y | y in s ensures Leq(x, y) {
          if y != x {
            LeqTransitive(x, rest, y);
          }
        }
      } else {
        m := rest;
        forall y | y in s ensures Leq(rest, y) {
          assert y == x || y in s - {x};
        }
      }
    }
  }

  lemma MinimumExists(s: set<string>)
    requires s != {}
    ensures exists x :: x in s && forall y | y in s :: Leq(x, y)
  {
    var m := FindMinimum(s);
  }

  lemma MinimumUnique(s: set<string>, a: string, b: string)
    requires a in s && b in s
    requires (forall y | y in s :: Leq(a, y)) && (forall y | y in s :: Leq(b, y))
    ensures a == b
  {
    LeqAntisymmetric(a, b);
  }

  function Minimum(s: set<string>): (x: string)
    requires s != {}
    ensures x in s && forall y | y in s :: Leq(x, y)
  {
    MinimumExists(s);
    assert forall a, b | a in s && b in s && (forall y | y in s :: Leq(a, y)) && (forall y | y in s :: Leq(b, y)) :: a == b by {
      forall a, b | a in s && b in s && (forall y | y in s :: Leq(a, y)) && (forall y | y in s :: Leq(b, y)) ensures a == b {
        MinimumUnique(s, a, b);
      }
    }
    var x :| x in s && forall y | y in s :: Leq(x, y);
    x
  }

  /** The elements of a set in order: the keys of a map, sorted. */
  function SortedSet(s: set<string>): (r: seq<string>)
    ensures forall x :: x in r <==> x in s
    ensures NoDuplicates(r) && Sorted(r)
  {
    if s == {} then []
    else
      var x := Minimum(s);
      [x] + SortedSet(s - {x})
  }

  /** Collecting the elements in any order and sorting them gives that list. */
  lemma SortCollected(xs: seq<string>, s: set<string>)
    requires NoDuplicates(xs) && forall x :: x in xs <==> x in s
    ensures Sort(xs) == SortedSet(s)
  {
    SortDistinct(xs, SortedSet(s));
    SortedUnique(Sort(SortedSet(s)), SortedSet(s));
  }

  // Sorting by a key

  predicate SortedBy<T>(key: T -> string, xs: seq<T>) {
    forall i, j | 0 <= i < j < |xs| :: Leq(key(xs[i]), key(xs[j]))
  }

  function InsertBy<T>(key: T -> string, x: T, xs: seq<T>): (r: seq<T>)
    requires SortedBy(key, xs)
    ensures multiset(r) == multiset(xs) + multiset{x}
    ensures SortedBy(key, r)
  {
    if xs == [] then [x]
    else
      LeqTotal(key(x), key(xs[|xs| - 1]));
      var init, last := xs[..|xs| - 1], xs[|xs| - 1];
      assert xs == init + [last];
      if Leq(key(last), key(x)) then
        SnocSorted(key, xs, x);
        xs + [x]
      else
        var r := InsertBy(key, x, init);
        InsertBounded(key, x, init, last, r);
        SnocSorted(key, r, last);
        r + [last]
  }

  lemma SnocSorted<T>(key: T -> string, xs: seq<T>, x: T)
    requires SortedBy(key, xs) && (xs == [] || Leq(key(xs[|xs| - 1]), key(x)))
    ensures SortedBy(key, xs + [x])
  {
    forall i | 0 <= i < |xs| ensures Leq(key(xs[i]), key(x)) {
      if i < |xs| - 1 {
        LeqTransitive(key(xs[i]), key(xs[|xs| - 1]), key(x));
      }
    }
  }

  lemma InsertBounded<T>(key: T -> string, x: T, xs: seq<T>, bound: T, r: seq<T>)
    requires multiset(r) == multiset(xs) + multiset{x}
    requires Leq(key(x), key(bound)) && forall i | 0 <= i < |xs| :: Leq(key(xs[i]), key(bound))
    ensures r != [] ==> Leq(key(r[|r| - 1]), key(bound))
  {
    if r != [] {
      assert r[|r| - 1] in multiset(r);
      assert r[|r| - 1] == x || r[|r| - 1] in xs;
    }
  }

  function SortBy<T>(key: T -> string, xs: seq<T>): (r: seq<T>)
    ensures multiset(r) == multiset(xs) && SortedBy(key, r)
  {
    if xs == [] then []
    else
      assert xs == xs[..|xs| - 1] + [xs[|xs| - 1]];
      InsertBy(key, xs[|xs| - 1], SortBy(key, xs[..|xs| - 1]))
  }

  // Lists in another order

  ghost predicate Enumerates(order: seq<string>, keys: set<string>) {
    NoDuplicates(order) && forall k :: k in order <==> k in keys
  }

  lemma EnumerationsAgree(p: seq<string>, q: seq<string>, keys: set<string>)
    requires Enumerates(p, keys) && Enumerates(q, keys)
    ensures multiset(p) == multiset(q)
  {
    forall k ensures multiset(p)[k] == multiset(q)[k] {
      NoDuplicatesMultiset(p, k);
      NoDuplicatesMultiset(q, k);
    }
  }

  function Image<T, U>(f: T -> U, xs: seq<T>): seq<U> {
    seq(|xs|, i requires 0 <= i < |xs| => f(xs[i]))
  }

  lemma ImageConcat<T, U>(f: T -> U, a: seq<T>, b: seq<T>)
    ensures Image(f, a + b) == Image(f, a) + Image(f, b)
  {
  }

  lemma ImageApart<T, U>(f: T -> U, p: seq<T>, x: T, q: seq<T>)
    ensures multiset(Image(f, p + ([x] + q))) == multiset(Image(f, p + q)) + multiset{f(x)}
  {
    ImageConcat(f, p, [x] + q);
    ImageConcat(f, [x], q);
    ImageConcat(f, p, q);
    assert Image(f, [x]) == [f(x)];
  }

  /** The images of a list in another order are those of the list. */
  lemma {:induction false} ImagePermuted<T, U>(f: T -> U, a: seq<T>, b: seq<T>)
    requires multiset(a) == multiset(b)
    ensures multiset(Image(f, a)) == multiset(Image(f, b))
  {
    if a == [] {
      assert |b| == |multiset(b)| == 0;
    } else {
      var init, x := a[..|a| - 1], a[|a| - 1];
      assert a == init + ([x] + []);
      assert init + [] == init;
      assert x in multiset(b);
      var p, q := SplitAtElement(b, x);
      CancelOne(multiset(init), multiset(p + q), x);
      ImagePermuted(f, init, p + q);
      ImageApart(f, p, x, q);
      ImageApart(f, init, x, []);
    }
  }
}
