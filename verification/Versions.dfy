/** Versions on their text: which texts end in one, what its numbers are, and
    which of two is newer. */
module Versions {
  import opened Text
  import opened Notes

  predicate IsNumber(s: string) {
    s != "" && AllDigits(s)
  }

  /** Three numbers between dots. */
  function Triple(a: string, b: string, c: string): string {
    a + ['.'] + (b + ['.'] + c)
  }

  lemma NumberHasNo(s: string, c: char)
    requires AllDigits(s) && !IsDigit(c)
    ensures c !in s
  {
  }

  lemma TripleSplits(a: string, b: string, c: string)
    requires IsNumber(a) && IsNumber(b) && IsNumber(c)
    ensures Split(Triple(a, b, c), '.') == [a, b, c]
  {
    NumberHasNo(a, '.');
    NumberHasNo(b, '.');
    NumberHasNo(c, '.');
    SplitAtSeparator(a, b + ['.'] + c, '.');
    SplitAtSeparator(b, c, '.');
    SplitWhole(c, '.');
  }

  /** A text is a triple exactly when it is three numbers between dots. */
  lemma TripleIs(s: string)
    ensures IsTriple(s) <==> exists a, b, c :: IsNumber(a) && IsNumber(b) && IsNumber(c) && s == Triple(a, b, c)
  {
    if IsTriple(s) {
      var parts := Split(s, '.');
      JoinSplit(s, '.');
      assert parts == [parts[0], parts[1], parts[2]];
      JoinThree(parts[0], parts[1], parts[2]);
    }
    if a, b, c :| IsNumber(a) && IsNumber(b) && IsNumber(c) && s == Triple(a, b, c) {
      TripleSplits(a, b, c);
    }
  }

  lemma JoinThree(a: string, b: string, c: string)
    ensures Join([a, b, c], '.') == Triple(a, b, c)
  {
    assert [a, b, c][1..] == [b, c] && [b, c][1..] == [c];
    assert Join([b, c], '.') == b + ['.'] + c;
  }

  /** A version is a v and a triple. */
  lemma VersionIs(s: string)
    ensures IsVersion(s) <==>
            exists a, b, c :: IsNumber(a) && IsNumber(b) && IsNumber(c) && s == "v" + Triple(a, b, c)
  {
    if IsVersion(s) {
      TripleIs(s[1..]);
      var a, b, c :| IsNumber(a) && IsNumber(b) && IsNumber(c) && s[1..] == Triple(a, b, c);
      assert s == "v" + Triple(a, b, c);
    }
    if a, b, c :| IsNumber(a) && IsNumber(b) && IsNumber(c) && s == "v" + Triple(a, b, c) {
      TripleIs(Triple(a, b, c));
      assert s[1..] == Triple(a, b, c);
    }
  }

  /** The numbers of a version at the end of a text, when they are in range. */
  lemma EndIsRead(before: string, a: string, b: string, c: string)
    requires IsNumber(a) && IsNumber(b) && IsNumber(c)
    ensures Semver(before + ['v'] + Triple(a, b, c)) ==
      if DigitsValue(a) <= MAX_INT && DigitsValue(b) <= MAX_INT && DigitsValue(c) <= MAX_INT
      then Some(Version(DigitsValue(a), DigitsValue(b), DigitsValue(c))) else None
  {
    var t := Triple(a, b, c);
    var s := before + ['v'] + t;
    TripleHasNoV(a, b, c);
    VStands(before, t);
    TripleIs(t);
    TripleSplits(a, b, c);
  }

  lemma TripleHasNoV(a: string, b: string, c: string)
    requires IsNumber(a) && IsNumber(b) && IsNumber(c)
    ensures 'v' !in Triple(a, b, c)
  {
    NumberHasNo(a, 'v');
    NumberHasNo(b, 'v');
    NumberHasNo(c, 'v');
  }

  lemma VStands(before: string, t: string)
    requires 'v' !in t
    ensures LastIndexOf(before + ['v'] + t, 'v') == Some(|before|) && (before + ['v'] + t)[|before| + 1..] == t
  {
    var s := before + ['v'] + t;
    assert s[|before|] == 'v' && s[|before| + 1..] == t;
    var i := LastIndexOf(s, 'v');
    VLater(s, if i.Some? then i.value + 1 else 0, |before|);
  }

  lemma VLater<T>(s: seq<T>, i: nat, k: nat)
    requires k < |s|
    ensures i <= k ==> s[k] in s[i..]
  {
    assert i <= k ==> s[i..][k - i] == s[k];
  }

  /** And only such a text has a version. */
  lemma ReadHasEnd(s: string)
    ensures Semver(s).Some? ==>
      exists before, a, b, c :: IsNumber(a) && IsNumber(b) && IsNumber(c) && s == before + ['v'] + Triple(a, b, c)
  {
    if Semver(s).Some? {
      var i := LastIndexOf(s, 'v').value;
      TripleIs(s[i + 1..]);
      assert s == s[..i] + ['v'] + s[i + 1..];
    }
  }

  /** Of two versions one is newer, or they are the same; and a newer number
      decides over those behind it. */
  lemma NewerOrders(a: Version, b: Version, c: Version)
    ensures a == b || Newer(a, b) || Newer(b, a)
    ensures !(Newer(a, b) && Newer(b, a)) && !Newer(a, a)
    ensures Newer(a, b) && Newer(b, c) ==> Newer(a, c)
    ensures Newer(Version(a.major + 1, b.minor, b.patch), a)
    ensures Newer(Version(a.major, a.minor + 1, b.patch), a)
    ensures Newer(Version(a.major, a.minor, a.patch + 1), a)
  {
  }
}
