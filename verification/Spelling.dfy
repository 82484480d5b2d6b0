/** How Go spells strings and floats, %q and %g, and how the catalog tool reads
    them back: num and atof of cmd/terva-models-sync/main.go, and its expressions
    for names. */
module Spelling {
  import opened Text

  // Names

  /** unicode.IsPrint */
  datatype Unicode = Unicode(printable: char -> bool)

  function HexDigit(n: nat): char
    requires n < 16
  {
    if n < 10 then '0' + n as char else 'a' + (n - 10) as char
  }

  function Hex(n: nat, width: nat): string {
    if width == 0 then "" else Hex(n / 16, width - 1) + [HexDigit(n % 16)]
  }

  /** How %q spells a character: some have a letter, and what does not print is
      spelled by its number. */
  function QuoteChar(u: Unicode, c: char): string {
    if c == '"' || c == '\\' then ['\\', c]
    else if u.printable(c) then [c]
    else if c == '\U{7}' then "\\a"
    else if c == '\U{8}' then "\\b"
    else if c == '\U{C}' then "\\f"
    else if c == '\n' then "\\n"
    else if c == '\r' then "\\r"
    else if c == '\t' then "\\t"
    else if c == '\U{B}' then "\\v"
    else if c < ' ' || c == '\U{7F}' then "\\x" + Hex(c as int, 2)
    else if c < '\U{10000}' then "\\u" + Hex(c as int, 4)
    else "\\U" + Hex(c as int, 8)
  }

  /** %q, less the quotes around it. */
  function Quote(u: Unicode, s: string): string {
    if s == "" then "" else QuoteChar(u, s[0]) + Quote(u, s[1..])
  }

  /** What "([^"]+)" matches of a quoted text: what stands before the first quote. */
  function Cut(text: string): string {
    if text == "" || text[0] == '"' then "" else [text[0]] + Cut(text[1..])
  }

  predicate IsPlainChar(u: Unicode, c: char) {
    c != '"' && c != '\\' && u.printable(c)
  }

  /** A name that prints, without quotes and backslashes. */
  predicate IsPlainName(u: Unicode, s: string) {
    forall i | 0 <= i < |s| :: IsPlainChar(u, s[i])
  }

  lemma {:induction false} CutWhole(a: string, b: string)
    requires '"' !in a
    ensures Cut(a + b) == a + Cut(b)
  {
    if a == "" {
      assert a + b == b;
    } else {
      assert (a + b)[0] == a[0] && (a + b)[1..] == a[1..] + b;
      assert a[0] in a && '"' !in a[1..];
      CutWhole(a[1..], b);
    }
  }

  lemma {:induction false} CutHasNoQuote(text: string)
    ensures '"' !in Cut(text)
  {
    if text != "" && text[0] != '"' {
      CutHasNoQuote(text[1..]);
    }
  }

  lemma {:induction false} HexHasNoQuote(n: nat, width: nat)
    ensures '"' !in Hex(n, width) && |Hex(n, width)| == width
  {
    if width > 0 {
      HexHasNoQuote(n / 16, width - 1);
    }
  }

  /** A character that is not plain takes more than one, and only a quote is
      spelled with one. */
  lemma QuotedChar(u: Unicode, c: char)
    ensures IsPlainChar(u, c) ==> QuoteChar(u, c) == [c]
    ensures !IsPlainChar(u, c) ==> |QuoteChar(u, c)| > 1
    ensures c != '"' ==> '"' !in QuoteChar(u, c)
  {
    HexHasNoQuote(c as int, 2);
    HexHasNoQuote(c as int, 4);
    HexHasNoQuote(c as int, 8);
  }

  lemma {:induction false} QuotedWithoutQuotes(u: Unicode, s: string)
    requires '"' !in s
    ensures '"' !in Quote(u, s) && |Quote(u, s)| >= |s|
    ensures |Quote(u, s)| == |s| <==> IsPlainName(u, s)
    ensures IsPlainName(u, s) ==> Quote(u, s) == s
  {
    if s != "" {
      QuotedChar(u, s[0]);
      assert s[0] in s && '"' !in s[1..];
      QuotedWithoutQuotes(u, s[1..]);
      assert IsPlainName(u, s) <==> IsPlainChar(u, s[0]) && IsPlainName(u, s[1..]) by {
        assert forall i | 0 < i < |s| :: s[i] == s[1..][i - 1];
      }
      assert s == [s[0]] + s[1..];
    }
  }

  /** A name is read back as it was written exactly when it prints and has no
      quote or backslash in it. */
  lemma NameReadsBack(u: Unicode, s: string)
    ensures Cut(Quote(u, s)) == s <==> IsPlainName(u, s)
  {
    CutHasNoQuote(Quote(u, s));
    if '"' !in s {
      QuotedWithoutQuotes(u, s);
      CutWhole(Quote(u, s), "");
      assert Quote(u, s) + "" == Quote(u, s);
    } else {
      var i :| 0 <= i < |s| && s[i] == '"';
      assert !IsPlainChar(u, s[i]);
    }
  }

  // Numbers

  /** A float by its shortest decimal: digits times ten to the power of exp. */
  datatype Number = Number(negative: bool, digits: nat, exp: int)

  const ZERO: Number := Number(false, 0, 0)

  predicate IsShortest(x: Number) {
    if x.digits == 0 then x.exp == 0 else x.digits % 10 != 0
  }

  type Float = x: Number | IsShortest(x) witness ZERO

  predicate Positive(x: Float) {
    !x.negative && x.digits > 0
  }

  function Zeros(k: nat): string {
    if k == 0 then "" else "0" + Zeros(k - 1)
  }

  /** The power of ten of the first digit. */
  function Magnitude(x: Float): int
    requires x.digits > 0
  {
    |Decimal(x.digits)| + x.exp - 1
  }

  /** The largest power of ten that %g spells without an exponent, plus one. */
  const EXPONENT_FROM := 6

  predicate SpelledOut(x: Float) {
    x.digits == 0 || -4 <= Magnitude(x) < EXPONENT_FROM
  }

  /** A number without an exponent. */
  function Fixed(x: Float): string {
    var d := Decimal(x.digits);
    if x.exp >= 0 then d + Zeros(x.exp)
    else if |d| + x.exp > 0 then d[..|d| + x.exp] + "." + d[|d| + x.exp..]
    else "0." + Zeros(-x.exp - |d|) + d
  }

  function TwoDigits(n: nat): string {
    if n < 10 then "0" + Decimal(n) else Decimal(n)
  }

  /** A number with one: one digit, the others after a dot, and the power. */
  function WithExponent(x: Float): string
    requires x.digits > 0
  {
    var d, m := Decimal(x.digits), Magnitude(x);
    DecimalReads(x.digits);
    d[..1] + (if |d| > 1 then "." + d[1..] else "") + "e" + (if m < 0 then "-" + TwoDigits(-m) else "+" + TwoDigits(m))
  }

  /** num: %g with the fewest digits. */
  function Num(x: Float): string {
    (if x.negative then "-" else "") + if SpelledOut(x) then Fixed(x) else WithExponent(x)
  }

  /** The digits a text begins with. */
  function LeadingDigits(s: string): string {
    if s == "" || !IsDigit(s[0]) then "" else [s[0]] + LeadingDigits(s[1..])
  }

  lemma {:induction false} LeadingDigitsAre(s: string)
    ensures AllDigits(LeadingDigits(s)) && |LeadingDigits(s)| <= |s|
  {
    if s != "" && IsDigit(s[0]) {
      LeadingDigitsAre(s[1..]);
    }
  }

  /** A float in its shortest decimal. */
  function Shortest(digits: nat, exp: int): Float
    decreases digits
  {
    if digits == 0 then ZERO
    else if digits % 10 == 0 then Shortest(digits / 10, exp + 1)
    else Number(false, digits, exp)
  }

  /** The number that some digits and what follows them spell. */
  function ReadRest(whole: string, rest: string): Float
    requires AllDigits(whole)
  {
    if rest == "" || rest[0] != '.' then Shortest(DigitsValue(whole), 0)
    else
      LeadingDigitsAre(rest[1..]);
      Shortest(DigitsValue(whole + LeadingDigits(rest[1..])), -|LeadingDigits(rest[1..])|)
  }

  /** atof: digits, a dot and digits from the start of the text, or zero. */
  function ReadFloat(text: string): Float {
    LeadingDigitsAre(text);
    ReadRest(LeadingDigits(text), text[|LeadingDigits(text)|..])
  }

  /** A price in plain decimals. */
  predicate IsPlainPrice(x: Float) {
    !x.negative && SpelledOut(x)
  }

  lemma {:induction false} DigitsThen(s: string, rest: string)
    requires AllDigits(s) && (rest == "" || !IsDigit(rest[0]))
    ensures LeadingDigits(s + rest) == s && (s + rest)[|s|..] == rest
  {
    if s == "" {
      assert s + rest == rest;
    } else {
      assert (s + rest)[0] == s[0] && (s + rest)[1..] == s[1..] + rest;
      DigitsThen(s[1..], rest);
      assert s == [s[0]] + s[1..];
    }
  }

  lemma {:induction false} ZerosAreDigits(k: nat)
    ensures AllDigits(Zeros(k)) && |Zeros(k)| == k
  {
    if k > 0 {
      ZerosAreDigits(k - 1);
    }
  }

  lemma {:induction false} LeadingZeros(k: nat, s: string)
    requires AllDigits(s)
    ensures AllDigits(Zeros(k) + s) && DigitsValue(Zeros(k) + s) == DigitsValue(s)
    decreases |s|
  {
    ZerosAreDigits(k);
    if s == "" {
      assert Zeros(k) + s == Zeros(k);
      OnlyZeros(k);
    } else {
      LeadingZeros(k, s[..|s| - 1]);
      assert (Zeros(k) + s)[..|Zeros(k) + s| - 1] == Zeros(k) + s[..|s| - 1];
    }
  }

  lemma {:induction false} OnlyZeros(k: nat)
    ensures AllDigits(Zeros(k)) && DigitsValue(Zeros(k)) == 0
  {
    ZerosAreDigits(k);
    if k > 0 {
      OnlyZeros(k - 1);
      ZerosTurn(k - 1);
      assert Zeros(k)[..k - 1] == Zeros(k - 1);
    }
  }

  lemma {:induction false} ZerosTurn(k: nat)
    ensures Zeros(k) + "0" == "0" + Zeros(k)
  {
    if k > 0 {
      ZerosTurn(k - 1);
      assert Zeros(k) + "0" == "0" + (Zeros(k - 1) + "0");
    }
  }

  /** Zeros at the end move to the power. */
  lemma {:induction false} TrailingZeros(s: string, k: nat, exp: int)
    requires AllDigits(s)
    ensures AllDigits(s + Zeros(k))
    ensures DigitsValue(s) > 0 ==> Shortest(DigitsValue(s + Zeros(k)), exp) == Shortest(DigitsValue(s), exp + k)
    decreases k
  {
    ZerosAreDigits(k);
    if k == 0 {
      assert s + Zeros(0) == s;
    } else {
      ZerosTurn(k - 1);
      assert s + Zeros(k) == (s + "0") + Zeros(k - 1);
      assert (s + "0")[..|s|] == s;
      assert AllDigits(s + "0") && DigitsValue(s + "0") == DigitsValue(s) * 10;
      TrailingZeros(s + "0", k - 1, exp);
    }
  }

  lemma WholeReads(text: string, whole: string, rest: string)
    requires text == whole + rest && AllDigits(whole) && (rest == "" || !IsDigit(rest[0]))
    ensures ReadFloat(text) == ReadRest(whole, rest)
  {
    DigitsThen(whole, rest);
  }

  lemma PartReads(whole: string, rest: string, part: string, after: string)
    requires AllDigits(whole) && AllDigits(part) && (after == "" || !IsDigit(after[0]))
    requires rest != "" && rest[0] == '.' && rest[1..] == part + after
    ensures AllDigits(whole + part) && ReadRest(whole, rest) == Shortest(DigitsValue(whole + part), -|part|)
  {
    DigitsThen(part, after);
  }

  lemma DotReads(text: string, whole: string, part: string, after: string)
    requires AllDigits(whole) && AllDigits(part) && (after == "" || !IsDigit(after[0]))
    requires text == whole + ("." + (part + after))
    ensures AllDigits(whole + part) && ReadFloat(text) == Shortest(DigitsValue(whole + part), -|part|)
  {
    var rest := "." + (part + after);
    assert rest[0] == '.' && rest[1..] == part + after;
    WholeReads(text, whole, rest);
    PartReads(whole, rest, part, after);
  }

  lemma SmallReads(x: Float, d: string, k: nat)
    requires !x.negative && x.digits > 0 && d == Decimal(x.digits) && x.exp < 0 && k == -x.exp - |d|
    ensures ReadFloat("0." + Zeros(k) + d) == x
  {
    DecimalReads(x.digits);
    var part := Zeros(k) + d;
    ZerosAreDigits(k);
    LeadingZeros(k, d);
    assert "0." + Zeros(k) + d == "0" + ("." + (part + ""));
    DotReads("0." + Zeros(k) + d, "0", part, "");
    LeadingZeros(1, part);
    assert Zeros(1) == "0" + Zeros(0);
    assert Zeros(1) + part == "0" + part;
  }

  lemma FixedReads(x: Float)
    requires !x.negative && x.digits > 0
    ensures ReadFloat(Fixed(x)) == x
  {
    var d := Decimal(x.digits);
    DecimalReads(x.digits);
    if x.exp >= 0 {
      TrailingZeros(d, x.exp, 0);
      assert Fixed(x) == d + Zeros(x.exp) + "";
      WholeReads(Fixed(x), d + Zeros(x.exp), "");
    } else if |d| + x.exp > 0 {
      var n := |d| + x.exp;
      assert d[..n] + "." + d[n..] == d[..n] + ("." + (d[n..] + ""));
      DotReads(Fixed(x), d[..n], d[n..], "");
      assert d[..n] + d[n..] == d;
    } else {
      SmallReads(x, d, -x.exp - |d|);
    }
  }

  /** What is read of a number with an exponent is the part before it. */
  lemma ExponentReads(x: Float)
    requires !x.negative && x.digits > 0
    ensures ReadFloat(WithExponent(x)) == Number(false, x.digits, x.exp - Magnitude(x))
  {
    var d, m := Decimal(x.digits), Magnitude(x);
    DecimalReads(x.digits);
    var power := "e" + if m < 0 then "-" + TwoDigits(-m) else "+" + TwoDigits(m);
    PowerReads(WithExponent(x), x, d, power);
  }

  lemma PowerReads(text: string, x: Float, d: string, power: string)
    requires x.digits > 0 && d == Decimal(x.digits) && d != "" && AllDigits(d) && DigitsValue(d) == x.digits
    requires power != "" && power[0] == 'e' && text == d[..1] + (if |d| > 1 then "." + d[1..] else "") + power
    ensures ReadFloat(text) == Number(false, x.digits, 1 - |d|)
  {
    if |d| == 1 {
      assert text == d + power;
      WholeReads(text, d, power);
    } else {
      assert text == d[..1] + ("." + (d[1..] + power));
      DotReads(text, d[..1], d[1..], power);
      assert d[..1] + d[1..] == d;
    }
  }

  /** A price is read back as it was written exactly when it is not negative and
      is spelled without an exponent. */
  lemma PriceReadsBack(x: Float)
    ensures ReadFloat(Num(x)) == x <==> IsPlainPrice(x)
  {
    if x.negative {
      assert Num(x)[0] == '-' && LeadingDigits(Num(x)) == "";
      assert DigitsValue("") == 0;
    } else {
      assert Num(x) == if SpelledOut(x) then Fixed(x) else WithExponent(x);
      if x.digits == 0 {
        assert Fixed(x) == "0" + "" && DigitsValue("0") == 0 by {
          assert "0"[..0] == "";
        }
        DigitsThen("0", "");
      } else if SpelledOut(x) {
        FixedReads(x);
      } else {
        ExponentReads(x);
      }
    }
  }
}
