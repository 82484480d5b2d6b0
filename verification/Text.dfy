/** The string operations the modelled Go code takes from package strings, on
    sequences of characters, with the laws the proofs need. */
module Text {

  datatype Option<+T> = None | Some(value: T)

  datatype Result<+T, +E> = Ok(value: T) | Err(error: E)

  predicate HasPrefix(s: string, p: string) {
    p <= s
  }

  predicate HasSuffix(s: string, p: string) {
    |p| <= |s| && s[|s| - |p|..] == p
  }

  /** unicode.IsSpace */
  predicate IsSpace(c: char) {
    '\t' <= c <= '\r' || c == ' ' || c == '\U{85}' || c == '\U{A0}' || c == '\U{1680}' || '\U{2000}' <= c <= '\U{200A}' ||
    c == '\U{2028}' || c == '\U{2029}' || c == '\U{202F}' || c == '\U{205F}' || c == '\U{3000}'
  }

  predicate IsDigit(c: char) {
    '0' <= c <= '9'
  }

  predicate AllDigits(s: string) {
    forall i | 0 <= i < |s| :: IsDigit(s[i])
  }

  function TrimLeft(s: string): string {
    if s != "" && IsSpace(s[0]) then TrimLeft(s[1..]) else s
  }

  function TrimRight(s: string): string {
    if s != "" && IsSpace(s[|s| - 1]) then TrimRight(s[..|s| - 1]) else s
  }

  /** strings.TrimSpace */
  function TrimSpace(s: string): string {
    TrimRight(TrimLeft(s))
  }

  /** strings.TrimRight(s, " \t") */
  function TrimTail(s: string): string {
    if s != "" && (s[|s| - 1] == ' ' || s[|s| - 1] == '\t') then TrimTail(s[..|s| - 1]) else s
  }

  /** strings.TrimRight(s, "\n") */
  function TrimNewlines(s: string): string {
    if s != "" && s[|s| - 1] == '\n' then TrimNewlines(s[..|s| - 1]) else s
  }

  /** strings.Split on a single separator: never empty. */
  function Split(s: string, sep: char): (parts: seq<string>)
    ensures |parts| >= 1
    ensures forall i | 0 <= i < |parts| :: sep !in parts[i]
  {
    if s == "" then [""]
    else
      var rest := Split(s[1..], sep);
      if s[0] == sep then [""] + rest else [[s[0]] + rest[0]] + rest[1..]
  }

  /** strings.Join with a single separator. */
  function Join(parts: seq<string>, sep: char): string {
    if parts == [] then ""
    else if |parts| == 1 then parts[0]
    else parts[0] + [sep] + Join(parts[1..], sep)
  }

  lemma {:induction false} JoinSplit(s: string, sep: char)
    ensures Join(Split(s, sep), sep) == s
  {
    if s != "" {
      JoinSplit(s[1..], sep);
      var rest := Split(s[1..], sep);
      if s[0] == sep {
        assert ([""] + rest)[1..] == rest;
        assert Join([""] + rest, sep) == "" + [sep] + Join(rest, sep);
      } else {
        var parts := [[s[0]] + rest[0]] + rest[1..];
        if |rest| > 1 {
          assert parts[1..] == rest[1..];
          assert Join(parts, sep) == [s[0]] + rest[0] + [sep] + Join(rest[1..], sep);
        }
      }
    }
  }

  lemma {:induction false} SplitWhole(s: string, sep: char)
    requires sep !in s
    ensures Split(s, sep) == [s]
  {
    if s != "" {
      SplitWhole(s[1..], sep);
      assert s[0] in s && [s[0]] + s[1..] == s;
    }
  }

  lemma {:induction false} SplitAtSeparator(a: string, b: string, sep: char)
    requires sep !in a
    ensures Split(a + [sep] + b, sep) == [a] + Split(b, sep)
  {
    var whole := a + [sep] + b;
    if a == "" {
      assert whole[1..] == b;
    } else {
      SplitAtSeparator(a[1..], b, sep);
      assert whole[1..] == a[1..] + [sep] + b;
      assert whole[0] == a[0] && a[0] in a;
      assert [a[0]] + a[1..] == a;
    }
  }

  lemma {:induction false} SplitJoin(parts: seq<string>, sep: char)
    requires parts != []
    requires forall i | 0 <= i < |parts| :: sep !in parts[i]
    ensures Split(Join(parts, sep), sep) == parts
  {
    if |parts| == 1 {
      SplitWhole(parts[0], sep);
    } else {
      SplitJoin(parts[1..], sep);
      SplitAtSeparator(parts[0], Join(parts[1..], sep), sep);
    }
  }

  lemma {:induction false} JoinAppend(parts: seq<string>, last: string, sep: char)
    requires parts != []
    ensures Join(parts + [last], sep) == Join(parts, sep) + [sep] + last
  {
    if |parts| == 1 {
      assert (parts + [last])[1..] == [last];
    } else {
      JoinAppend(parts[1..], last, sep);
      assert (parts + [last])[1..] == parts[1..] + [last];
    }
  }

  /** Each line with its newline. */
  function Terminated(lines: seq<string>): string {
    if lines == [] then "" else Terminated(lines[..|lines| - 1]) + lines[|lines| - 1] + "\n"
  }

  lemma LineThenTail(before: string, last: string, tail: string)
    ensures before + last + "\n" + tail == before + (last + "\n" + tail)
    ensures last + ['\n'] + tail == last + "\n" + tail
  {
  }

  lemma Regroup<T>(a: seq<T>, x: T, b: seq<T>, whole: seq<T>)
    requires whole == a + [x]
    ensures a + ([x] + b) == whole + b
  {
  }

  /** Lines without a line break are read back one by one. */
  lemma {:induction false} TerminatedSplits(lines: seq<string>, tail: string)
    requires forall i | 0 <= i < |lines| :: '\n' !in lines[i]
    ensures Split(Terminated(lines) + tail, '\n') == lines + Split(tail, '\n')
  {
    if lines == [] {
      assert Terminated(lines) + tail == tail;
    } else {
      var init, last := lines[..|lines| - 1], lines[|lines| - 1];
      TerminatedSplits(init, last + "\n" + tail);
      LineThenTail(Terminated(init), last, tail);
      SplitAtSeparator(last, tail, '\n');
      Regroup(init, last, Split(tail, '\n'), lines);
    }
  }

  // Trimming

  lemma {:induction false} TrimLeftAppend(s: string, c: char)
    requires IsSpace(c)
    ensures TrimLeft(s + [c]) == if TrimLeft(s) == "" then "" else TrimLeft(s) + [c]
  {
    if s == "" {
      assert TrimLeft([c]) == TrimLeft([c][1..]);
    } else if IsSpace(s[0]) {
      TrimLeftAppend(s[1..], c);
      assert (s + [c])[1..] == s[1..] + [c];
    }
  }

  /** Trimming blanks at the end first changes nothing. */
  lemma {:induction false} TrimSpaceOfTail(s: string)
    ensures TrimSpace(TrimTail(s)) == TrimSpace(s)
  {
    if s != "" && (s[|s| - 1] == ' ' || s[|s| - 1] == '\t') {
      var init := s[..|s| - 1];
      TrimSpaceOfTail(init);
      TrimLeftAppend(init, s[|s| - 1]);
      assert s == init + [s[|s| - 1]];
      var t := TrimLeft(init);
      if t != "" {
        assert (t + [s[|s| - 1]])[..|t|] == t;
      }
    }
  }

  lemma {:induction false} TrimTailIsPrefix(s: string)
    ensures TrimTail(s) <= s
  {
    if s != "" && (s[|s| - 1] == ' ' || s[|s| - 1] == '\t') {
      TrimTailIsPrefix(s[..|s| - 1]);
    }
  }

  lemma {:induction false} TrimRightKeepsFirst(s: string)
    requires s != "" && !IsSpace(s[0])
    ensures TrimRight(s) != "" && TrimRight(s)[0] == s[0]
  {
    if IsSpace(s[|s| - 1]) {
      TrimRightKeepsFirst(s[..|s| - 1]);
    }
  }

  /** A line that opens with a visible character keeps it when trimmed. */
  lemma TrimSpaceKeepsFirst(s: string)
    requires s != "" && !IsSpace(s[0])
    ensures TrimSpace(s) != "" && TrimSpace(s)[0] == s[0]
  {
    TrimRightKeepsFirst(s);
  }

  lemma HeadingSurvivesTrim(s: string)
    requires HasPrefix(TrimTail(s), "#")
    ensures HasPrefix(TrimSpace(s), "#")
  {
    TrimTailIsPrefix(s);
    TrimSpaceKeepsFirst(s);
  }

  // Searching

  /** strings.Index of one character, None for -1. */
  function IndexOf(s: string, c: char): (i: Option<nat>)
    ensures i.None? <==> c !in s
    ensures i.Some? ==> i.value < |s| && s[i.value] == c && c !in s[..i.value]
  {
    if s == "" then None
    else if s[0] == c then Some(0)
    else
      match IndexOf(s[1..], c)
      case None => None
      case Some(i) =>
        assert s[..i + 1] == [s[0]] + s[1..][..i];
        Some(i + 1)
  }

  lemma FirstIndex(a: string, c: char, b: string)
    requires c !in a
    ensures IndexOf(a + [c] + b, c) == Some(|a|)
    ensures (a + [c] + b)[..|a|] == a && (a + [c] + b)[|a| + 1..] == b
  {
    var s := a + [c] + b;
    assert s[|a|] == c;
    assert forall j | 0 <= j < |a| :: s[j] == a[j] && a[j] in a;
    forall k | |a| < k <= |s| ensures c in s[..k] {
      assert s[..k][|a|] == c;
    }
  }

  /** strings.LastIndex of one character, None for -1. */
  function LastIndexOf(s: string, c: char): (i: Option<nat>)
    ensures i.None? <==> c !in s
    ensures i.Some? ==> i.value < |s| && s[i.value] == c && c !in s[i.value + 1..]
  {
    if s == "" then None
    else if s[|s| - 1] == c then Some(|s| - 1)
    else
      assert s == s[..|s| - 1] + [s[|s| - 1]];
      match LastIndexOf(s[..|s| - 1], c)
      case None => None
      case Some(i) =>
        assert s[i + 1..] == s[..|s| - 1][i + 1..] + [s[|s| - 1]];
        Some(i)
  }

  /** strings.Contains */
  predicate Contains(s: string, part: string) {
    part <= s || (s != "" && Contains(s[1..], part))
  }

  /** strings.ReplaceAll(s, "\r\n", "\n") */
  function DropCarriageReturns(s: string): string {
    if s == "" then ""
    else if "\r\n" <= s then "\n" + DropCarriageReturns(s[2..])
    else [s[0]] + DropCarriageReturns(s[1..])
  }

  const MAX_INT := 9223372036854775807

  function DigitsValue(s: string): nat
    requires AllDigits(s)
  {
    if s == "" then 0 else DigitsValue(s[..|s| - 1]) * 10 + (s[|s| - 1] as int - '0' as int)
  }

  /** strconv.Atoi on a run of digits: out of the 64-bit range is an error. */
  function Atoi(s: string): Option<nat>
    requires AllDigits(s)
  {
    var n := DigitsValue(s);
    if n > MAX_INT then None else Some(n)
  }

  function Digit(n: nat): char
    requires n < 10
  {
    '0' + n as char
  }

  /** A number as %d prints it. */
  function Decimal(n: nat): string {
    if n < 10 then [Digit(n)] else Decimal(n / 10) + [Digit(n % 10)]
  }

  lemma DigitAppended(s: string, d: nat)
    requires AllDigits(s) && d < 10
    ensures AllDigits(s + [Digit(d)]) && DigitsValue(s + [Digit(d)]) == DigitsValue(s) * 10 + d
  {
    assert (s + [Digit(d)])[..|s|] == s;
  }

  /** A number is printed so that it reads back. */
  lemma {:induction false} DecimalReads(n: nat)
    ensures Decimal(n) != "" && AllDigits(Decimal(n)) && DigitsValue(Decimal(n)) == n
  {
    if n < 10 {
      DigitAppended("", n);
      assert "" + [Digit(n)] == [Digit(n)];
    } else {
      DecimalReads(n / 10);
      DigitAppended(Decimal(n / 10), n % 10);
    }
  }

  // Lists

  /** What f makes of a list follows from what it makes of its front. */
  ghost predicate ByFront<T(!new), X>(f: seq<T> -> X) {
    forall a, b, x: T | f(a) == f(b) :: f(a + [x]) == f(b + [x])
  }

  lemma {:induction false} SameOn<T(!new), X>(f: seq<T> -> X, a: seq<T>, b: seq<T>, more: seq<T>)
    requires ByFront(f) && f(a) == f(b)
    ensures f(a + more) == f(b + more)
  {
    if more == [] {
      assert a + more == a && b + more == b;
    } else {
      var init, x := more[..|more| - 1], more[|more| - 1];
      assert a + more == (a + init) + [x] && b + more == (b + init) + [x];
      SameOn(f, a, b, init);
    }
  }

  /** What f makes of a list grows by each element that is ok. */
  ghost predicate Grows<T(!new)>(f: seq<T> -> seq<T>, ok: T -> bool) {
    forall a, x | ok(x) :: f(a + [x]) == f(a) + [x]
  }

  lemma {:induction false} GrowsBy<T(!new)>(f: seq<T> -> seq<T>, ok: T -> bool, a: seq<T>, more: seq<T>)
    requires Grows(f, ok) && forall i | 0 <= i < |more| :: ok(more[i])
    ensures f(a + more) == f(a) + more
  {
    if more == [] {
      assert a + more == a;
    } else {
      var init, x := more[..|more| - 1], more[|more| - 1];
      assert a + more == (a + init) + [x] && more == init + [x];
      GrowsBy(f, ok, a, init);
    }
  }
}
