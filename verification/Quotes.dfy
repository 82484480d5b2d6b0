/** Blanking quoted spans: blankSingleQuoted, closingQuote and quoteNeighbour of
    cmd/terva-ste-lint/rules.go, on strings of bytes. */
module Quotes {

  predicate Neighbour(c: char) {
    c == '_' || 'a' <= c <= 'z' || 'A' <= c <= 'Z' || '0' <= c <= '9'
  }

  /** A quote with no word before it. */
  predicate Opens(s: string, i: nat) {
    i < |s| && s[i] == '\'' && (i == 0 || !Neighbour(s[i - 1]))
  }

  /** A quote with no word after it. */
  predicate Closes(s: string, j: nat) {
    j < |s| && s[j] == '\'' && (j + 1 == |s| || !Neighbour(s[j + 1]))
  }

  /** The text after i up to and with j is on one line. */
  predicate SameLine(s: string, i: nat, j: nat)
    requires j < |s|
  {
    forall k | i < k <= j :: s[k] != '\n'
  }

  /** A quoted span: it ends at the first quote that closes on its line. */
  predicate IsSpan(s: string, i: nat, j: nat) {
    Opens(s, i) && i < j && Closes(s, j) && SameLine(s, i, j) && forall k | i < k < j :: !Closes(s, k)
  }

  datatype Span = Span(first: nat, last: nat)

  predicate Covers(span: Span, i: nat) {
    span.first <= i <= span.last
  }

  predicate Inside(spans: seq<Span>, i: nat) {
    spans != [] && (Covers(spans[|spans| - 1], i) || Inside(spans[..|spans| - 1], i))
  }

  lemma {:induction false} InsideAt(spans: seq<Span>, k: nat, i: nat)
    requires k < |spans| && Covers(spans[k], i)
    ensures Inside(spans, i)
  {
    if k < |spans| - 1 {
      InsideAt(spans[..|spans| - 1], k, i);
    }
  }

  lemma {:induction false} Covering(spans: seq<Span>, i: nat) returns (k: nat)
    requires Inside(spans, i)
    ensures k < |spans| && Covers(spans[k], i)
  {
    k := |spans| - 1;
    if !Covers(spans[k], i) {
      k := Covering(spans[..|spans| - 1], i);
    }
  }

  /** The leftmost disjoint spans: in order, apart, and covering the start of
      every span of the text. */
  ghost predicate Leftmost(s: string, spans: seq<Span>) {
    (forall k | 0 <= k < |spans| :: IsSpan(s, spans[k].first, spans[k].last)) &&
    (forall k, l | 0 <= k < l < |spans| :: spans[k].last < spans[l].first) &&
    forall i: nat, j: nat | IsSpan(s, i, j) :: Inside(spans, i)
  }

  /** The spans are blanked and nothing else is. */
  ghost predicate Blanked(s: string, spans: seq<Span>, r: string) {
    |r| == |s| && forall i | 0 <= i < |s| :: r[i] == if Inside(spans, i) then ' ' else s[i]
  }

  // The scans

  /** closingQuote, None for -1. */
  method ClosingQuote(s: string, open: nat) returns (end: int)
    requires open < |s|
    ensures -1 <= end < |s|
    ensures end >= 0 ==> open < end && Closes(s, end) && SameLine(s, open, end) && forall k | open < k < end :: !Closes(s, k)
    ensures end < 0 ==> forall j | open < j < |s| && SameLine(s, open, j) :: !Closes(s, j)
  {
    var j := open + 1;
    while j < |s|
      invariant open < j <= |s|
      invariant forall k | open < k < j :: s[k] != '\n' && !Closes(s, k)
    {
      if s[j] == '\n' {
        return -1;
      }
      if s[j] == '\'' && (j + 1 == |s| || !Neighbour(s[j + 1])) {
        return j;
      }
      j := j + 1;
    }
    return -1;
  }

  /** What has been found and blanked before i. */
  ghost predicate Before(s: string, i: nat, spans: seq<Span>) {
    (forall k | 0 <= k < |spans| :: IsSpan(s, spans[k].first, spans[k].last) && spans[k].last < i) &&
    (forall k, l | 0 <= k < l < |spans| :: spans[k].last < spans[l].first) &&
    forall p: nat, q: nat | p < i && IsSpan(s, p, q) :: Inside(spans, p)
  }

  lemma InsideGrows(spans: seq<Span>, span: Span, i: nat)
    ensures Inside(spans + [span], i) <==> Inside(spans, i) || Covers(span, i)
  {
    assert (spans + [span])[..|spans|] == spans;
  }

  lemma SpanAdded(s: string, i: nat, spans: seq<Span>, end: nat)
    requires Before(s, i, spans) && IsSpan(s, i, end)
    ensures Before(s, end + 1, spans + [Span(i, end)])
  {
    var more := spans + [Span(i, end)];
    forall p: nat, q: nat | p < end + 1 && IsSpan(s, p, q) ensures Inside(more, p) {
      InsideGrows(spans, Span(i, end), p);
    }
  }

  lemma NoSpanHere(s: string, i: nat, spans: seq<Span>)
    requires Before(s, i, spans)
    requires Opens(s, i) ==> forall j | i < j < |s| && SameLine(s, i, j) :: !Closes(s, j)
    ensures Before(s, i + 1, spans)
  {
  }

  lemma BlankedMore(s: string, spans: seq<Span>, span: Span, r: string, r': string)
    requires Blanked(s, spans, r) && |r'| == |r|
    requires forall i | 0 <= i < |r| :: r'[i] == if Covers(span, i) then ' ' else r[i]
    ensures Blanked(s, spans + [span], r')
  {
    forall i | 0 <= i < |s| ensures r'[i] == if Inside(spans + [span], i) then ' ' else s[i] {
      InsideGrows(spans, span, i);
    }
  }

  method CopyOf(s: string) returns (b: array<char>)
    ensures fresh(b) && b[..] == s
  {
    b := new char[|s|](k requires 0 <= k < |s| => s[k]);
  }

  method BlankRange(b: array<char>, i: nat, end: nat)
    requires i <= end < b.Length
    modifies b
    ensures |b[..]| == b.Length && forall k | 0 <= k < b.Length :: b[..][k] == if Covers(Span(i, end), k) then ' ' else old(b[..])[k]
  {
    var j := i;
    while j <= end
      invariant i <= j <= end + 1
      invariant forall k | 0 <= k < b.Length :: b[k] == if i <= k < j then ' ' else old(b[k])
    {
      b[j] := ' ';
      j := j + 1;
    }
  }

  /** The text with its leftmost disjoint spans blanked. */
  ghost predicate IsBlanking(s: string, r: string) {
    exists spans :: Leftmost(s, spans) && Blanked(s, spans, r)
  }

  /** blankSingleQuoted */
  method BlankSingleQuoted(s: string) returns (r: string)
    ensures IsBlanking(s, r)
  {
    var b: array?<char> := null;
    ghost var spans: seq<Span> := [];
    var i := 0;
    while i < |s|
      invariant i <= |s| && Before(s, i, spans)
      invariant b != null ==> fresh(b)
      invariant Blanked(s, spans, if b == null then s else b[..])
    {
      if s[i] != '\'' || (i > 0 && Neighbour(s[i - 1])) {
        NoSpanHere(s, i, spans);
        i := i + 1;
        continue;
      }
      var end := ClosingQuote(s, i);
      if end < 0 {
        NoSpanHere(s, i, spans);
        i := i + 1;
        continue;
      }
      if b == null {
        b := CopyOf(s);
      }
      ghost var was := b[..];
      BlankRange(b, i, end);
      SpanAdded(s, i, spans, end);
      BlankedMore(s, spans, Span(i, end), was, b[..]);
      spans := spans + [Span(i, end)];
      i := end + 1;
    }
    r := if b == null then s else b[..];
    assert Leftmost(s, spans) && Blanked(s, spans, r);
  }

  // What the spans are

  lemma SpanEnds(s: string, i: nat, j: nat, j': nat)
    requires IsSpan(s, i, j) && IsSpan(s, i, j')
    ensures j == j'
  {
  }

  lemma SamePrefix<T>(a: seq<T>, b: seq<T>, n: nat)
    requires n <= |a| && n <= |b| && a[..n] == b[..n]
    ensures forall k | 0 <= k < n :: a[k] == b[k]
  {
    forall k | 0 <= k < n ensures a[k] == b[k] {
      assert a[..n][k] == b[..n][k];
    }
  }

  /** Where the n-th leftmost spans start does not depend on who found them. */
  lemma {:induction false} LeftmostAgree(s: string, a: seq<Span>, b: seq<Span>, n: nat)
    requires Leftmost(s, a) && Leftmost(s, b) && n <= |a|
    ensures n <= |b| && a[..n] == b[..n]
  {
    if n > 0 {
      LeftmostAgree(s, a, b, n - 1);
      var x := a[n - 1];
      var k := Covering(b, x.first);
      SamePrefix(a, b, n - 1);
      if k < n - 1 {
        assert false;
      }
      NextSpan(s, a, b, n - 1);
    }
  }

  lemma NextSpan(s: string, a: seq<Span>, b: seq<Span>, n: nat)
    requires Leftmost(s, a) && Leftmost(s, b) && n < |a| && n < |b| && a[..n] == b[..n]
    ensures a[n] == b[n]
  {
    StartsNoLater(s, a, b, n);
    StartsNoLater(s, b, a, n);
    SpanEnds(s, a[n].first, a[n].last, b[n].last);
  }

  lemma StartsNoLater(s: string, a: seq<Span>, b: seq<Span>, n: nat)
    requires Leftmost(s, a) && Leftmost(s, b) && n < |a| && n < |b| && a[..n] == b[..n]
    ensures a[n].first <= b[n].first
  {
    assert IsSpan(s, b[n].first, b[n].last);
    var k := Covering(a, b[n].first);
    SamePrefix(a, b, n);
    if k < n {
      assert false;
    }
  }

  /** There is one list of leftmost disjoint spans, so blanking is a function. */
  lemma LeftmostUnique(s: string, a: seq<Span>, b: seq<Span>)
    requires Leftmost(s, a) && Leftmost(s, b)
    ensures a == b
  {
    LeftmostAgree(s, a, b, |a|);
    LeftmostAgree(s, b, a, |b|);
    assert a[..|a|] == a && b[..|b|] == b;
  }

  // What blanking keeps

  lemma NewlinesKept(s: string, spans: seq<Span>, r: string)
    requires Leftmost(s, spans) && Blanked(s, spans, r)
    ensures forall i | 0 <= i < |s| :: r[i] == '\n' <==> s[i] == '\n'
  {
    forall i | 0 <= i < |s| && Inside(spans, i) ensures s[i] != '\n' {
      var k := Covering(spans, i);
      assert IsSpan(s, spans[k].first, spans[k].last);
    }
  }

  /** The apostrophe of a word is no end of a span: inside a span it is blanked
      with the rest, and outside it stays. */
  lemma PossessiveIsProse(s: string, spans: seq<Span>, r: string, i: nat)
    requires Leftmost(s, spans) && Blanked(s, spans, r)
    requires 0 < i < |s| - 1 && s[i] == '\'' && Neighbour(s[i - 1]) && Neighbour(s[i + 1])
    ensures if Inside(spans, i) then Inside(spans, i - 1) && Inside(spans, i + 1) else r[i] == '\''
  {
    if Inside(spans, i) {
      var k := Covering(spans, i);
      assert IsSpan(s, spans[k].first, spans[k].last);
      InsideAt(spans, k, i - 1);
      InsideAt(spans, k, i + 1);
    }
  }

  lemma {:induction false} FirstCloser(s: string, i: nat, j: nat) returns (first: nat)
    requires Opens(s, i) && i < j && Closes(s, j) && SameLine(s, i, j)
    ensures IsSpan(s, i, first)
    decreases j
  {
    if k: nat :| i < k < j && Closes(s, k) {
      first := FirstCloser(s, i, k);
    } else {
      first := j;
    }
  }

  /** No span is left: blanking again changes nothing. */
  lemma BlankedHasNoSpans(s: string, spans: seq<Span>, r: string)
    requires Leftmost(s, spans) && Blanked(s, spans, r)
    ensures Leftmost(r, [])
  {
    NewlinesKept(s, spans, r);
    forall i: nat, j: nat ensures !IsSpan(r, i, j) {
      SpanWasThere(s, spans, r, i, j);
    }
  }

  lemma SpanWasThere(s: string, spans: seq<Span>, r: string, i: nat, j: nat)
    requires Leftmost(s, spans) && Blanked(s, spans, r)
    requires forall k | 0 <= k < |s| :: r[k] == '\n' <==> s[k] == '\n'
    ensures !IsSpan(r, i, j)
  {
    if IsSpan(r, i, j) {
      assert !Inside(spans, i) && !Inside(spans, j);
      EdgeIsQuote(s, spans, i);
      EdgeIsQuote(s, spans, j);
      var first := FirstCloser(s, i, j);
      assert false;
    }
  }

  /** Beside a byte outside the spans, a byte inside one is a quote. */
  lemma EdgeIsQuote(s: string, spans: seq<Span>, i: nat)
    requires Leftmost(s, spans) && i < |s| && !Inside(spans, i)
    ensures i > 0 && Inside(spans, i - 1) ==> s[i - 1] == '\''
    ensures i + 1 < |s| && Inside(spans, i + 1) ==> s[i + 1] == '\''
  {
    if i > 0 && Inside(spans, i - 1) {
      var k := Covering(spans, i - 1);
      assert IsSpan(s, spans[k].first, spans[k].last);
      if Covers(spans[k], i) {
        InsideAt(spans, k, i);
      }
    }
    if i + 1 < |s| && Inside(spans, i + 1) {
      var k := Covering(spans, i + 1);
      assert IsSpan(s, spans[k].first, spans[k].last);
      if Covers(spans[k], i) {
        InsideAt(spans, k, i);
      }
    }
  }

  /** So there is one way to blank a text. */
  lemma BlankingUnique(s: string, r: string, r': string)
    requires IsBlanking(s, r) && IsBlanking(s, r')
    ensures r == r'
  {
    var a :| Leftmost(s, a) && Blanked(s, a, r);
    var b :| Leftmost(s, b) && Blanked(s, b, r');
    LeftmostUnique(s, a, b);
  }

  /** Blanking a blanked text changes nothing. */
  lemma BlankingIsIdempotent(s: string, r: string, r': string)
    requires IsBlanking(s, r) && IsBlanking(r, r')
    ensures r' == r
  {
    var spans :| Leftmost(s, spans) && Blanked(s, spans, r);
    BlankedHasNoSpans(s, spans, r);
    assert Blanked(r, [], r);
    BlankingUnique(r, r, r');
  }
}
