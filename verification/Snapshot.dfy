/** The committed record of a package's exported API: formatSnapshot and
    parseSnapshot of cmd/terva-apidiff/snapshot.go. */
module Snapshot {
  import opened Text
  import opened Api
  import opened Sorting
  import opened Diff

  const UNSTABLE := " unstable"

  function ClassName(cls: Class): string {
    if cls.Stable? then "stable" else "unstable"
  }

  const OPENING := "# "
  const TITLE := "): its exported API, one symbol per line."
  const NOTE_WRITER := "Written by `just api-snapshot`. "
  const NOTE_CHECK := "`just api-check` fails when it no "
  const NOTE_END := "longer matches the code."

  function Header(e: Entry): seq<string> {
    [OPENING + (e.pkg + " (" + ClassName(e.cls) + TITLE), OPENING + (NOTE_WRITER + NOTE_CHECK + NOTE_END)]
  }

  function KindField(s: Symbol): string {
    if s.unstable then s.kind + UNSTABLE else s.kind
  }

  /** A symbol's line: the signature field is left out when it is empty. */
  function LineOf(s: Symbol): string {
    s.name + ['\t'] + if s.sig == "" then KindField(s) else KindField(s) + ['\t'] + s.sig
  }

  function LinesOf(list: seq<Symbol>): seq<string> {
    if list == [] then [] else LinesOf(list[..|list| - 1]) + [LineOf(list[|list| - 1])]
  }

  function Format(e: Entry, syms: Symbols): string {
    Terminated(Header(e) + LinesOf(SymbolsAt(syms, SortedSet(syms.Keys))))
  }

  // Reading

  /** strings.SplitN(line, "\t", 3) */
  function Fields(line: string): seq<string> {
    match IndexOf(line, '\t')
    case None => [line]
    case Some(i) =>
      var rest := line[i + 1..];
      match IndexOf(rest, '\t')
      case None => [line[..i], rest]
      case Some(j) => [line[..i], rest[..j], rest[j + 1..]]
  }

  function SymbolOf(name: string, kind: string, sig: string): Symbol {
    if HasSuffix(kind, UNSTABLE) then Symbol(name, kind[..|kind| - |UNSTABLE|], sig, true, [])
    else Symbol(name, kind, sig, false, [])
  }

  datatype Read = Skipped | Bad | Found(s: Symbol)

  function ReadLine(line: string): Read {
    if line == "" || HasPrefix(line, "#") then Skipped
    else
      var parts := Fields(line);
      if |parts| < 2 then Bad else Found(SymbolOf(parts[0], parts[1], if |parts| == 3 then parts[2] else ""))
  }

  /** The symbols of the lines, a later line of a name replacing an earlier one;
      an error is the number of the first bad line. */
  function ReadAll(lines: seq<string>): Result<Symbols, nat> {
    if lines == [] then Ok(map[])
    else
      match ReadAll(lines[..|lines| - 1])
      case Err(n) => Err(n)
      case Ok(syms) =>
        match ReadLine(lines[|lines| - 1])
        case Skipped => Ok(syms)
        case Bad => Err(|lines|)
        case Found(s) => Ok(syms[s.name := s])
  }

  function Parse(data: string): Result<Symbols, nat> {
    ReadAll(Split(data, '\n'))
  }

  // The loops

  method FormatSnapshot(e: Entry, syms: Symbols) returns (text: string)
    requires Keyed(syms)
    ensures text == Format(e, syms)
  {
    var list := SortedSymbols(syms);
    var lines := Header(e);
    for i := 0 to |list|
      invariant lines == Header(e) + LinesOf(list[..i])
    {
      var line := WriteLine(list[i]);
      LinesMore(Header(e), list, i);
      lines := lines + [line];
    }
    assert list[..|list|] == list;
    text := WriteLines(lines);
  }

  method WriteLine(s: Symbol) returns (line: string)
    ensures line == LineOf(s)
  {
    var kind := s.kind;
    if s.unstable {
      kind := kind + UNSTABLE;
    }
    if s.sig == "" {
      return s.name + ['\t'] + kind;
    }
    return s.name + ['\t'] + (kind + ['\t'] + s.sig);
  }

  lemma LinesMore(header: seq<string>, list: seq<Symbol>, i: nat)
    requires i < |list|
    ensures header + LinesOf(list[..i + 1]) == header + LinesOf(list[..i]) + [LineOf(list[i])]
  {
    assert list[..i + 1][..i] == list[..i];
  }

  method WriteLines(lines: seq<string>) returns (text: string)
    ensures text == Terminated(lines)
  {
    text := "";
    for i := 0 to |lines|
      invariant text == Terminated(lines[..i])
    {
      assert lines[..i + 1][..i] == lines[..i];
      text := text + lines[i] + "\n";
    }
    assert lines[..|lines|] == lines;
  }

  /** sortedSymbols: the map is ranged over in no fixed order. */
  method SortedSymbols(syms: Symbols) returns (list: seq<Symbol>)
    requires Keyed(syms)
    ensures list == SymbolsAt(syms, SortedSet(syms.Keys))
  {
    var all := Missing(syms, map[]);
    list := SortBy((s: Symbol) => s.name, all);
    assert AddedKeys(map[], syms) == syms.Keys;
    SortedListUnique(syms, all, list);
  }

  function NamesOf(list: seq<Symbol>): seq<string> {
    Image((s: Symbol) => s.name, list)
  }

  lemma NamesSorted(list: seq<Symbol>, order: seq<string>, picked: seq<Symbol>, keys: set<string>)
    requires Enumerates(order, keys) && NamesOf(picked) == order
    requires multiset(list) == multiset(picked) && SortedBy((s: Symbol) => s.name, list)
    ensures NamesOf(list) == SortedSet(keys)
  {
    ImagePermuted((s: Symbol) => s.name, list, picked);
    SortCollected(order, keys);
    SortedUnique(NamesOf(list), Sort(order));
  }

  /** The symbols sorted by name are those at the sorted keys. */
  lemma SortedListUnique(syms: Symbols, all: seq<Symbol>, list: seq<Symbol>)
    requires Keyed(syms) && ListsSymbols(all, syms, syms.Keys)
    requires multiset(list) == multiset(all) && SortedBy((s: Symbol) => s.name, list)
    ensures list == SymbolsAt(syms, SortedSet(syms.Keys))
  {
    var order :| Enumerates(order, syms.Keys) && multiset(all) == multiset(SymbolsAt(syms, order));
    var picked := SymbolsAt(syms, order);
    forall i | 0 <= i < |order| ensures picked[i].name == order[i] && syms[picked[i].name] == picked[i] && order[i] in syms {
      assert order[i] in order;
    }
    assert NamesOf(picked) == order;
    NamesSorted(list, order, picked, syms.Keys);
    forall i | 0 <= i < |list| ensures list[i].name in syms && syms[list[i].name] == list[i] {
      assert list[i] in multiset(picked);
    }
    ListByNames(syms, list, SortedSet(syms.Keys));
  }

  lemma ListByNames(syms: Symbols, list: seq<Symbol>, names: seq<string>)
    requires NamesOf(list) == names && forall i | 0 <= i < |list| :: list[i].name in syms && syms[list[i].name] == list[i]
    ensures (forall k | k in names :: k in syms) && list == SymbolsAt(syms, names)
  {
    assert |list| == |names|;
    forall i | 0 <= i < |list| ensures names[i] == list[i].name {
      assert NamesOf(list)[i] == names[i];
    }
  }

  method ParseSnapshot(data: string) returns (r: Result<Symbols, nat>)
    ensures r == Parse(data)
  {
    var lines := Split(data, '\n');
    var syms: Symbols := map[];
    for n := 0 to |lines|
      invariant ReadAll(lines[..n]) == Ok(syms)
    {
      assert lines[..n + 1][..n] == lines[..n];
      var line := lines[n];
      var read := ReadLine(line);
      if read.Bad? {
        FirstError(lines, n + 1);
        return Err(n + 1);
      }
      if read.Found? {
        syms := syms[read.s.name := read.s];
      }
    }
    assert lines[..|lines|] == lines;
    return Ok(syms);
  }

  lemma {:induction false} FirstError(lines: seq<string>, n: nat)
    requires n <= |lines| && ReadAll(lines[..n]).Err?
    ensures ReadAll(lines) == ReadAll(lines[..n])
  {
    if n < |lines| {
      assert lines[..|lines| - 1][..n] == lines[..n];
      FirstError(lines[..|lines| - 1], n);
    } else {
      assert lines[..n] == lines;
    }
  }

  // The round trip

  /** Names and kinds without tabs, and nothing with a line break. */
  predicate OneLine(s: Symbol) {
    '\t' !in s.name && '\t' !in s.kind && '\n' !in s.name && '\n' !in s.kind && '\n' !in s.sig
  }

  /** A name that does not read as a comment, and a kind that does not read as
      one that is marked. */
  predicate ReadsBack(s: Symbol) {
    !HasPrefix(s.name, "#") && (s.unstable || !HasSuffix(s.kind, UNSTABLE))
  }

  ghost predicate AllOneLine(syms: Symbols) {
    forall k | k in syms :: OneLine(syms[k])
  }

  ghost predicate AllReadBack(syms: Symbols) {
    forall k | k in syms :: ReadsBack(syms[k])
  }

  /** The symbols as a snapshot records them: without references. */
  function Bare(syms: Symbols): Symbols {
    map k | k in syms :: syms[k].(refs := [])
  }

  lemma FieldsTwo(a: string, b: string)
    requires '\t' !in a && '\t' !in b
    ensures Fields(a + ['\t'] + b) == [a, b]
  {
    FirstIndex(a, '\t', b);
  }

  lemma FieldsThree(a: string, b: string, c: string)
    requires '\t' !in a && '\t' !in b
    ensures Fields(a + ['\t'] + (b + ['\t'] + c)) == [a, b, c]
  {
    FirstIndex(a, '\t', b + ['\t'] + c);
    FirstIndex(b, '\t', c);
  }

  lemma KindRead(s: Symbol, kind: string)
    requires kind == KindField(s)
    ensures ReadsBack(s) ==> SymbolOf(s.name, kind, s.sig) == s.(refs := [])
    ensures !s.unstable && HasSuffix(s.kind, UNSTABLE) ==> SymbolOf(s.name, kind, s.sig).unstable
    ensures SymbolOf(s.name, kind, s.sig).name == s.name
  {
    if s.unstable {
      assert kind[|kind| - |UNSTABLE|..] == UNSTABLE && kind[..|kind| - |UNSTABLE|] == s.kind;
    }
  }

  lemma LineStarts(s: Symbol, rest: string)
    ensures var line := s.name + ['\t'] + rest;
      line != "" && (HasPrefix(line, "#") <==> HasPrefix(s.name, "#"))
  {
    var line := s.name + ['\t'] + rest;
    assert line[0] == if s.name == "" then '\t' else s.name[0];
    assert HasPrefix(line, "#") <==> line[0] == '#';
    assert s.name != "" ==> (HasPrefix(s.name, "#") <==> s.name[0] == '#');
  }

  lemma LineFields(s: Symbol, kind: string)
    requires '\t' !in s.name && '\t' !in kind && kind == KindField(s)
    ensures Fields(LineOf(s)) == if s.sig == "" then [s.name, kind] else [s.name, kind, s.sig]
  {
    if s.sig == "" {
      FieldsTwo(s.name, kind);
    } else {
      FieldsThree(s.name, kind, s.sig);
    }
  }

  lemma LineRead(s: Symbol, line: string)
    requires OneLine(s) && line == LineOf(s)
    ensures '\n' !in line
    ensures HasPrefix(s.name, "#") ==> ReadLine(line) == Skipped
    ensures !HasPrefix(s.name, "#") ==> ReadLine(line) == Found(SymbolOf(s.name, KindField(s), s.sig))
  {
    var kind := KindField(s);
    assert '\t' !in kind && '\n' !in kind;
    LineStarts(s, if s.sig == "" then kind else kind + ['\t'] + s.sig);
    LineFields(s, kind);
  }

  /** What comes back of one symbol. */
  function Returned(s: Symbol): Option<Symbol> {
    if HasPrefix(s.name, "#") then None else Some(SymbolOf(s.name, KindField(s), s.sig))
  }

  lemma ReturnedExactly(s: Symbol)
    ensures Returned(s) == Some(s.(refs := [])) <==> ReadsBack(s)
    ensures Returned(s).Some? ==> Returned(s).value.name == s.name
  {
    KindRead(s, KindField(s));
  }

  /** What comes back of a list of symbols. */
  function Collected(list: seq<Symbol>): Symbols {
    if list == [] then map[]
    else
      var before := Collected(list[..|list| - 1]);
      match Returned(list[|list| - 1])
      case None => before
      case Some(s) => before[s.name := s]
  }

  lemma {:induction false} LinesReadBack(header: seq<string>, list: seq<Symbol>)
    requires ReadAll(header) == Ok(map[]) && forall i | 0 <= i < |list| :: OneLine(list[i])
    ensures ReadAll(header + LinesOf(list)) == Ok(Collected(list))
  {
    if list == [] {
      assert header + LinesOf(list) == header;
    } else {
      var init, s := list[..|list| - 1], list[|list| - 1];
      LinesReadBack(header, init);
      LineRead(s, LineOf(s));
      NextLineRead(header + LinesOf(init), LineOf(s), Collected(init));
      assert header + LinesOf(list) == header + LinesOf(init) + [LineOf(s)];
    }
  }

  lemma NextLineRead(lines: seq<string>, line: string, syms: Symbols)
    requires ReadAll(lines) == Ok(syms) && !ReadLine(line).Bad?
    ensures ReadAll(lines + [line]) ==
      Ok(match ReadLine(line) case Found(s) => syms[s.name := s] case _ => syms)
  {
    assert (lines + [line])[..|lines|] == lines;
  }

  lemma {:induction false} CollectedAt(syms: Symbols, order: seq<string>)
    requires Keyed(syms) && NoDuplicates(order) && forall k | k in order :: k in syms
    ensures forall k :: k in Collected(SymbolsAt(syms, order)) <==> k in order && Returned(syms[k]).Some?
    ensures forall k | k in order && Returned(syms[k]).Some? ::
      Collected(SymbolsAt(syms, order))[k] == Returned(syms[k]).value
  {
    if order != [] {
      var init, k := order[..|order| - 1], order[|order| - 1];
      CollectedAt(syms, init);
      assert order == init + [k];
      assert SymbolsAt(syms, order)[..|order| - 1] == SymbolsAt(syms, init);
      ReturnedExactly(syms[k]);
    }
  }

  lemma CommentSkipped(rest: string)
    ensures ReadLine(OPENING + rest) == Skipped
  {
    assert (OPENING + rest)[0] == '#';
  }

  lemma TwoComments(a: string, b: string)
    requires ReadLine(a) == Skipped && ReadLine(b) == Skipped
    ensures ReadAll([a, b]) == Ok(map[])
  {
    assert [a, b][..1] == [a] && [a][..0] == [];
    assert ReadAll([a]) == ReadAll([]);
  }

  lemma HeaderSkipped(e: Entry)
    ensures ReadAll(Header(e)) == Ok(map[])
  {
    CommentSkipped(e.pkg + " (" + ClassName(e.cls) + TITLE);
    CommentSkipped(NOTE_WRITER + NOTE_CHECK + NOTE_END);
    TwoComments(Header(e)[0], Header(e)[1]);
  }

  lemma {:induction false} LinesHaveNoBreaks(list: seq<Symbol>)
    requires forall i | 0 <= i < |list| :: OneLine(list[i])
    ensures |LinesOf(list)| == |list| && forall i | 0 <= i < |list| :: '\n' !in LinesOf(list)[i]
  {
    if list != [] {
      LinesHaveNoBreaks(list[..|list| - 1]);
      LineRead(list[|list| - 1], LineOf(list[|list| - 1]));
    }
  }

  lemma TitleHasNoBreaks()
    ensures '\n' !in TITLE && '\n' !in NOTE_WRITER
  {
  }

  lemma NoteHasNoBreaks()
    ensures '\n' !in NOTE_CHECK && '\n' !in NOTE_END
  {
  }

  lemma HeaderHasNoBreaks(e: Entry)
    requires '\n' !in e.pkg
    ensures |Header(e)| == 2 && '\n' !in Header(e)[0] && '\n' !in Header(e)[1]
  {
    TitleHasNoBreaks();
    NoteHasNoBreaks();
    assert '\n' !in ClassName(e.cls) && '\n' !in OPENING && '\n' !in " (";
  }

  /** Reading back lines that were written, each with its newline. */
  lemma WrittenLinesRead(lines: seq<string>, text: string, syms: Symbols)
    requires text == Terminated(lines) && ReadAll(lines) == Ok(syms) && forall i | 0 <= i < |lines| :: '\n' !in lines[i]
    ensures Parse(text) == Ok(syms)
  {
    TerminatedSplits(lines, "");
    assert text + "" == text;
    assert Split("", '\n') == [""];
    NextLineRead(lines, "", syms);
  }

  /** What parsing a formatted snapshot gives. */
  lemma Parsed(e: Entry, syms: Symbols, order: seq<string>)
    requires Keyed(syms) && AllOneLine(syms) && '\n' !in e.pkg && order == SortedSet(syms.Keys)
    ensures Parse(Format(e, syms)) == Ok(Collected(SymbolsAt(syms, order)))
  {
    var list, header := SymbolsAt(syms, order), Header(e);
    forall i | 0 <= i < |list| ensures OneLine(list[i]) {
      assert order[i] in order;
    }
    HeaderSkipped(e);
    HeaderHasNoBreaks(e);
    ListParsed(header, list, header + LinesOf(list), Format(e, syms));
  }

  lemma ListParsed(header: seq<string>, list: seq<Symbol>, lines: seq<string>, text: string)
    requires lines == header + LinesOf(list) && text == Terminated(lines)
    requires ReadAll(header) == Ok(map[]) && forall i | 0 <= i < |header| :: '\n' !in header[i]
    requires forall i | 0 <= i < |list| :: OneLine(list[i])
    ensures Parse(text) == Ok(Collected(list))
  {
    LinesReadBack(header, list);
    LinesHaveNoBreaks(list);
    WrittenLinesRead(lines, text, Collected(list));
  }

  // The main results

  /** Parsing a formatted snapshot gives the same symbols, markers included,
      exactly when none of them reads as a comment or as a marked one. */
  lemma SnapshotRoundTrip(e: Entry, syms: Symbols)
    requires Keyed(syms) && AllOneLine(syms) && '\n' !in e.pkg
    ensures Parse(Format(e, syms)) == Ok(Bare(syms)) <==> AllReadBack(syms)
  {
    var order := SortedSet(syms.Keys);
    Parsed(e, syms, order);
    CollectedAt(syms, order);
    var got := Collected(SymbolsAt(syms, order));
    forall k | k in syms
      ensures Returned(syms[k]) == Some(Bare(syms)[k]) <==> ReadsBack(syms[k])
      ensures (k in got && got[k] == Bare(syms)[k]) <==> Returned(syms[k]) == Some(Bare(syms)[k])
    {
      ReturnedExactly(syms[k]);
      assert k in order;
    }
    if AllReadBack(syms) {
      assert got == Bare(syms);
    } else {
      var k :| k in syms && !ReadsBack(syms[k]);
      assert !(k in got && got[k] == Bare(syms)[k]);
    }
  }

  /** So under one header, equal bytes mean equal symbols, and equal symbols give
      equal bytes whatever order the maps are ranged over in. */
  lemma EqualBytesMeanEqualSymbols(e: Entry, a: Symbols, b: Symbols)
    requires Keyed(a) && AllOneLine(a) && AllReadBack(a) && Keyed(b) && AllOneLine(b) && AllReadBack(b)
    requires '\n' !in e.pkg
    ensures Format(e, a) == Format(e, b) <==> Bare(a) == Bare(b)
  {
    SnapshotRoundTrip(e, a);
    SnapshotRoundTrip(e, b);
    if Bare(a) == Bare(b) {
      EqualSymbolsFormatAlike(e, a, b);
    }
  }

  lemma EqualSymbolsFormatAlike(e: Entry, a: Symbols, b: Symbols)
    requires Bare(a) == Bare(b)
    ensures Format(e, a) == Format(e, b)
  {
    assert a.Keys == Bare(a).Keys == Bare(b).Keys == b.Keys;
    var order := SortedSet(a.Keys);
    forall i | 0 <= i < |order| ensures LineOf(SymbolsAt(a, order)[i]) == LineOf(SymbolsAt(b, order)[i]) {
      assert order[i] in order;
      assert Bare(a)[order[i]] == Bare(b)[order[i]];
      LineWithoutRefs(a[order[i]], b[order[i]]);
    }
    LinesAlike(SymbolsAt(a, order), SymbolsAt(b, order));
  }

  lemma LineWithoutRefs(a: Symbol, b: Symbol)
    requires a.(refs := []) == b.(refs := [])
    ensures LineOf(a) == LineOf(b)
  {
  }

  lemma {:induction false} LinesAlike(a: seq<Symbol>, b: seq<Symbol>)
    requires |a| == |b| && forall i | 0 <= i < |a| :: LineOf(a[i]) == LineOf(b[i])
    ensures LinesOf(a) == LinesOf(b)
  {
    if a != [] {
      LinesAlike(a[..|a| - 1], b[..|b| - 1]);
    }
  }
}
