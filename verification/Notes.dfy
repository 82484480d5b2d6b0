/** The migration-notes page: cmd/terva-apidiff/notes.go.

    A page is read line by line. Mark gives each line its part in a code fence
    and says what kind of line it is, and Step is one line of the state machine
    that collects the names of the Covers: paragraphs. The methods that loop
    over the page the way the tool does are in NotesLoops; they compute Parse. */
module Notes {
  import opened Text
  import opened Api

  const UNRELEASED_HEADING := "## Unreleased"
  const UNSTABLE_HEADING := "### Unstable changes (no promise)"
  const COVERS_LABEL := "Covers:"
  const PLACEHOLDER := "No notes yet."
  const UNRELEASED := "Unreleased"

  // Versions

  datatype Version = Version(major: nat, minor: nat, patch: nat)

  const ZERO := Version(0, 0, 0)

  predicate Newer(a: Version, b: Version) {
    a.major > b.major ||
    (a.major == b.major && (a.minor > b.minor || (a.minor == b.minor && a.patch > b.patch)))
  }

  /** d+.d+.d+ and nothing else */
  predicate IsTriple(s: string) {
    var parts := Split(s, '.');
    |parts| == 3 && forall i | 0 <= i < 3 :: parts[i] != "" && AllDigits(parts[i])
  }

  /** vX.Y.Z and nothing else */
  predicate IsVersion(s: string) {
    s != "" && s[0] == 'v' && IsTriple(s[1..])
  }

  /** The vX.Y.Z at the end of s. The match starts at the last v, because no
      later part of it can hold one. */
  function Semver(s: string): Option<Version> {
    match LastIndexOf(s, 'v')
    case None => None
    case Some(i) =>
      if !IsTriple(s[i + 1..]) then None
      else
        var parts := Split(s[i + 1..], '.');
        match (Atoi(parts[0]), Atoi(parts[1]), Atoi(parts[2]))
        case (Some(x), Some(y), Some(z)) => Some(Version(x, y, z))
        case _ => None
  }

  /** The version a heading names, zero when a number in it is out of range. */
  function HeadingVersion(s: string): Version {
    match Semver(s)
    case None => ZERO
    case Some(v) => v
  }

  // Covers

  /** A backquoted name of a Covers: paragraph. */
  datatype Name = Name(text: string, pkg: string, symbol: string, tree: bool)

  /** A name, with its line and the class of the subsection it stands in. */
  datatype Cover = Cover(line: nat, name: Name, cls: Class)

  datatype NameError = NotASingleName | TreeOfSymbol | EmptySymbol | MalformedPackage

  /** Where the last segment of a path starts. */
  function LastSegmentAt(path: string): (at: nat)
    ensures at <= |path| && '/' !in path[at..] && (at > 0 ==> path[at - 1] == '/')
  {
    match LastIndexOf(path, '/')
    case None =>
      assert path[0..] == path;
      0
    case Some(i) => i + 1
  }

  /** A package directory, then a dot and a symbol, or the tree suffix. */
  function ParseCover(s: string): Result<Name, NameError> {
    if s == "" || ' ' in s || '\t' in s then Err(NotASingleName)
    else
      var tree := HasSuffix(s, "/...");
      ParsePath(s, if tree then s[..|s| - 4] else s, tree)
  }

  function ParsePath(s: string, path: string, tree: bool): Result<Name, NameError> {
    ParseAt(s, path, tree, IndexOf(path[LastSegmentAt(path)..], '.'))
  }

  /** The first dot of the last segment ends the directory. */
  function ParseAt(s: string, path: string, tree: bool, dot: Option<nat>): Result<Name, NameError>
    requires dot.Some? ==> LastSegmentAt(path) + dot.value < |path|
  {
    match dot
    case None =>
      if MalformedDirectory(path) then Err(MalformedPackage) else Ok(Name(s, path, "", tree))
    case Some(at) =>
      var end := LastSegmentAt(path) + at;
      if tree then Err(TreeOfSymbol) else ParseSymbol(s, path[..end], path[end + 1..])
  }

  function ParseSymbol(s: string, pkg: string, name: string): Result<Name, NameError> {
    if name == "" || HasPrefix(name, ".") || HasSuffix(name, ".") || Contains(name, "..") then Err(EmptySymbol)
    else if MalformedDirectory(pkg) then Err(MalformedPackage)
    else Ok(Name(s, pkg, name, false))
  }

  predicate MalformedDirectory(pkg: string) {
    pkg == "" || HasPrefix(pkg, "/") || HasSuffix(pkg, "/") || Contains(pkg, "//")
  }

  /** The texts between pairs of backquotes, left to right. */
  function Backquoted(s: string): seq<string> {
    match IndexOf(s, '`')
    case None => []
    case Some(i) =>
      match IndexOf(s[i + 1..], '`')
      case None => []
      case Some(j) => [s[i + 1..][..j]] + Backquoted(s[i + 1..][j + 1..])
  }

  /** The names, or what is wrong with the first one that cannot be read. */
  function ParseNames(texts: seq<string>): Result<seq<Name>, NameError> {
    if texts == [] then Ok([])
    else
      match ParseCover(texts[0])
      case Err(e) => Err(e)
      case Ok(c) =>
        match ParseNames(texts[1..])
        case Err(e) => Err(e)
        case Ok(cs) => Ok([c] + cs)
  }

  function Covers(names: seq<Name>, line: nat, cls: Class): (r: seq<Cover>)
    ensures |r| == |names|
    ensures forall i | 0 <= i < |names| :: r[i] == Cover(line, names[i], cls)
  {
    if names == [] then [] else [Cover(line, names[0], cls)] + Covers(names[1..], line, cls)
  }

  // Lines

  datatype Kind = Plain | Fence | Code

  /** What a line outside every code fence is. */
  datatype What =
    | UnreleasedTop
    | VersionTop(version: string, number: Version)
    | OtherTop
    | UnstableSub
    | Sub3
    | Sub4
    | CoversLine
    | PlaceholderLine
    | Prose

  /** All that the parser sees of one line. */
  datatype Look = Look(kind: Kind, visible: bool, hash: bool, what: What, names: Result<seq<Name>, NameError>)
  {
    predicate IsTop() {
      kind.Plain? && (what.UnreleasedTop? || what.VersionTop? || what.OtherTop?)
    }

    /** A blank line, a heading or a fence ends a Covers: paragraph. */
    predicate EndsPara() {
      !visible || hash || !kind.Plain?
    }

    predicate IsPlaceholder() {
      kind.Plain? && what.PlaceholderLine?
    }
  }

  datatype Line = Line(text: string, look: Look)

  function WhatOf(text: string): What {
    var line := TrimTail(text);
    if HasPrefix(line, "## ") || line == "##" then
      if line == UNRELEASED_HEADING then UnreleasedTop
      else if HasPrefix(line, "## ") && IsVersion(line[3..]) then VersionTop(line[3..], HeadingVersion(line[3..]))
      else OtherTop
    else if line == UNSTABLE_HEADING then UnstableSub
    else if HasPrefix(line, "### ") then Sub3
    else if HasPrefix(line, "#### ") then Sub4
    else if HasPrefix(TrimSpace(line), COVERS_LABEL) then CoversLine
    else if line == PLACEHOLDER then PlaceholderLine
    else Prose
  }

  /** The part a line plays in the code fences, given the open one ("" for none). */
  function KindOf(fence: string, text: string): Kind {
    var t := TrimSpace(text);
    if fence != "" then (if HasPrefix(t, fence) then Fence else Code)
    else if HasPrefix(t, "```") || HasPrefix(t, "~~~") then Fence
    else Plain
  }

  function LookAt(fence: string, text: string): Look {
    var t := TrimSpace(text);
    Look(KindOf(fence, text), t != "", HasPrefix(t, "#"), WhatOf(text), ParseNames(Backquoted(t)))
  }

  function NextFence(fence: string, text: string): string {
    match KindOf(fence, text)
    case Fence => if fence != "" then "" else TrimSpace(text)[..3]
    case _ => fence
  }

  function Mark(fence: string, lines: seq<string>): (marked: seq<Line>)
    ensures |marked| == |lines|
    ensures forall i | 0 <= i < |lines| :: marked[i].text == lines[i]
    decreases |lines|
  {
    if lines == [] then []
    else [Line(lines[0], LookAt(fence, lines[0]))] + Mark(NextFence(fence, lines[0]), lines[1..])
  }

  function FenceAfter(fence: string, lines: seq<string>): string
    decreases |lines|
  {
    if lines == [] then fence else FenceAfter(NextFence(fence, lines[0]), lines[1..])
  }

  function SplitPage(page: string): seq<string> {
    Split(DropCarriageReturns(page), '\n')
  }

  // The line state machine

  datatype Zone = Skip | InStable | InUnstable

  /** A Covers: paragraph that is being read. */
  datatype Para = NoPara | Open(start: nat, names: nat)

  /** note is the line of the current note's heading, 0 outside a note. */
  datatype State = State(
    zone: Zone, section: string, unreleased: nat, note: nat, guided: bool, para: Para,
    covers: seq<Cover>, sealed: seq<string>, pending: nat)

  const START := State(Skip, "", 0, 0, false, NoPara, [], [], 0)

  datatype ParseError =
    | Unclosed(fence: string)
    | SecondVersion(line: nat, version: string)
    | SecondUnstable(line: nat, section: string)
    | AfterUnstable(line: nat)
    | OutsideNote(line: nat, zone: Zone)
    | SaysNothing(line: nat, note: nat)
    | BadName(line: nat, why: NameError)
    | NamesNothing(start: nat)
    | NoUnreleased
    | ManyUnreleased(count: nat)

  type Scan = Result<State, ParseError>

  /** A check against ref reads the sections of the versions newer than it. */
  predicate ReadsVersion(ref: Option<Version>, number: Version) {
    ref.Some? && Newer(number, ref.value)
  }

  function ZoneClass(zone: Zone): Class {
    if zone.InUnstable? then Unstable else Stable
  }

  function Close(s: State): Scan {
    if s.para.Open? && s.para.names == 0 then Err(NamesNothing(s.para.start)) else Ok(s.(para := NoPara))
  }

  function TopStep(ref: Option<Version>, n: nat, s: State, what: What): Scan {
    var t := s.(zone := Skip, note := 0, section := "");
    match what
    case UnreleasedTop => Ok(t.(unreleased := s.unreleased + 1, zone := InStable, section := UNRELEASED))
    case VersionTop(v, number) =>
      if !ReadsVersion(ref, number) then Ok(t)
      else if v in s.sealed then Err(SecondVersion(n, v))
      else Ok(t.(sealed := s.sealed + [v], zone := InStable, section := v))
    case _ => Ok(t)
  }

  /** One line of an open Covers: paragraph. */
  function ParaStep(n: nat, s: State, k: Look): Scan
    requires s.para.Open?
  {
    match k.names
    case Err(e) => Err(BadName(n, e))
    case Ok(names) =>
      Ok(s.(covers := s.covers + Covers(names, n, ZoneClass(s.zone)),
            para := Open(s.para.start, s.para.names + |names|)))
  }

  function NewNote(n: nat, s: State): State {
    s.(note := n, guided := false, pending := if s.section == UNRELEASED then s.pending + 1 else s.pending)
  }

  /** A line of text inside a section that is read. */
  function BodyStep(n: nat, s: State, k: Look): Scan {
    match k.what
    case UnstableSub =>
      if s.zone.InUnstable? then Err(SecondUnstable(n, s.section)) else Ok(s.(zone := InUnstable, note := 0))
    case Sub3 => if s.zone.InUnstable? then Err(AfterUnstable(n)) else Ok(NewNote(n, s))
    case Sub4 => if s.zone.InUnstable? then Ok(NewNote(n, s)) else Ok(s)
    case CoversLine =>
      if s.note == 0 then Err(OutsideNote(n, s.zone))
      else if !s.guided then Err(SaysNothing(n, s.note))
      else ParaStep(n, s.(para := Open(n, 0)), k)
    case _ => Ok(s.(guided := s.guided || (s.note > 0 && k.visible && !k.hash)))
  }

  /** A line outside any Covers: paragraph. */
  function BaseStep(ref: Option<Version>, n: nat, s: State, k: Look): Scan {
    match k.kind
    case Fence => Ok(s)
    case Code => Ok(s.(guided := s.guided || (!s.zone.Skip? && s.note > 0 && k.visible)))
    case Plain =>
      if k.IsTop() then TopStep(ref, n, s, k.what)
      else if s.zone.Skip? then Ok(s)
      else BodyStep(n, s, k)
  }

  /** Line n of the page. */
  function Step(ref: Option<Version>, n: nat, s: State, k: Look): Scan {
    if s.para.Open? && !k.EndsPara() then ParaStep(n, s, k)
    else
      match Close(s)
      case Err(e) => Err(e)
      case Ok(t) => BaseStep(ref, n, t, k)
  }

  /** The lines zs, read after n lines that left state s. */
  function Fold(ref: Option<Version>, n: nat, s: State, zs: seq<Line>): Scan
    decreases |zs|
  {
    if zs == [] then Ok(s)
    else
      match Step(ref, n + 1, s, zs[0].look)
      case Err(e) => Err(e)
      case Ok(t) => Fold(ref, n + 1, t, zs[1..])
  }

  datatype Doc = Doc(covers: seq<Cover>, sealed: seq<string>, pending: nat)

  function Finish(r: Scan): Result<Doc, ParseError> {
    match r
    case Err(e) => Err(e)
    case Ok(s) =>
      match Close(s)
      case Err(e) => Err(e)
      case Ok(t) =>
        if t.unreleased == 0 then Err(NoUnreleased)
        else if t.unreleased > 1 then Err(ManyUnreleased(t.unreleased))
        else Ok(Doc(t.covers, t.sealed, t.pending))
  }

  function ParseLines(lines: seq<string>, ref: Option<Version>): Result<Doc, ParseError> {
    var fence := FenceAfter("", lines);
    if fence != "" then Err(Unclosed(fence)) else Finish(Fold(ref, 0, START, Mark("", lines)))
  }

  function Parse(page: string, ref: string): Result<Doc, ParseError> {
    ParseLines(SplitPage(page), Semver(ref))
  }

  // Laws of the fold

  function Bind(r: Scan, ref: Option<Version>, n: nat, zs: seq<Line>): Scan {
    match r
    case Err(e) => Err(e)
    case Ok(s) => Fold(ref, n, s, zs)
  }

  lemma {:induction false} FoldAppend(ref: Option<Version>, n: nat, s: State, a: seq<Line>, b: seq<Line>)
    ensures Fold(ref, n, s, a + b) == Bind(Fold(ref, n, s, a), ref, n + |a|, b)
    decreases |a|
  {
    if a == [] {
      assert a + b == b;
    } else {
      assert (a + b)[0] == a[0] && (a + b)[1..] == a[1..] + b;
      match Step(ref, n + 1, s, a[0].look)
      case Err(_) =>
      case Ok(t) => FoldAppend(ref, n + 1, t, a[1..], b);
    }
  }

  lemma {:induction false} MarkAppend(fence: string, a: seq<string>, b: seq<string>)
    ensures Mark(fence, a + b) == Mark(fence, a) + Mark(FenceAfter(fence, a), b)
    ensures FenceAfter(fence, a + b) == FenceAfter(FenceAfter(fence, a), b)
    decreases |a|
  {
    if a == [] {
      assert a + b == b;
    } else {
      assert (a + b)[0] == a[0] && (a + b)[1..] == a[1..] + b;
      MarkAppend(NextFence(fence, a[0]), a[1..], b);
    }
  }
}
