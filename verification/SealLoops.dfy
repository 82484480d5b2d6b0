/** The loops of sealNotes in cmd/terva-apidiff/notes.go. */
module SealLoops {
  import opened Text
  import opened Notes
  import opened Seal
  import opened ScanLaws
  import opened Looks
  import opened SealTheorem
  import opened SealResult
  import opened Sealing
  import opened NotesLoops

  // Where the section is

  lemma {:induction false} FirstTop(zs: seq<Line>, i: nat)
    requires i < |zs| && zs[i].look.IsTop() && forall j | 0 <= j < i :: !zs[j].look.IsTop()
    ensures TopAt(zs) == i
  {
    if i > 0 {
      FirstTop(zs[1..], i - 1);
    }
  }

  lemma {:induction false} FirstUnreleased(zs: seq<Line>, i: nat)
    requires i < |zs| && IsUnreleased(zs[i].look) && forall j | 0 <= j < i :: !IsUnreleased(zs[j].look)
    ensures UnreleasedAt(zs) == i
  {
    if i > 0 {
      FirstUnreleased(zs[1..], i - 1);
    }
  }

  lemma {:induction false} FirstVersion(zs: seq<Line>, version: string, i: nat)
    requires i < |zs| && NamesVersion(zs[i].look, version) && forall j | 0 <= j < i :: !NamesVersion(zs[j].look, version)
    ensures VersionAt(zs, version) == i
  {
    if i > 0 {
      FirstVersion(zs[1..], version, i - 1);
    }
  }

  /** Exactly one line of a page that can be read is the Unreleased heading. */
  lemma OneUnreleased(ref: Option<Version>, zs: seq<Line>, i: nat)
    requires Marked(zs) && Finish(Fold(ref, 0, START, zs)).Ok?
    requires i < |zs| && IsUnreleased(zs[i].look)
    ensures forall j | 0 <= j < |zs| && j != i :: !IsUnreleased(zs[j].look)
  {
    Rejoin(zs, i);
    MarkedParts(zs[..i], [zs[i]] + zs[i + 1..]);
    MarkedParts([zs[i]], zs[i + 1..]);
    PrefixRun(ref, zs[..i], zs[i], zs[i + 1..]);
    FoldGains(ref, 0, START, zs[..i]);
    forall j | 0 <= j < |zs| && j != i ensures !IsUnreleased(zs[j].look) {
      if j < i {
        assert zs[j] in zs[..i];
      } else {
        assert zs[j] in zs[i + 1..];
      }
    }
  }

  /** The Unreleased section: start is the line of its heading, end the line of
      the next. A page that names the version already stops the search. */
  method FindSection(zs: seq<Line>, version: string, ghost ref: Option<Version>)
    returns (start: int, end: int, taken: int)
    requires Marked(zs) && Finish(Fold(ref, 0, START, zs)).Ok?
    ensures taken >= 0 ==> taken < |zs| && NamesVersion(zs[taken].look, version)
    ensures taken >= 0 ==> forall j | 0 <= j < taken :: !NamesVersion(zs[j].look, version)
    ensures taken < 0 ==> forall j | 0 <= j < |zs| :: !NamesVersion(zs[j].look, version)
    ensures taken < 0 ==> 0 <= start < end <= |zs| && IsUnreleased(zs[start].look) && (end < |zs| ==> zs[end].look.IsTop())
    ensures taken < 0 ==> forall j | start < j < end :: !zs[j].look.IsTop()
  {
    start, end, taken := -1, |zs|, -1;
    for i := 0 to |zs|
      invariant forall j | 0 <= j < i :: !NamesVersion(zs[j].look, version)
      invariant start < 0 ==> end == |zs| && forall j | 0 <= j < i :: !IsUnreleased(zs[j].look)
      invariant start >= 0 ==> start < i && IsUnreleased(zs[start].look)
      invariant start >= 0 ==> forall j | start < j < (if end < i then end else i) :: !zs[j].look.IsTop()
      invariant start >= 0 && end < |zs| ==> start < end < i && zs[end].look.IsTop()
      invariant end <= |zs| && taken < 0
    {
      var k := zs[i].look;
      if k.kind.Plain? {
        if NamesVersion(k, version) {
          return start, end, i;
        } else if IsUnreleased(k) {
          if start >= 0 {
            OneUnreleased(ref, zs, start);
            assert false;
          }
          start := i;
        } else if start >= 0 && end == |zs| && i > start && k.IsTop() {
          end := i;
        }
      }
    }
    if start < 0 {
      NoUnreleasedUnread(ref, zs);
      assert false;
    }
  }

  lemma NoneNamed(zs: seq<Line>, version: string)
    requires forall j | 0 <= j < |zs| :: !NamesVersion(zs[j].look, version)
    ensures VersionAt(zs, version) == |zs|
  {
  }

  lemma NoUnreleasedUnread(ref: Option<Version>, zs: seq<Line>)
    requires Marked(zs) && forall j | 0 <= j < |zs| :: !IsUnreleased(zs[j].look)
    ensures Finish(Fold(ref, 0, START, zs)).Err?
  {
    if Fold(ref, 0, START, zs).Ok? {
      NoneUnreleasedAt(zs);
      FoldGains(ref, 0, START, zs);
    }
  }

  lemma UnreleasedIs(zs: seq<Line>, start: nat)
    requires Marked(zs) && Finish(Fold(None, 0, START, zs)).Ok?
    requires start < |zs| && IsUnreleased(zs[start].look)
    ensures UnreleasedAt(zs) == start
  {
    OneUnreleased(None, zs, start);
    FirstUnreleased(zs, start);
  }

  lemma SectionEnds(zs: seq<Line>, start: int, end: int)
    requires 0 <= start < end <= |zs| && (end < |zs| ==> zs[end].look.IsTop())
    requires forall j | start < j < end :: !zs[j].look.IsTop()
    ensures end == start + 1 + TopAt(zs[start + 1..])
  {
    var rest := zs[start + 1..];
    forall j | 0 <= j < end - start - 1 ensures !rest[j].look.IsTop() {
      assert rest[j] == zs[start + 1 + j];
    }
    if end < |zs| {
      FirstTop(rest, end - start - 1);
    }
  }

  lemma NoneUnreleasedAt(zs: seq<Line>)
    requires forall j | 0 <= j < |zs| :: !IsUnreleased(zs[j].look)
    ensures HasNoUnreleased(zs)
  {
  }

  // The lines that move

  lemma {:induction false} DropAppend(a: seq<Line>, z: Line)
    ensures DropPlaceholders(a + [z]) == DropPlaceholders(a) + if z.look.IsPlaceholder() then [] else [z]
  {
    if a == [] {
      assert a + [z] == [z] && [z][1..] == [];
    } else {
      assert (a + [z])[0] == a[0] && (a + [z])[1..] == a[1..] + [z];
      DropAppend(a[1..], z);
    }
  }

  lemma {:induction false} DropPrefix(a: seq<Line>, b: seq<Line>)
    ensures DropPlaceholders(a) <= DropPlaceholders(a + b)
  {
    if a == [] {
    } else {
      assert (a + b)[0] == a[0] && (a + b)[1..] == a[1..] + b;
      DropPrefix(a[1..], b);
    }
  }

  /** A section that can be read has at most one unstable heading. */
  lemma {:induction false} NoSecondUnstable(n: nat, s: State, zs: seq<Line>)
    requires Marked(zs) && NoHeading(zs) && s.zone.InUnstable? && Fold(None, n, s, zs).Ok?
    ensures forall j | 0 <= j < |zs| :: !IsUnstableSub(zs[j].look)
    decreases |zs|
  {
    if zs != [] {
      assert zs[0] in zs;
      NoSecondUnstable(n + 1, Step(None, n + 1, s, zs[0].look).value, zs[1..]);
      forall j | 0 <= j < |zs| ensures !IsUnstableSub(zs[j].look) {
        if j > 0 {
          assert zs[j] == zs[1..][j - 1];
        }
      }
    }
  }

  predicate OneUnstable(sec: seq<Line>) {
    forall i, j | 0 <= i < j < |sec| :: !(IsUnstableSub(sec[i].look) && IsUnstableSub(sec[j].look))
  }

  lemma {:induction false} SectionHasOneUnstable(n: nat, s: State, sec: seq<Line>)
    requires Marked(sec) && NoHeading(sec) && !s.zone.Skip? && Fold(None, n, s, sec).Ok?
    ensures OneUnstable(sec)
    decreases |sec|
  {
    if sec != [] {
      assert sec[0] in sec;
      var t := Step(None, n + 1, s, sec[0].look).value;
      SectionHasOneUnstable(n + 1, t, sec[1..]);
      if IsUnstableSub(sec[0].look) {
        NoSecondUnstable(n + 1, t, sec[1..]);
      }
      forall i, j | 0 <= i < j < |sec| ensures !(IsUnstableSub(sec[i].look) && IsUnstableSub(sec[j].look)) {
        assert sec[j] == sec[1..][j - 1];
        if i > 0 {
          assert sec[i] == sec[1..][i - 1];
        }
      }
    }
  }

  lemma {:induction false} FirstUnstable(zs: seq<Line>, i: nat)
    requires i < |zs| && IsUnstableSub(zs[i].look) && forall j | 0 <= j < i :: !IsUnstableSub(zs[j].look)
    ensures UnstableAt(zs) == i
  {
    if i > 0 {
      FirstUnstable(zs[1..], i - 1);
    }
  }

  lemma CutNothing(sec: seq<Line>)
    requires forall j | 0 <= j < |sec| :: !IsUnstableSub(sec[j].look)
    ensures Cut(sec) == sec
  {
    assert UnstableAt(sec) == |sec|;
  }

  lemma CutAt(sec: seq<Line>, at: nat)
    requires at < |sec| && UnstableAt(sec) == at
    ensures Cut(sec) == if forall j | at <= j < |sec| :: !IsUnstableNote(sec[j].look) then sec[..at] else sec
  {
  }

  lemma DropUpTo(sec: seq<Line>, at: nat)
    requires at <= |sec|
    ensures DropPlaceholders(sec[..at]) <= DropPlaceholders(sec)
  {
    DropPrefix(sec[..at], sec[at..]);
    TakeDrop(sec, at);
  }

  lemma TakeDrop<T>(s: seq<T>, i: nat)
    requires i <= |s|
    ensures s[..i] + s[i..] == s
  {
  }

  /** The section without its placeholders and without a bare unstable part. */
  method MoveBody(sec: seq<Line>) returns (body: seq<Line>)
    requires OneUnstable(sec)
    ensures body == DropPlaceholders(Cut(sec))
  {
    body := [];
    var unstableAt, unstableNotes := -1, 0;
    ghost var at := -1;
    for i := 0 to |sec|
      invariant body == DropPlaceholders(sec[..i])
      invariant unstableAt < 0 <==> at < 0
      invariant at < 0 ==> unstableNotes == 0 && forall j | 0 <= j < i :: !IsUnstableSub(sec[j].look)
      invariant at >= 0 ==>
                  at < i && IsUnstableSub(sec[at].look) && (forall j | 0 <= j < at :: !IsUnstableSub(sec[j].look)) &&
                  unstableAt == |DropPlaceholders(sec[..at])| &&
                  (unstableNotes == 0 <==> forall j | at <= j < i :: !IsUnstableNote(sec[j].look))
      invariant unstableNotes >= 0
    {
      var k := sec[i].look;
      assert sec[..i + 1] == sec[..i] + [sec[i]];
      DropAppend(sec[..i], sec[i]);
      if k.kind.Plain? {
        match k.what {
          case PlaceholderLine =>
            continue;
          case UnstableSub =>
            unstableAt, at := |body|, i;
          case Sub4 =>
            if unstableAt >= 0 {
              unstableNotes := unstableNotes + 1;
            }
          case _ =>
        }
      }
      body := body + [sec[i]];
    }
    assert sec[..|sec|] == sec;
    if at >= 0 {
      FirstUnstable(sec, at);
      CutAt(sec, at);
      DropUpTo(sec, at);
    } else {
      CutNothing(sec);
    }
    if unstableAt >= 0 && unstableNotes == 0 {
      body := body[..unstableAt];
    }
  }

  lemma {:induction false} SqueezeAppend(a: seq<Line>, z: Line, open: bool)
    ensures var r := Squeeze(a, open);
            Squeeze(a + [z], open) ==
            if !z.look.visible && (if r == [] then open else !r[|r| - 1].look.visible) then r else r + [z]
  {
    if a == [] {
      assert a + [z] == [z] && [z][1..] == [];
    } else {
      ConsSnoc(a, z);
      if !a[0].look.visible && open {
        SqueezeAppend(a[1..], z, true);
      } else {
        SqueezeAppend(a[1..], z, !a[0].look.visible);
        LastOfCons(a[0], Squeeze(a[1..], !a[0].look.visible), z);
      }
    }
  }

  lemma ConsSnoc<T>(a: seq<T>, z: T)
    requires a != []
    ensures (a + [z])[0] == a[0] && (a + [z])[1..] == a[1..] + [z]
  {
  }

  lemma LastOfCons<T>(x: T, rest: seq<T>, z: T)
    ensures ([x] + rest)[|rest|] == if rest == [] then x else rest[|rest| - 1]
    ensures [x] + (rest + [z]) == [x] + rest + [z]
  {
  }

  method TidyBody(body: seq<Line>) returns (tidy: seq<Line>)
    ensures tidy == Tidy(body)
  {
    tidy := [];
    for i := 0 to |body|
      invariant tidy == Squeeze(body[..i], true)
    {
      assert body[..i + 1] == body[..i] + [body[i]];
      SqueezeAppend(body[..i], body[i], true);
      if !body[i].look.visible && (|tidy| == 0 || !tidy[|tidy| - 1].look.visible) {
        continue;
      }
      tidy := tidy + [body[i]];
    }
    assert body[..|body|] == body;
    while |tidy| > 0 && !tidy[|tidy| - 1].look.visible
      invariant DropBlankTail(tidy) == Tidy(body)
    {
      tidy := tidy[..|tidy| - 1];
    }
  }

  lemma PageSectionHasOneUnstable(zs: seq<Line>)
    requires Marked(zs) && UnreleasedAt(zs) < |zs| && Finish(Fold(None, 0, START, zs)).Ok?
    ensures OneUnstable(Section(zs))
  {
    Pieces(zs);
    var pre, h, sec, post := Before(zs), zs[UnreleasedAt(zs)], Section(zs), After(zs);
    MarkedParts(pre, [h] + (sec + post));
    MarkedParts([h], sec + post);
    MarkedParts(sec, post);
    PrefixRun(None, pre, h, sec + post);
    var a := Fold(None, 0, START, pre).value;
    assert h in [h];
    FoldAppend(None, |pre| + 1, Step(None, |pre| + 1, a, h.look).value, sec, post);
    SectionHasOneUnstable(|pre| + 1, Step(None, |pre| + 1, a, h.look).value, sec);
  }

  /** The lines of the sealed page. */
  method SealLines(zs: seq<Line>, start: int, end: int, version: string, count: string) returns (out: seq<string>)
    requires 0 <= start < end <= |zs| && start == UnreleasedAt(zs) && end == start + 1 + TopAt(zs[start + 1..])
    requires OneUnstable(Section(zs))
    ensures out == SealedLines(zs, version, count)
  {
    var rest, size := zs[start + 1..], end - start - 1;
    var body := MoveBody(rest[..size]);
    var tidy := TidyBody(body);
    out := Texts(zs[..start]) + Opening(version, count) + Texts(tidy);
    if size < |rest| {
      out := out + [""];
    } else {
      assert out + [] == out;
    }
    out := out + Texts(rest[size..]);
  }

  lemma ReadPage(page: string)
    requires Parse(page, "").Ok?
    ensures var zs := PageLines(page);
            Marked(zs) && Finish(Fold(None, 0, START, zs)).Ok? && UnreleasedAt(zs) < |zs| && OneUnstable(Section(zs))
  {
    ReadHasUnreleased(page, "");
    MarkIsWell("", SplitPage(page));
    assert Semver("") == None;
    PageSectionHasOneUnstable(PageLines(page));
  }

  /** Moves the section under Unreleased, on the lines of a page that was read. */
  method SealMarked(zs: seq<Line>, version: string, count: string, pending: nat) returns (r: Result<Sealed, SealError>)
    requires Marked(zs) && Finish(Fold(None, 0, START, zs)).Ok? && UnreleasedAt(zs) < |zs| && OneUnstable(Section(zs))
    ensures r == SealMarks(zs, version, count, pending)
  {
    var start, end, taken := FindSection(zs, version, None);
    if taken >= 0 {
      FirstVersion(zs, version, taken);
      return Err(AlreadySealed(taken + 1));
    }
    NoneNamed(zs, version);
    UnreleasedIs(zs, start);
    SectionEnds(zs, start, end);
    var out := SealLines(zs, start, end, version, count);
    return Ok(Sealed(Write(out), pending));
  }

  /** Moves the notes under Unreleased to a section for the version. */
  method SealNotes(page: string, version: string, count: string) returns (r: Result<Sealed, SealError>)
    ensures r == SealPage(page, version, count)
  {
    if !IsVersion(version) {
      return Err(NotAVersion);
    }
    var read := ParseNotes(page, "");
    match read
    case Err(e) => return Err(Unreadable(e));
    case Ok(doc) =>
      if doc.pending == 0 {
        return Ok(Sealed(page, 0));
      }
      var split := SplitLines(page);
      ReadPage(page);
      r := SealMarked(split.value, version, count, doc.pending);
  }
}
