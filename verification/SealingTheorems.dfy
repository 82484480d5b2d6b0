/** What sealing promises of the page: a seal keeps what the notes cover, and a
    second seal changes nothing. */
module SealingTheorems {
  import opened Text
  import opened Notes
  import opened Seal
  import opened ScanLaws
  import opened SealSection
  import opened Marking
  import opened Looks
  import opened Written
  import opened Returns
  import opened SealOpening
  import opened OpeningText
  import opened SealTheorem
  import opened SealResult
  import opened Sealing

  // The lines of a sealed page are whole

  lemma {:induction false} DropSubset(zs: seq<Line>)
    ensures forall z | z in DropPlaceholders(zs) :: z in zs
  {
    if zs != [] {
      DropSubset(zs[1..]);
    }
  }

  lemma {:induction false} SqueezeSubset(zs: seq<Line>, open: bool)
    ensures forall z | z in Squeeze(zs, open) :: z in zs
  {
    if zs != [] {
      SqueezeSubset(zs[1..], true);
      SqueezeSubset(zs[1..], !zs[0].look.visible);
    }
  }

  lemma {:induction false} BlankTailSubset(zs: seq<Line>)
    ensures forall z | z in DropBlankTail(zs) :: z in zs
  {
    if zs != [] && !zs[|zs| - 1].look.visible {
      BlankTailSubset(zs[..|zs| - 1]);
    }
  }

  lemma MovedSubset(sec: seq<Line>)
    ensures forall z | z in Moved(sec) :: z in sec
  {
    DropSubset(Cut(sec));
    SqueezeSubset(DropPlaceholders(Cut(sec)), true);
    BlankTailSubset(Squeeze(DropPlaceholders(Cut(sec)), true));
  }

  /** Lines without line breaks, each of which says the same when it is written
      and read again. */
  predicate WholeMarks(zs: seq<Line>) {
    forall z | z in zs :: '\n' !in z.text && SteadyLine(z)
  }

  predicate WholeTexts(lines: seq<string>) {
    forall i | 0 <= i < |lines| :: '\n' !in lines[i] && NoReturn(lines[i])
  }

  /** Lines without returns are whole however they are marked. */
  lemma {:induction false} WholeHoweverMarked(mk: Marker, f: string, lines: seq<string>)
    requires WholeTexts(lines)
    ensures WholeMarks(MarkWith(mk, f, lines))
    decreases |lines|
  {
    if lines != [] {
      assert WholeTexts(lines[1..]) by {
        assert forall i | 0 <= i < |lines[1..]| :: lines[1..][i] == lines[i + 1];
      }
      assert Chomp(lines[0]) == lines[0];
      WholeHoweverMarked(mk, mk.next(f, lines[0]), lines[1..]);
    }
  }

  lemma WholeTextsJoin(a: seq<string>, b: seq<string>)
    requires WholeTexts(a) && WholeTexts(b)
    ensures WholeTexts(a + b)
  {
  }

  lemma WholeOpening(version: string, count: string)
    requires IsVersion(version) && PlainCount(count)
    ensures WholeTexts(Opening(version, count))
  {
    VersionIsOneLine(version);
    var fixed := [UNRELEASED_HEADING, "", PLACEHOLDER, "", UNSTABLE_HEADING, "", PLACEHOLDER, ""];
    assert WholeTexts(fixed);
    assert WholeTexts(["## " + version, ""]);
    WholeTextsJoin(fixed, ["## " + version, ""]);
    var rest := if count != "" then [count, ""] else [];
    assert WholeTexts(rest);
    WholeTextsJoin(fixed + ["## " + version, ""], rest);
    assert Opening(version, count) == fixed + ["## " + version, ""] + rest;
  }

  /** No line of the page, outside the code fences, says anything else when the
      carriage return at its end is dropped: it is no heading then that it was
      not before, and the other way round. */
  predicate SteadyPage(page: string) {
    Steady(PageLines(page))
  }

  lemma PageIsWhole(page: string)
    requires SteadyPage(page)
    ensures WholeMarks(PageLines(page))
  {
    var lines := SplitPage(page);
    forall z | z in PageLines(page) ensures '\n' !in z.text {
      var i :| 0 <= i < |lines| && PageLines(page)[i] == z;
      assert z.text == lines[i];
    }
  }

  lemma WholeMarksJoin(a: seq<Line>, b: seq<Line>)
    requires WholeMarks(a) && WholeMarks(b)
    ensures WholeMarks(a + b)
  {
  }

  lemma SealedIsWhole(pre: seq<Line>, sec: seq<Line>, post: seq<Line>, version: string, count: string)
    requires WholeMarks(pre) && WholeMarks(sec) && WholeMarks(post) && IsVersion(version) && PlainCount(count)
    ensures WholeMarks(Pasted(PAGE, pre, Opening(version, count), Moved(sec), post))
  {
    MovedSubset(sec);
    WholeOpening(version, count);
    WholeHoweverMarked(PAGE, "", Opening(version, count));
    var gap := Gap(PAGE, post);
    assert WholeMarks(gap) by {
      assert Chomp("") == "";
    }
    assert WholeMarks(Moved(sec));
    var opening := MarkWith(PAGE, "", Opening(version, count));
    WholeMarksJoin(gap, post);
    WholeMarksJoin(Moved(sec), gap + post);
    WholeMarksJoin(opening, Moved(sec) + (gap + post));
    WholeMarksJoin(pre, opening + (Moved(sec) + (gap + post)));
  }

  lemma {:induction false} MarksAreLines(mk: Marker, f: string, lines: seq<string>)
    requires WholeMarks(MarkWith(mk, f, lines))
    ensures OneLined(lines)
    decreases |lines|
  {
    MarkIsChain(mk, f, lines);
    var zs := MarkWith(mk, f, lines);
    forall i | 0 <= i < |lines| ensures '\n' !in lines[i] {
      assert Texts(zs)[i] == lines[i] && zs[i] in zs;
    }
  }

  // A page as it is read

  lemma ParseIsFinish(page: string, ref: string)
    ensures Parse(page, ref).Ok? <==>
            FenceAfter("", SplitPage(page)) == "" && Finish(Fold(Semver(ref), 0, START, PageLines(page))).Ok?
    ensures Parse(page, ref).Ok? ==> Parse(page, ref) == Finish(Fold(Semver(ref), 0, START, PageLines(page)))
  {
  }

  /** A page that was written is read as the lines it was written from. */
  lemma ParseWritten(lines: seq<string>, ref: string)
    requires WholeMarks(MarkWith(PAGE, "", lines)) && DropEmptyTail(lines) != [] && FenceWith(PAGE, "", lines) == ""
    ensures var r := Finish(Fold(Semver(ref), 0, START, MarkWith(PAGE, "", lines)));
            (Parse(Write(lines), ref).Ok? <==> r.Ok?) && (r.Ok? ==> Parse(Write(lines), ref) == r)
  {
    PageIsTame();
    PageSeesWell();
    PageSeesNothing();
    MarksAreLines(PAGE, "", lines);
    PageSteady("", lines);
    WrittenReads(PAGE, Semver(ref), lines);
    PageMarks("", SplitPage(Write(lines)));
    ParseIsFinish(Write(lines), ref);
  }

  /** The parts of a page that can be sealed. */
  lemma PageParts(page: string, version: string, count: string)
    returns (pre: seq<Line>, h: Line, sec: seq<Line>, post: seq<Line>)
    requires SealPage(page, version, count).Ok? && SealPage(page, version, count).value.moved > 0
    ensures InPieces(pre, h, sec, post) && Unnamed(pre, version) && Unnamed(post, version)
    ensures PageLines(page) == pre + ([h] + (sec + post))
    ensures UnreleasedAt(PageLines(page)) < |PageLines(page)|
    ensures pre == Before(PageLines(page)) && sec == Section(PageLines(page)) && post == After(PageLines(page))
    ensures Parse(page, "").Ok? && IsVersion(version)
    ensures SealPage(page, version, count).value.page == Write(SealedLines(PageLines(page), version, count))
  {
    var zs := PageLines(page);
    ReadHasUnreleased(page, "");
    MarkIsWell("", SplitPage(page));
    PageInPieces(zs, version);
    Pieces(zs);
    pre, h, sec, post := Before(zs), zs[UnreleasedAt(zs)], Section(zs), After(zs);
  }

  /** Everything the page before the seal and the page after are read from. */
  lemma SealedParse(page: string, version: string, count: string, ref: string)
    returns (pre: seq<Line>, h: Line, sec: seq<Line>, post: seq<Line>)
    requires SealPage(page, version, count).Ok? && SealPage(page, version, count).value.moved > 0
    requires SteadyPage(page) && PlainCount(count)
    ensures InPieces(pre, h, sec, post) && Unnamed(pre, version) && Unnamed(post, version) && Faithful(PAGE, version, count)
    ensures PageLines(page) == pre + ([h] + (sec + post))
    ensures UnreleasedAt(PageLines(page)) < |PageLines(page)|
    ensures pre == Before(PageLines(page)) && sec == Section(PageLines(page)) && post == After(PageLines(page))
    ensures var r := Finish(Fold(Semver(ref), 0, START, Pasted(PAGE, pre, Opening(version, count), Moved(sec), post)));
            var sealed := SealPage(page, version, count).value.page;
            (Parse(sealed, ref).Ok? <==> r.Ok?) && (r.Ok? ==> Parse(sealed, ref) == r)
  {
    pre, h, sec, post := PageParts(page, version, count);
    PageIsFaithful(version, count);
    SealedFence(page, version, count);
    WholePieces(page, pre, h, sec, post);
    SealedIsWhole(pre, sec, post, version, count);
    DropEmptyTailKeeps(SealedLines(PageLines(page), version, count), |pre|);
    ParseWritten(SealedLines(PageLines(page), version, count), ref);
  }

  lemma WholePieces(page: string, pre: seq<Line>, h: Line, sec: seq<Line>, post: seq<Line>)
    requires SteadyPage(page) && PageLines(page) == pre + ([h] + (sec + post))
    ensures WholeMarks(pre) && WholeMarks(sec) && WholeMarks(post)
  {
    PageIsWhole(page);
    PartsIn(pre, [h] + (sec + post));
    PartsIn([h], sec + post);
    PartsIn(sec, post);
  }

  lemma SealedFence(page: string, version: string, count: string)
    requires Parse(page, "").Ok? && UnreleasedAt(PageLines(page)) < |PageLines(page)| && Faithful(PAGE, version, count)
    ensures FenceWith(PAGE, "", SealedLines(PageLines(page), version, count)) == ""
    ensures MarkWith(PAGE, "", SealedLines(PageLines(page), version, count)) ==
            SealedMarks(PAGE, PageLines(page), version, count)
  {
    PageMarks("", SplitPage(page));
    MarkIsChain(PAGE, "", SplitPage(page));
    OpeningRun(PAGE, None, 0, START, version, count);
    SealedMarksAreMarks(PAGE, PageLines(page), version, count);
  }

  // The theorems

  /** No note under Unreleased is guided by the placeholder alone. */
  predicate PlaceholderFree(page: string)
    requires Parse(page, "").Ok?
  {
    ReadHasUnreleased(page, "");
    WellGuided(FRESH, Section(PageLines(page)))
  }

  /** The version sections a check against ref reads before the Unreleased
      heading, and after its section. */
  function SectionsBefore(page: string, ref: string): seq<string>
    requires Parse(page, ref).Ok?
  {
    AllGained(Semver(ref), Before(PageLines(page)))
  }

  function SectionsAfter(page: string, ref: string): seq<string>
    requires Parse(page, ref).Ok?
  {
    ReadHasUnreleased(page, ref);
    AllGained(Semver(ref), After(PageLines(page)))
  }

  /** Sealing preserves coverage. Checked against a ref older than the version,
      the sealed page names the same covers in the same order, no note is
      pending, and the version joins the sealed sections in its place. This
      holds if and only if no note is guided by the placeholder alone. */
  lemma SealPreservesCoverage(page: string, version: string, count: string, ref: string)
    requires SealPage(page, version, count).Ok? && SealPage(page, version, count).value.moved > 0
    requires Parse(page, ref).Ok?
    requires ReadsVersion(Semver(ref), HeadingVersion(version))
    requires SteadyPage(page) && PlainCount(count)
    ensures var sealed := SealPage(page, version, count).value.page;
            PlaceholderFree(page) <==> Parse(sealed, ref).Ok?
    ensures var sealed := SealPage(page, version, count).value.page;
            Parse(sealed, ref).Ok? ==>
              Kept(Parse(page, ref).value, Parse(sealed, ref).value, SectionsBefore(page, ref), version, SectionsAfter(page, ref))
  {
    var pre, h, sec, post := SealedParse(page, version, count, ref);
    ParseIsFinish(page, ref);
    assert version[0] == 'v' && UNRELEASED[0] == 'U';
    SealedLinesKeep(PAGE, Semver(ref), pre, h, sec, post, version, count);
  }

  // A second seal

  lemma {:induction false} FoldUnread(n: nat, s: State, zs: seq<Line>)
    requires s.zone.Skip? && s.para.NoPara? && HasNoUnreleased(zs)
    ensures Fold(None, n, s, zs).Ok?
    ensures var t := Fold(None, n, s, zs).value;
            t.zone.Skip? && t.para.NoPara? && t.pending == s.pending && t.unreleased == s.unreleased
    decreases |zs|
  {
    if zs != [] {
      var k := zs[0].look;
      assert zs[0] in zs;
      FoldUnread(n + 1, Step(None, n + 1, s, k).value, zs[1..]);
    }
  }

  /** Read with no ref, a sealed page has nothing pending. */
  lemma SealedUnread(pre: seq<Line>, h: Line, sec: seq<Line>, post: seq<Line>, version: string, count: string)
    requires InPieces(pre, h, sec, post) && Faithful(PAGE, version, count)
    requires Finish(Fold(None, 0, START, pre + ([h] + (sec + post)))).Ok?
    ensures var r := Finish(Fold(None, 0, START, Pasted(PAGE, pre, Opening(version, count), Moved(sec), post)));
            r.Ok? && r.value.pending == 0
  {
    MarkedJoin(sec, post);
    PrefixRun(None, pre, h, sec + post);
    var a := Fold(None, 0, START, pre).value;
    var m := SealedFold(PAGE, None, pre, Moved(sec), post, version, count, a);
    MovedMarked(sec);
    GapMarked(PAGE, post);
    UnreadTail(m, AfterOpening(None, a, version), Moved(sec), Gap(PAGE, post), sec, post);
    FinishClosed(Fold(None, 0, START, pre + ([h] + (sec + post))));
    FinishClosed(Fold(None, 0, START, Pasted(PAGE, pre, Opening(version, count), Moved(sec), post)));
    assert h in [h];
    StepGains(None, |pre| + 1, a, h.look);
    FoldGains(None, |pre| + 1, Step(None, |pre| + 1, a, h.look).value, sec + post);
  }

  lemma UnreadTail(m: nat, d: State, moved: seq<Line>, gap: seq<Line>, sec: seq<Line>, post: seq<Line>)
    requires d.zone.Skip? && d.para.NoPara? && NoHeading(moved) && NoHeading(gap) && HasNoUnreleased(sec + post)
    ensures Fold(None, m, d, moved + (gap + post)).Ok?
    ensures var t := Fold(None, m, d, moved + (gap + post)).value;
            t.para.NoPara? && t.pending == d.pending && t.unreleased == d.unreleased
  {
    NoneUnreleased(moved);
    NoneUnreleased(gap);
    assert HasNoUnreleased(post) by {
      PartsIn(sec, post);
    }
    assert HasNoUnreleased(moved + (gap + post));
    FoldUnread(m, d, moved + (gap + post));
  }

  /** A second seal, for any version, changes nothing. */
  lemma SecondSealChangesNothing(page: string, version: string, count: string, again: string, recount: string)
    requires SealPage(page, version, count).Ok? && SealPage(page, version, count).value.moved > 0
    requires SteadyPage(page) && PlainCount(count) && IsVersion(again)
    ensures var sealed := SealPage(page, version, count).value.page;
            SealPage(sealed, again, recount) == Ok(Sealed(sealed, 0))
  {
    var pre, h, sec, post := SealedParse(page, version, count, "");
    NoRef();
    ParseIsFinish(page, "");
    SealedUnread(pre, h, sec, post, version, count);
  }

  lemma NoRef()
    ensures Semver("") == None
  {
  }
}
