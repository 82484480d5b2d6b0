/** Pages that a seal breaks: a heading hidden by a carriage return comes out
    when the page is written, and a note guided by the placeholder alone loses
    its guidance. */
module SealFails {
  import opened Text
  import opened Notes
  import opened Api
  import opened Seal
  import opened ScanLaws
  import opened SealSection
  import opened Marking
  import opened Looks
  import opened Written
  import opened Returns
  import opened SealOpening
  import opened OpeningText
  import opened SealTheorem
  import opened SealResult
  import opened Sealing
  import opened SealingTheorems

  // A second Unreleased heading

  lemma UnreleasedAdds(ref: Option<Version>, n: nat, s: State, zs: seq<Line>, i: nat)
    requires Marked(zs) && Fold(ref, n, s, zs).Ok? && i < |zs| && IsUnreleased(zs[i].look)
    ensures Fold(ref, n, s, zs).value.unreleased > s.unreleased
  {
    FoldGains(ref, n, s, zs);
    assert zs[i] in zs;
  }

  /** Two Unreleased headings are one too many. */
  lemma TwoUnreleased(ref: Option<Version>, zs: seq<Line>, i: nat, j: nat)
    requires Marked(zs) && i < j < |zs| && IsUnreleased(zs[i].look) && IsUnreleased(zs[j].look)
    ensures Finish(Fold(ref, 0, START, zs)).Err?
  {
    var a, b := zs[..j], zs[j..];
    assert zs == a + b;
    MarkedParts(a, b);
    FoldAppend(ref, 0, START, a, b);
    if Fold(ref, 0, START, zs).Ok? {
      UnreleasedAdds(ref, 0, START, a, i);
      UnreleasedAdds(ref, |a|, Fold(ref, 0, START, a).value, b, 0);
    }
  }

  /** A line that is no Unreleased heading, but is one without its final return. */
  predicate HidesHeading(z: Line) {
    z.look.kind.Plain? && !WhatOf(z.text).UnreleasedTop? && WhatOf(Chomp(z.text)).UnreleasedTop?
  }

  lemma {:induction false} TailWithReturn(text: string)
    requires text != "" && text[|text| - 1] == '\r'
    ensures TrimTail(text) == text
  {
  }

  /** A heading of the rank whose name starts with a U names no version. */
  lemma NamedTop(text: string)
    requires TrimTail(text) == text && |text| > 3 && HasPrefix(text, "## ") && text[3] == 'U'
    ensures WhatOf(text).OtherTop? || WhatOf(text).UnreleasedTop?
  {
    assert text[3..][0] == 'U';
  }

  lemma HeadingOfHidden(text: string)
    requires WhatOf(text).UnreleasedTop?
    ensures TrimTail(text) == UNRELEASED_HEADING
  {
  }

  lemma PrefixOfHidden(init: string, text: string)
    requires init <= text && UNRELEASED_HEADING <= init
    ensures |text| > 3 && HasPrefix(text, "## ") && text[3] == 'U'
  {
    assert text[3] == UNRELEASED_HEADING[3] == 'U' && |text| >= |UNRELEASED_HEADING| > 3;
    assert "## " <= UNRELEASED_HEADING;
  }

  /** Such a line is some other heading of its rank. */
  lemma HiddenIsTop(z: Line)
    requires HidesHeading(z)
    ensures WhatOf(z.text).OtherTop? && z.text != ""
  {
    var text := z.text;
    assert Chomp(text) != text;
    TailWithReturn(text);
    var init := text[..|text| - 1];
    TrimTailIsPrefix(init);
    HeadingOfHidden(init);
    PrefixOfHidden(init, text);
    NamedTop(text);
  }

  lemma KeptReadAgain(kept: seq<string>, tail: seq<string>, i: nat)
    requires i < |kept|
    ensures |Mark("", Chomped(kept) + [""])| == |kept| + 1 && |Mark("", kept + tail)| == |kept| + |tail|
    ensures Mark("", Chomped(kept) + [""])[i].look == Mark("", kept + tail)[i].look.(what := WhatOf(Chomp(kept[i])))
  {
    MarkAppend("", kept, tail);
    MarkAppend("", Chomped(kept), [""]);
    ChompedLooks("", kept, i);
  }

  lemma FullLineIsKept(lines: seq<string>, i: nat)
    requires i < |lines| && lines[i] != ""
    ensures i < |DropEmptyTail(lines)| <= |lines| && DropEmptyTail(lines) + lines[|DropEmptyTail(lines)|..] == lines
  {
    DropEmptyTailPrefix(lines);
  }

  /** The lines a written page keeps are looked at again without their returns. */
  lemma ReadAgain(lines: seq<string>, i: nat, read: seq<string>)
    requires OneLined(lines) && i < |lines| && lines[i] != "" && read == SplitPage(Write(lines))
    ensures i < |Mark("", read)|
    ensures Mark("", read)[i].look == Mark("", lines)[i].look.(what := WhatOf(Chomp(lines[i])))
  {
    DropEmptyTailKeeps(lines, i);
    WrittenSplits(lines);
    FullLineIsKept(lines, i);
    KeptReadAgain(DropEmptyTail(lines), lines[|DropEmptyTail(lines)|..], i);
  }

  lemma {:induction false} LinesHaveNoBreaks(zs: seq<Line>)
    requires forall z | z in zs :: '\n' !in z.text
    ensures OneLined(Texts(zs))
  {
    forall i | 0 <= i < |zs| ensures '\n' !in Texts(zs)[i] {
      assert zs[i] in zs;
    }
  }

  lemma PageHasNoBreaks(page: string)
    ensures forall z | z in PageLines(page) :: '\n' !in z.text
  {
    var lines := SplitPage(page);
    forall z | z in PageLines(page) ensures '\n' !in z.text {
      var i :| 0 <= i < |lines| && PageLines(page)[i] == z;
      assert z.text == lines[i];
    }
  }

  lemma SealedHasNoBreaks(pre: seq<Line>, sec: seq<Line>, post: seq<Line>, version: string, count: string, lines: seq<string>)
    requires forall z | z in pre + (sec + post) :: '\n' !in z.text
    requires IsVersion(version) && PlainCount(count)
    requires lines == Texts(pre) + Opening(version, count) + Texts(Moved(sec)) + (if post != [] then [""] else []) + Texts(post)
    ensures OneLined(lines)
  {
    MovedSubset(sec);
    WholeOpening(version, count);
    assert forall z | z in pre :: z in pre + (sec + post);
    assert forall z | z in sec :: z in pre + (sec + post);
    assert forall z | z in post :: z in pre + (sec + post);
    LinesHaveNoBreaks(pre);
    LinesHaveNoBreaks(Moved(sec));
    LinesHaveNoBreaks(post);
    var gap := if post != [] then [""] else [];
    var opening := Opening(version, count);
    assert OneLined(gap) && OneLined(opening);
    OneLinedJoin(Texts(pre), opening);
    OneLinedJoin(Texts(pre) + opening, Texts(Moved(sec)));
    OneLinedJoin(Texts(pre) + opening + Texts(Moved(sec)), gap);
    OneLinedJoin(Texts(pre) + opening + Texts(Moved(sec)) + gap, Texts(post));
  }

  lemma OneLinedJoin(a: seq<string>, b: seq<string>)
    requires OneLined(a) && OneLined(b)
    ensures OneLined(a + b)
  {
  }

  lemma PlaceIn<T>(a: seq<T>, b: seq<T>, c: seq<T>, d: seq<T>, e: seq<T>, x: T) returns (i: nat)
    requires (x in a || x in e) && b != []
    ensures i < |a + (b + (c + (d + e)))| && (a + (b + (c + (d + e))))[i] == x && i != |a|
  {
    if x in a {
      i :| 0 <= i < |a| && a[i] == x;
    } else {
      var j :| 0 <= j < |e| && e[j] == x;
      i := |a| + (|b| + (|c| + (|d| + j)));
    }
  }

  /** Where a line before or after the section stands once the page is sealed. */
  lemma PlaceAfter(pre: seq<Line>, moved: seq<Line>, post: seq<Line>, opening: seq<string>, z: Line, zs: seq<Line>) returns (i: nat)
    requires z in pre || z in post
    requires zs == Pasted(PAGE, pre, opening, moved, post) && opening != []
    ensures i < |zs| && zs[i] == z && i != |pre|
  {
    i := PlaceIn(pre, MarkWith(PAGE, "", opening), moved, Gap(PAGE, post), post, z);
  }

  /** Sealing a page in which a carriage return hides an Unreleased heading gives
      a page with two of them, which no check can read. */
  lemma HiddenHeadingLoses(page: string, version: string, count: string, ref: string, z: Line)
    requires SealPage(page, version, count).Ok? && SealPage(page, version, count).value.moved > 0
    requires PlainCount(count) && z in PageLines(page) && HidesHeading(z)
    ensures Parse(SealPage(page, version, count).value.page, ref).Err?
  {
    var pre, h, sec, post := PageParts(page, version, count);
    PageIsFaithful(version, count);
    SealedFence(page, version, count);
    PageHasNoBreaks(page);
    HiddenIsTop(z);
    NotInSection(page, pre, h, sec, post, z);
    var lines := SealedLines(PageLines(page), version, count);
    SealedHasNoBreaks(pre, sec, post, version, count, lines);
    PageMarks("", lines);
    HiddenComesOut(pre, sec, post, version, count, lines, z, ref);
  }

  lemma NotInSection(page: string, pre: seq<Line>, h: Line, sec: seq<Line>, post: seq<Line>, z: Line)
    requires InPieces(pre, h, sec, post) && PageLines(page) == pre + ([h] + (sec + post))
    requires z in PageLines(page) && HidesHeading(z) && WhatOf(z.text).OtherTop?
    requires forall x | x in PageLines(page) :: '\n' !in x.text
    ensures z in pre || z in post
    ensures forall x | x in pre + (sec + post) :: '\n' !in x.text
  {
    var lines := SplitPage(page);
    var i :| 0 <= i < |lines| && PageLines(page)[i] == z;
    PageLook(lines, i);
    assert z.look.what.OtherTop?;
    assert forall x | x in pre + (sec + post) :: x in PageLines(page);
  }

  lemma {:induction false} LookHasWhat(f: string, lines: seq<string>, i: nat)
    requires i < |lines|
    ensures Mark(f, lines)[i].look.what == WhatOf(lines[i])
    decreases |lines|
  {
    if i > 0 {
      LookHasWhat(NextFence(f, lines[0]), lines[1..], i - 1);
    }
  }

  lemma PageLook(lines: seq<string>, i: nat)
    requires i < |lines|
    ensures Mark("", lines)[i].look.what == WhatOf(Mark("", lines)[i].text)
  {
    LookHasWhat("", lines, i);
  }

  /** A plain line that is the heading without its final return is read as one. */
  lemma HeadingReadAgain(lines: seq<string>, i: nat)
    requires OneLined(lines) && i < |lines| && lines[i] != ""
    requires Mark("", lines)[i].look.kind.Plain? && WhatOf(Chomp(lines[i])).UnreleasedTop?
    ensures i < |Mark("", SplitPage(Write(lines)))| && IsUnreleased(Mark("", SplitPage(Write(lines)))[i].look)
  {
    ReadAgain(lines, i, SplitPage(Write(lines)));
  }

  lemma TwoHeadingsRead(lines: seq<string>, i: nat, j: nat, ref: string)
    requires OneLined(lines) && i < j < |lines| && lines[i] != "" && lines[j] != ""
    requires Mark("", lines)[i].look.kind.Plain? && WhatOf(Chomp(lines[i])).UnreleasedTop?
    requires Mark("", lines)[j].look.kind.Plain? && WhatOf(Chomp(lines[j])).UnreleasedTop?
    ensures Parse(Write(lines), ref).Err?
  {
    HeadingReadAgain(lines, i);
    HeadingReadAgain(lines, j);
    ReadTwice(Write(lines), ref, i, j);
  }

  lemma ReadTwice(page: string, ref: string, i: nat, j: nat)
    requires i < j < |PageLines(page)| && IsUnreleased(PageLines(page)[i].look) && IsUnreleased(PageLines(page)[j].look)
    ensures Parse(page, ref).Err?
  {
    MarkIsWell("", SplitPage(page));
    TwoUnreleased(Semver(ref), PageLines(page), i, j);
    ParseIsFinish(page, ref);
  }

  lemma ChompedHeading()
    ensures Chomp(UNRELEASED_HEADING) == UNRELEASED_HEADING && WhatOf(UNRELEASED_HEADING).UnreleasedTop?
    ensures LookAt("", UNRELEASED_HEADING).kind.Plain?
  {
    UnreleasedLook();
  }

  lemma HiddenComesOut(pre: seq<Line>, sec: seq<Line>, post: seq<Line>, version: string, count: string, lines: seq<string>, z: Line, ref: string)
    requires OneLined(lines) && Mark("", lines) == Pasted(PAGE, pre, Opening(version, count), Moved(sec), post)
    requires (z in pre || z in post) && HidesHeading(z) && z.text != ""
    ensures Parse(Write(lines), ref).Err?
  {
    var zs, opening := Mark("", lines), Opening(version, count);
    var i := PlaceAfter(pre, Moved(sec), post, opening, z, zs);
    OpeningStarts(PAGE, pre, opening, sec, post, zs);
    ChompedHeading();
    assert zs[i].text == lines[i] && zs[|pre|].text == lines[|pre|];
    if i < |pre| {
      TwoHeadingsRead(lines, i, |pre|, ref);
    } else {
      TwoHeadingsRead(lines, |pre|, i, ref);
    }
  }

  lemma OpeningStarts(mk: Marker, pre: seq<Line>, opening: seq<string>, sec: seq<Line>, post: seq<Line>, zs: seq<Line>)
    requires opening != [] && zs == Pasted(mk, pre, opening, Moved(sec), post)
    ensures |pre| < |zs| && zs[|pre|] == Line(opening[0], mk.look("", opening[0]))
  {
    assert MarkWith(mk, "", opening)[0] == Line(opening[0], mk.look("", opening[0]));
  }

  // Pages that show it

  lemma NoteLook()
    ensures KindOf("", "### A").Plain? && WhatOf("### A").Sub3?
  {
    var line := "### A";
    assert line[0] == '#' && line[4] == 'A';
    OpensNoFence(line);
    TailStays(line);
    assert UNSTABLE_HEADING[4] == 'U' && UNRELEASED_HEADING[2] == ' ';
    assert line[2] == '#' && |line| == 5;
  }

  lemma ReturnedLook()
    ensures KindOf("", UNRELEASED_HEADING + "\r").Plain? && HidesHeading(Line(UNRELEASED_HEADING + "\r", LookAt("", UNRELEASED_HEADING + "\r")))
    ensures WhatOf(UNRELEASED_HEADING + "\r").OtherTop?
  {
    var line := UNRELEASED_HEADING + "\r";
    UnreleasedLook();
    assert Chomp(line) == UNRELEASED_HEADING;
    LookOfChomp("", line);
    TailWithReturn(line);
    assert |line| == |UNRELEASED_HEADING| + 1;
    HiddenIsTop(Line(line, LookAt("", line)));
  }

  lemma PageReads(lines: seq<string>)
    requires OneLined(lines)
    ensures SplitPage(Terminated(lines)) == Chomped(lines) + [""]
  {
    DropInLines(lines);
    TerminatedSplits(Chomped(lines), "");
    assert Terminated(Chomped(lines)) + "" == Terminated(Chomped(lines));
    assert Split("", '\n') == [""];
  }

  /** One line more, read. */
  lemma FoldOne(ref: Option<Version>, n: nat, s: State, zs: seq<Line>, t: State)
    requires zs != [] && Step(ref, n + 1, s, zs[0].look) == Ok(t)
    ensures Fold(ref, n, s, zs) == Fold(ref, n + 1, t, zs[1..])
  {
  }

  lemma PlainPage(lines: seq<string>)
    requires forall i | 0 <= i < |lines| :: KindOf("", lines[i]).Plain?
    ensures |Mark("", lines)| == |lines| && FenceAfter("", lines) == ""
    ensures forall i | 0 <= i < |lines| :: Mark("", lines)[i] == Line(lines[i], LookAt("", lines[i]))
  {
    PageIsTame();
    PlainMarks(PAGE, lines);
    PageMarks("", lines);
  }

  const RETURN_PAGE: string := Terminated([UNRELEASED_HEADING + "\r\r", UNRELEASED_HEADING, "### A"])

  lemma ReturnPageLines()
    ensures SplitPage(RETURN_PAGE) == [UNRELEASED_HEADING + "\r", UNRELEASED_HEADING, "### A", ""]
  {
    assert '\n' !in UNRELEASED_HEADING && '\n' !in "### A";
    assert Chomp(UNRELEASED_HEADING + "\r\r") == UNRELEASED_HEADING + "\r";
    assert Chomp(UNRELEASED_HEADING) == UNRELEASED_HEADING && Chomp("### A") == "### A";
    ThreeLines(RETURN_PAGE, UNRELEASED_HEADING + "\r\r", UNRELEASED_HEADING, "### A");
  }

  lemma ThreeLines(page: string, a: string, b: string, c: string)
    requires page == Terminated([a, b, c]) && '\n' !in a && '\n' !in b && '\n' !in c
    ensures SplitPage(page) == [Chomp(a), Chomp(b), Chomp(c), ""]
  {
    PageReads([a, b, c]);
    assert Chomped([a, b, c]) == [Chomp(a), Chomp(b), Chomp(c)];
  }

  lemma HeadingsFold(ref: Option<Version>, zs: seq<Line>)
    requires |zs| == 4 && forall i | 0 <= i < 4 :: zs[i].look.kind.Plain?
    requires zs[0].look.what.OtherTop? && zs[1].look.what.UnreleasedTop? && zs[2].look.what.Sub3? && zs[3].look.what.Prose?
    ensures Finish(Fold(ref, 0, START, zs)) == Ok(Doc([], [], 1))
  {
    FoldOne(ref, 0, START, zs, START);
    var t := START.(unreleased := 1, zone := InStable, section := UNRELEASED);
    FoldOne(ref, 1, START, zs[1..], t);
    assert zs[1..][1..] == zs[2..];
    FoldOne(ref, 2, t, zs[2..], NewNote(3, t));
    assert zs[2..][1..] == zs[3..];
    var u := NewNote(3, t);
    FoldOne(ref, 3, u, zs[3..], Step(ref, 4, u, zs[3].look).value);
    assert zs[3..][1..] == [];
  }

  lemma NoVersionNamed(zs: seq<Line>, version: string)
    requires forall i | 0 <= i < |zs| :: !zs[i].look.what.VersionTop?
    ensures VersionAt(zs, version) == |zs|
  {
  }

  // How a marking sees the lines of the two pages

  predicate SeesOther(mk: Marker, text: string) {
    mk.look("", text).kind.Plain? && mk.look("", text).what.OtherTop?
  }

  predicate SeesNote(mk: Marker, text: string) {
    mk.look("", text).kind.Plain? && mk.look("", text).what.Sub3?
  }

  predicate SeesEmpty(mk: Marker) {
    mk.look("", "").kind.Plain? && mk.look("", "").what.Prose? && !mk.look("", "").visible
  }

  predicate SeesPlaceholder(mk: Marker) {
    mk.look("", PLACEHOLDER).kind.Plain? && mk.look("", PLACEHOLDER).what.PlaceholderLine? &&
    mk.look("", PLACEHOLDER).visible && !mk.look("", PLACEHOLDER).hash
  }

  predicate SeesCovers(mk: Marker, text: string, name: Name) {
    mk.look("", text).kind.Plain? && mk.look("", text).what.CoversLine? && mk.look("", text).names == Ok([name])
  }

  lemma PageSeesReturn()
    ensures SeesOther(PAGE, UNRELEASED_HEADING + "\r")
  {
    ReturnedLook();
  }

  lemma PageSeesNote()
    ensures SeesNote(PAGE, "### A")
  {
    NoteLook();
  }

  lemma PageSeesEmpty()
    ensures SeesEmpty(PAGE)
  {
    BlankLook();
    assert !WhatOf("").PlaceholderLine?;
  }

  lemma PageSeesThePlaceholder()
    ensures SeesPlaceholder(PAGE)
  {
    PlaceholderIsQuiet();
    WhatOfPlaceholder();
    LookIsWell("", PLACEHOLDER);
  }

  lemma PageSeesCovers()
    ensures SeesCovers(PAGE, COVERS_LINE, Name("p", "p", "", false))
  {
    CoversLook();
  }

  lemma ReturnPageLooks(mk: Marker, returned: string, note: string, zs: seq<Line>)
    requires Tame(mk) && SeesOther(mk, returned) && SeesUnreleased(mk) && SeesNote(mk, note) && SeesEmpty(mk)
    requires zs == MarkWith(mk, "", [returned, UNRELEASED_HEADING, note, ""])
    ensures |zs| == 4 && zs[0].text == returned && forall i | 0 <= i < 4 :: zs[i].look.kind.Plain?
    ensures zs[0].look.what.OtherTop? && zs[1].look.what.UnreleasedTop? && zs[2].look.what.Sub3? && zs[3].look.what.Prose?
  {
    PlainMarks(mk, [returned, UNRELEASED_HEADING, note, ""]);
  }

  lemma HidesHere(z: Line)
    requires z.text == UNRELEASED_HEADING + "\r" && z.look.kind.Plain?
    ensures HidesHeading(z)
  {
    ReturnedLook();
  }

  lemma PageAs(page: string, lines: seq<string>) returns (zs: seq<Line>)
    requires SplitPage(page) == lines && forall i | 0 <= i < |lines| :: KindOf("", lines[i]).Plain?
    ensures zs == PageLines(page) && zs == MarkWith(PAGE, "", lines) && FenceAfter("", SplitPage(page)) == ""
  {
    PlainPage(lines);
    PageMarks("", lines);
    zs := PageLines(page);
  }

  lemma PlainAs(text: string)
    requires PAGE.look("", text).kind.Plain?
    ensures KindOf("", text).Plain?
  {
  }

  /** The looks of the page with the hidden heading. */
  predicate IsReturnNote(zs: seq<Line>) {
    |zs| == 4 && (forall i | 0 <= i < 4 :: zs[i].look.kind.Plain?) &&
    zs[0].look.what.OtherTop? && zs[1].look.what.UnreleasedTop? &&
    zs[2].look.what.Sub3? && zs[3].look.what.Prose?
  }

  lemma FourPlain(lines: seq<string>)
    requires |lines| == 4 && KindOf("", lines[0]).Plain? && KindOf("", lines[1]).Plain?
    requires KindOf("", lines[2]).Plain? && KindOf("", lines[3]).Plain?
    ensures forall i | 0 <= i < |lines| :: KindOf("", lines[i]).Plain?
  {
  }

  lemma ReturnPlain(lines: seq<string>, returned: string, heading: string, note: string, empty: string)
    requires lines == [returned, heading, note, empty] && heading == UNRELEASED_HEADING && empty == ""
    requires SeesOther(PAGE, returned) && SeesUnreleased(PAGE) && SeesNote(PAGE, note) && SeesEmpty(PAGE)
    ensures forall i | 0 <= i < |lines| :: KindOf("", lines[i]).Plain?
  {
    PlainAs(returned);
    PlainAs(heading);
    PlainAs(note);
    PlainAs(empty);
    FourPlain(lines);
  }

  lemma ReturnLooks(page: string, lines: seq<string>, returned: string, note: string) returns (zs: seq<Line>)
    requires SplitPage(page) == lines && lines == [returned, UNRELEASED_HEADING, note, ""]
    requires forall i | 0 <= i < |lines| :: KindOf("", lines[i]).Plain?
    requires SeesOther(PAGE, returned) && SeesUnreleased(PAGE) && SeesNote(PAGE, note) && SeesEmpty(PAGE)
    ensures zs == PageLines(page) && FenceAfter("", SplitPage(page)) == "" && IsReturnNote(zs) && zs[0].text == returned
  {
    zs := PageAs(page, lines);
    PageIsTame();
    ReturnPageLooks(PAGE, returned, note, zs);
  }

  lemma ReturnParses(page: string, ref: string, zs: seq<Line>)
    requires zs == PageLines(page) && FenceAfter("", SplitPage(page)) == "" && IsReturnNote(zs)
    ensures forall i | 0 <= i < |zs| :: !zs[i].look.what.VersionTop?
    ensures Parse(page, ref) == Ok(Doc([], [], 1))
  {
    HeadingsFold(Semver(ref), zs);
    ReadsAs(page, ref, zs, Doc([], [], 1));
  }

  lemma ReturnRead(page: string, lines: seq<string>, returned: string, note: string, ref: string) returns (zs: seq<Line>)
    requires SplitPage(page) == lines && lines == [returned, UNRELEASED_HEADING, note, ""]
    requires SeesOther(PAGE, returned) && SeesUnreleased(PAGE) && SeesNote(PAGE, note) && SeesEmpty(PAGE)
    ensures zs == PageLines(page) && |zs| == 4 && zs[0].text == returned && zs[0].look.kind.Plain?
    ensures forall i | 0 <= i < |zs| :: !zs[i].look.what.VersionTop?
    ensures Parse(page, ref) == Ok(Doc([], [], 1))
  {
    ReturnPlain(lines, returned, UNRELEASED_HEADING, note, "");
    zs := ReturnLooks(page, lines, returned, note);
    ReturnParses(page, ref, zs);
  }

  lemma ReturnPageReads(ref: string) returns (zs: seq<Line>)
    ensures zs == PageLines(RETURN_PAGE) && zs != [] && HidesHeading(zs[0])
    ensures forall i | 0 <= i < |zs| :: !zs[i].look.what.VersionTop?
    ensures Parse(RETURN_PAGE, ref) == Ok(Doc([], [], 1))
  {
    ReturnPageLines();
    PageSeesReturn();
    PageSeesUnreleased();
    PageSeesNote();
    PageSeesEmpty();
    zs := ReturnRead(RETURN_PAGE, SplitPage(RETURN_PAGE), UNRELEASED_HEADING + "\r", "### A", ref);
    HidesHere(zs[0]);
  }

  lemma HiddenLoses(page: string, version: string, ref: string, zs: seq<Line>, doc: Doc)
    requires IsVersion(version) && Parse(page, "") == Ok(doc) && doc.pending > 0
    requires zs == PageLines(page) && zs != [] && HidesHeading(zs[0])
    requires forall i | 0 <= i < |zs| :: !zs[i].look.what.VersionTop?
    ensures SealPage(page, version, "").Ok? && SealPage(page, version, "").value.moved == doc.pending
    ensures Parse(SealPage(page, version, "").value.page, ref).Err?
  {
    NoVersionNamed(zs, version);
    var r := SealsAs(page, version, "", doc);
    assert zs[0] in zs;
    HiddenHeadingLoses(page, version, "", ref, zs[0]);
  }

  /** The page can be read and sealed, and its sealed form cannot be read: the
      return at the end of its first line hid a heading. */
  lemma ReturnLosesCoverage(version: string, ref: string)
    requires IsVersion(version)
    ensures Parse(RETURN_PAGE, ref) == Ok(Doc([], [], 1))
    ensures SealPage(RETURN_PAGE, version, "").Ok? && SealPage(RETURN_PAGE, version, "").value.moved == 1
    ensures Parse(SealPage(RETURN_PAGE, version, "").value.page, ref).Err?
  {
    var zs := ReturnPageReads(ref);
    zs := ReturnPageReads("");
    HiddenLoses(RETURN_PAGE, version, ref, zs, Doc([], [], 1));
  }

  lemma ReadsAs(page: string, ref: string, zs: seq<Line>, doc: Doc)
    requires zs == PageLines(page) && FenceAfter("", SplitPage(page)) == "" && Finish(Fold(Semver(ref), 0, START, zs)) == Ok(doc)
    ensures Parse(page, ref) == Ok(doc)
  {
  }

  lemma MarksSeal(zs: seq<Line>, version: string, count: string, pending: nat)
    requires UnreleasedAt(zs) < |zs| && VersionAt(zs, version) == |zs|
    ensures SealMarks(zs, version, count, pending).Ok? && SealMarks(zs, version, count, pending).value.moved == pending
  {
  }

  lemma SealsTo(page: string, version: string, count: string, doc: Doc, zs: seq<Line>, r: Result<Sealed, SealError>)
    requires IsVersion(version) && Parse(page, "") == Ok(doc) && doc.pending > 0
    requires zs == PageLines(page) && UnreleasedAt(zs) < |zs| && r == SealMarks(zs, version, count, doc.pending)
    ensures SealPage(page, version, count) == r
  {
  }

  lemma SealsAs(page: string, version: string, count: string, doc: Doc) returns (r: Result<Sealed, SealError>)
    requires IsVersion(version) && Parse(page, "") == Ok(doc) && doc.pending > 0
    requires VersionAt(PageLines(page), version) == |PageLines(page)|
    ensures r == SealPage(page, version, count) && r.Ok? && r.value.moved == doc.pending
  {
    ReadHasUnreleased(page, "");
    var zs := PageLines(page);
    MarksSeal(zs, version, count, doc.pending);
    r := SealMarks(zs, version, count, doc.pending);
    SealsTo(page, version, count, doc, zs, r);
  }

  // A note guided by the placeholder alone

  const COVERS_LINE: string := "Covers: `p`"

  lemma TrimStays(s: string)
    requires s != "" && !IsSpace(s[0]) && !IsSpace(s[|s| - 1])
    ensures TrimSpace(s) == s && TrimTail(s) == s
  {
  }

  lemma CoversTrims()
    ensures TrimSpace(COVERS_LINE) == COVERS_LINE && TrimTail(COVERS_LINE) == COVERS_LINE
    ensures HasPrefix(COVERS_LINE, COVERS_LABEL) && COVERS_LINE[0] == 'C'
  {
    assert COVERS_LINE[0] == 'C' && COVERS_LINE[10] == '`' && |COVERS_LINE| == 11;
    TrimStays(COVERS_LINE);
  }

  lemma CoversWhat(line: string)
    requires line != "" && line[0] == 'C' && TrimTail(line) == line && HasPrefix(TrimSpace(line), COVERS_LABEL)
    ensures WhatOf(line).CoversLine?
  {
    assert UNRELEASED_HEADING[0] == '#' && UNSTABLE_HEADING[0] == '#';
    assert !HasPrefix(line, "## ") && line != "##" && line != UNSTABLE_HEADING;
    assert !HasPrefix(line, "### ") && !HasPrefix(line, "#### ");
  }

  lemma CoversKind(line: string)
    requires line != "" && line[0] == 'C' && TrimSpace(line) == line
    ensures KindOf("", line).Plain? && LookAt("", line).visible && !LookAt("", line).hash
  {
    OpensNoFence(line);
  }

  lemma CoversLook()
    ensures KindOf("", COVERS_LINE).Plain? && WhatOf(COVERS_LINE).CoversLine?
    ensures LookAt("", COVERS_LINE).names == Ok([Name("p", "p", "", false)])
    ensures LookAt("", COVERS_LINE).visible && !LookAt("", COVERS_LINE).hash
  {
    CoversTrims();
    CoversKind(COVERS_LINE);
    CoversWhat(COVERS_LINE);
    NamesOfCovers();
  }

  lemma NamesOfCovers()
    ensures ParseNames(Backquoted(COVERS_LINE)) == Ok([Name("p", "p", "", false)])
  {
    assert COVERS_LINE == "Covers: " + ['`'] + ("p" + ['`'] + "");
    CoversNames(COVERS_LINE);
  }

  lemma OneCharacter(s: string)
    requires |s| == 1 && s[0] == 'p'
    ensures !MalformedDirectory(s) && !HasSuffix(s, "/...") && '.' !in s && '/' !in s && ' ' !in s && '\t' !in s
  {
    assert s[1..] == "" && !Contains("", "//");
  }

  lemma OneCover(s: string)
    requires |s| == 1 && s[0] == 'p'
    ensures ParseCover(s) == Ok(Name(s, s, "", false))
  {
    OneCharacter(s);
    assert LastIndexOf(s, '/') == None && s[0..] == s;
    assert IndexOf(s, '.') == None;
  }

  lemma OneName(s: string, n: Name)
    requires ParseCover(s) == Ok(n)
    ensures ParseNames([s]) == Ok([n])
  {
    assert [s][1..] == [] && [n] + [] == [n];
  }

  lemma NameAlone()
    ensures ParseNames(["p"]) == Ok([Name("p", "p", "", false)])
  {
    OneCover("p");
    OneName("p", Name("p", "p", "", false));
  }

  lemma CoversNames(line: string)
    requires line == "Covers: " + ['`'] + ("p" + ['`'] + "")
    ensures ParseNames(Backquoted(line)) == Ok([Name("p", "p", "", false)])
  {
    FirstIndex("Covers: ", '`', "p" + ['`'] + "");
    FirstIndex("p", '`', "");
    assert Backquoted("") == [];
    var inner := "p" + ['`'] + "";
    assert line[8 + 1..] == inner && inner[..1] == "p" && inner[1 + 1..] == "";
    assert Backquoted(line) == ["p"];
    NameAlone();
  }

  const PLACEHOLDER_PAGE: string := Terminated([UNRELEASED_HEADING, "### A", PLACEHOLDER, COVERS_LINE])

  lemma PlaceholderPageLines()
    ensures SplitPage(PLACEHOLDER_PAGE) == [UNRELEASED_HEADING, "### A", PLACEHOLDER, COVERS_LINE, ""]
  {
    OneLinesThere();
    NoReturnsThere();
    FourLines(PLACEHOLDER_PAGE, UNRELEASED_HEADING, "### A", PLACEHOLDER, COVERS_LINE);
  }

  lemma FourLines(page: string, a: string, b: string, c: string, d: string)
    requires page == Terminated([a, b, c, d]) && '\n' !in a && '\n' !in b && '\n' !in c && '\n' !in d
    ensures SplitPage(page) == [Chomp(a), Chomp(b), Chomp(c), Chomp(d), ""]
  {
    PageReads([a, b, c, d]);
    assert Chomped([a, b, c, d]) == [Chomp(a), Chomp(b), Chomp(c), Chomp(d)];
  }

  lemma OneLinesThere()
    ensures '\n' !in UNRELEASED_HEADING && '\n' !in "### A" && '\n' !in PLACEHOLDER && '\n' !in COVERS_LINE
  {
  }

  lemma NoReturnsThere()
    ensures Chomp(UNRELEASED_HEADING) == UNRELEASED_HEADING && Chomp("### A") == "### A"
    ensures Chomp(PLACEHOLDER) == PLACEHOLDER && Chomp(COVERS_LINE) == COVERS_LINE
  {
  }

  const COVERED: Cover := Cover(4, Name("p", "p", "", false), Stable)

  /** The looks of the placeholder page. */
  predicate IsPlaceholderNote(zs: seq<Line>) {
    |zs| == 5 && (forall i | 0 <= i < 5 :: zs[i].look.kind.Plain?) &&
    zs[0].look.what.UnreleasedTop? && zs[1].look.what.Sub3? &&
    zs[2].look.what.PlaceholderLine? && zs[2].look.visible && !zs[2].look.hash &&
    zs[3].look.what.CoversLine? && zs[3].look.names == Ok([COVERED.name]) &&
    zs[4].look.what.Prose? && !zs[4].look.visible
  }

  lemma PlaceholderStarts(ref: Option<Version>, zs: seq<Line>, s: State)
    requires IsPlaceholderNote(zs) && s == START.(unreleased := 1, zone := InStable, section := UNRELEASED)
    ensures Fold(ref, 0, START, zs) == Fold(ref, 2, NewNote(2, s), zs[2..])
  {
    FoldOne(ref, 0, START, zs, s);
    FoldOne(ref, 1, s, zs[1..], NewNote(2, s));
    assert zs[1..][1..] == zs[2..];
  }

  lemma PlaceholderEnds(ref: Option<Version>, zs: seq<Line>, t: State)
    requires IsPlaceholderNote(zs) && t.zone.InStable? && t.covers == [] && t.para.NoPara?
    requires t == NewNote(2, START.(unreleased := 1, zone := InStable, section := UNRELEASED))
    ensures Finish(Fold(ref, 2, t, zs[2..])) == Ok(Doc([COVERED], [], 1))
  {
    var u := t.(guided := true);
    FoldOne(ref, 2, t, zs[2..], u);
    assert zs[2..][1..] == zs[3..];
    var v := u.(covers := [COVERED], para := Open(4, 1));
    assert Covers([COVERED.name], 4, Stable) == [COVERED] && [] + [COVERED] == [COVERED];
    FoldOne(ref, 3, u, zs[3..], v);
    assert zs[3..][1..] == zs[4..];
    FoldOne(ref, 4, v, zs[4..], Step(ref, 5, v, zs[4].look).value);
    assert zs[4..][1..] == [];
  }

  lemma PlaceholderFold(ref: Option<Version>, zs: seq<Line>)
    requires IsPlaceholderNote(zs)
    ensures Finish(Fold(ref, 0, START, zs)) == Ok(Doc([COVERED], [], 1))
  {
    var s := START.(unreleased := 1, zone := InStable, section := UNRELEASED);
    PlaceholderStarts(ref, zs, s);
    PlaceholderEnds(ref, zs, NewNote(2, s));
  }

  lemma PlaceholderIsBare(zs: seq<Line>)
    requires IsPlaceholderNote(zs)
    ensures UnreleasedAt(zs) == 0 && !WellGuided(FRESH, Section(zs))
  {
    var sec := Section(zs);
    SectionIs(zs, sec);
    var a := Hear(FRESH, sec[0].look);
    var b := Hear(a, sec[1].look);
    assert sec[1..][1..] == sec[2..];
    assert Bare(b, sec[2].look);
    assert !WellGuided(b, sec[2..]);
    assert !WellGuided(a, sec[1..]);
  }

  lemma SectionIs(zs: seq<Line>, sec: seq<Line>)
    requires IsPlaceholderNote(zs) && UnreleasedAt(zs) == 0 && sec == Section(zs)
    ensures sec == zs[1..]
  {
    var rest := zs[1..];
    assert forall i | 0 <= i < |rest| :: rest[i] == zs[i + 1];
    assert TopAt(rest) == |rest|;
  }

  lemma PlaceholderLooks(mk: Marker, note: string, covers: string, zs: seq<Line>)
    requires Tame(mk) && SeesUnreleased(mk) && SeesNote(mk, note) && SeesPlaceholder(mk) && SeesEmpty(mk)
    requires SeesCovers(mk, covers, COVERED.name)
    requires zs == MarkWith(mk, "", [UNRELEASED_HEADING, note, PLACEHOLDER, covers, ""])
    ensures IsPlaceholderNote(zs)
  {
    PlainMarks(mk, [UNRELEASED_HEADING, note, PLACEHOLDER, covers, ""]);
  }

  lemma UnchompedIsSteady(page: string, lines: seq<string>)
    requires SplitPage(page) == lines && forall i | 0 <= i < |lines| :: Chomp(lines[i]) == lines[i]
    ensures SteadyPage(page)
  {
    var zs := PageLines(page);
    forall z | z in zs ensures SteadyLine(z) {
      var i :| 0 <= i < |zs| && zs[i] == z;
      LookHasWhat("", lines, i);
    }
  }

  lemma FivePlain(lines: seq<string>)
    requires |lines| == 5 && KindOf("", lines[0]).Plain? && KindOf("", lines[1]).Plain? && KindOf("", lines[2]).Plain?
    requires KindOf("", lines[3]).Plain? && KindOf("", lines[4]).Plain?
    ensures forall i | 0 <= i < |lines| :: KindOf("", lines[i]).Plain?
  {
  }

  lemma PlaceholderPlain(lines: seq<string>, heading: string, note: string, hint: string, covers: string, empty: string)
    requires lines == [heading, note, hint, covers, empty]
    requires heading == UNRELEASED_HEADING && hint == PLACEHOLDER && empty == ""
    requires SeesUnreleased(PAGE) && SeesNote(PAGE, note) && SeesPlaceholder(PAGE) && SeesEmpty(PAGE)
    requires SeesCovers(PAGE, covers, COVERED.name)
    ensures forall i | 0 <= i < |lines| :: KindOf("", lines[i]).Plain?
  {
    PlainAs(heading);
    PlainAs(note);
    PlainAs(hint);
    PlainAs(covers);
    PlainAs(empty);
    FivePlain(lines);
  }

  lemma PlaceholderSeen(page: string, lines: seq<string>, note: string, covers: string) returns (zs: seq<Line>)
    requires SplitPage(page) == lines && lines == [UNRELEASED_HEADING, note, PLACEHOLDER, covers, ""]
    requires forall i | 0 <= i < |lines| :: KindOf("", lines[i]).Plain?
    requires SeesUnreleased(PAGE) && SeesNote(PAGE, note) && SeesPlaceholder(PAGE) && SeesEmpty(PAGE)
    requires SeesCovers(PAGE, covers, COVERED.name)
    ensures zs == PageLines(page) && FenceAfter("", SplitPage(page)) == "" && IsPlaceholderNote(zs)
  {
    zs := PageAs(page, lines);
    PageIsTame();
    PlaceholderLooks(PAGE, note, covers, zs);
  }

  lemma PlaceholderParses(page: string, ref: string, zs: seq<Line>)
    requires zs == PageLines(page) && FenceAfter("", SplitPage(page)) == "" && IsPlaceholderNote(zs)
    ensures Parse(page, ref) == Ok(Doc([COVERED], [], 1))
  {
    PlaceholderFold(Semver(ref), zs);
    ReadsAs(page, ref, zs, Doc([COVERED], [], 1));
  }

  lemma PlaceholderRead(page: string, lines: seq<string>, note: string, covers: string, ref: string) returns (zs: seq<Line>)
    requires SplitPage(page) == lines && lines == [UNRELEASED_HEADING, note, PLACEHOLDER, covers, ""]
    requires SeesUnreleased(PAGE) && SeesNote(PAGE, note) && SeesPlaceholder(PAGE) && SeesEmpty(PAGE)
    requires SeesCovers(PAGE, covers, COVERED.name)
    requires forall i | 0 <= i < |lines| :: Chomp(lines[i]) == lines[i]
    ensures zs == PageLines(page) && IsPlaceholderNote(zs) && SteadyPage(page)
    ensures Parse(page, ref) == Ok(Doc([COVERED], [], 1))
  {
    PlaceholderPlain(lines, UNRELEASED_HEADING, note, PLACEHOLDER, covers, "");
    zs := PlaceholderSeen(page, lines, note, covers);
    UnchompedIsSteady(page, lines);
    PlaceholderParses(page, ref, zs);
  }

  lemma FiveStay(lines: seq<string>)
    requires |lines| == 5 && Chomp(lines[0]) == lines[0] && Chomp(lines[1]) == lines[1] && Chomp(lines[2]) == lines[2]
    requires Chomp(lines[3]) == lines[3] && Chomp(lines[4]) == lines[4]
    ensures forall i | 0 <= i < |lines| :: Chomp(lines[i]) == lines[i]
  {
  }

  lemma PlaceholderPageStays()
    ensures forall i | 0 <= i < |SplitPage(PLACEHOLDER_PAGE)| :: Chomp(SplitPage(PLACEHOLDER_PAGE)[i]) == SplitPage(PLACEHOLDER_PAGE)[i]
  {
    PlaceholderPageLines();
    NoReturnsThere();
    FiveStay(SplitPage(PLACEHOLDER_PAGE));
  }

  lemma PlaceholderPageReads(ref: string) returns (zs: seq<Line>)
    ensures zs == PageLines(PLACEHOLDER_PAGE) && IsPlaceholderNote(zs) && SteadyPage(PLACEHOLDER_PAGE)
    ensures Parse(PLACEHOLDER_PAGE, ref) == Ok(Doc([COVERED], [], 1))
  {
    PlaceholderPageLines();
    PlaceholderPageStays();
    PageSeesUnreleased();
    PageSeesNote();
    PageSeesThePlaceholder();
    PageSeesCovers();
    PageSeesEmpty();
    zs := PlaceholderRead(PLACEHOLDER_PAGE, SplitPage(PLACEHOLDER_PAGE), "### A", COVERS_LINE, ref);
  }

  lemma BareLoses(page: string, version: string, ref: string, zs: seq<Line>, doc: Doc)
    requires IsVersion(version) && ReadsVersion(Semver(ref), HeadingVersion(version))
    requires Parse(page, "") == Ok(doc) && Parse(page, ref).Ok? && doc.pending > 0
    requires zs == PageLines(page) && IsPlaceholderNote(zs) && SteadyPage(page)
    ensures SealPage(page, version, "").Ok? && SealPage(page, version, "").value.moved == doc.pending
    ensures Parse(SealPage(page, version, "").value.page, ref).Err?
  {
    NoVersionNamed(zs, version);
    var r := SealsAs(page, version, "", doc);
    PlaceholderIsBare(zs);
    SealPreservesCoverage(page, version, "", ref);
  }

  /** The page can be read and sealed, and its sealed form cannot be read: the
      only guidance of its note was the placeholder. */
  lemma PlaceholderLosesGuidance(version: string, ref: string)
    requires IsVersion(version) && ReadsVersion(Semver(ref), HeadingVersion(version))
    ensures Parse(PLACEHOLDER_PAGE, ref) == Ok(Doc([COVERED], [], 1))
    ensures SealPage(PLACEHOLDER_PAGE, version, "").Ok? && SealPage(PLACEHOLDER_PAGE, version, "").value.moved == 1
    ensures Parse(SealPage(PLACEHOLDER_PAGE, version, "").value.page, ref).Err?
  {
    var zs := PlaceholderPageReads(ref);
    zs := PlaceholderPageReads("");
    BareLoses(PLACEHOLDER_PAGE, version, ref, zs, Doc([COVERED], [], 1));
  }
}
