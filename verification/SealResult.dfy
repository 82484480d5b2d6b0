/** The main results on sealing, for whole pages. */
module SealResult {
  import opened Text
  import opened Notes
  import opened Seal
  import opened ScanLaws
  import opened SealSection
  import opened Marking
  import opened SealOpening
  import opened SealTheorem

  /** What the sealed page says beside the page before: the same names, no note
      pending, and the version listed between the sections around it. */
  predicate Kept(doc: Doc, after: Doc, before: seq<string>, version: string, later: seq<string>) {
    SameCovers(doc.covers, after.covers) && after.pending == 0 &&
    doc.sealed == before + later && after.sealed == before + [version] + later
  }

  lemma FinishClosed(x: Scan)
    ensures Finish(x).Ok? <==> Closed(x).Ok? && Closed(x).value.unreleased == 1
    ensures Finish(x).Ok? ==>
              var t := Closed(x).value;
              Finish(x).value == Doc(t.covers, t.sealed, t.pending) &&
              x.Ok? && x.value.sealed == t.sealed && x.value.pending == t.pending && x.value.unreleased == t.unreleased
  {
  }

  lemma {:induction false} MarkedParts(a: seq<Line>, b: seq<Line>)
    requires Marked(a + b)
    ensures Marked(a) && Marked(b)
  {
    forall z | z in a ensures WellLooked(z.look) {
      assert z in a + b;
    }
    forall z | z in b ensures WellLooked(z.look) {
      assert z in a + b;
    }
  }

  lemma MarkedJoin(a: seq<Line>, b: seq<Line>)
    requires Marked(a) && Marked(b)
    ensures Marked(a + b)
  {
  }

  lemma NamesNone(zs: seq<Line>, part: seq<Line>, version: string)
    requires VersionAt(zs, version) == |zs|
    requires forall z | z in part :: z in zs
    ensures Unnamed(part, version)
  {
    forall z | z in part ensures !NamesVersion(z.look, version) {
      var j :| 0 <= j < |zs| && zs[j] == z;
      assert !NamesVersion(zs[j].look, version);
    }
  }

  /** A page in pieces: the lines before its Unreleased heading h, the section
      under h, and the lines from the next heading on. */
  ghost predicate InPieces(pre: seq<Line>, h: Line, sec: seq<Line>, post: seq<Line>) {
    Marked(pre) && Marked([h]) && Marked(sec) && Marked(post) &&
    IsUnreleased(h.look) && NoHeading(sec) && (post != [] ==> post[0].look.IsTop())
  }

  lemma PageInPieces(zs: seq<Line>, version: string)
    requires Marked(zs) && UnreleasedAt(zs) < |zs| && VersionAt(zs, version) == |zs|
    ensures InPieces(Before(zs), zs[UnreleasedAt(zs)], Section(zs), After(zs))
    ensures Unnamed(Before(zs), version)
    ensures Unnamed(After(zs), version)
  {
    Pieces(zs);
    var pre, h, sec, post := Before(zs), zs[UnreleasedAt(zs)], Section(zs), After(zs);
    MarkedParts(pre, [h] + (sec + post));
    MarkedParts([h], sec + post);
    MarkedParts(sec, post);
    PartsIn(pre, [h] + (sec + post));
    PartsIn([h], sec + post);
    PartsIn(sec, post);
    NamesNone(zs, pre, version);
    NamesNone(zs, post, version);
  }

  lemma PartsIn<T>(a: seq<T>, b: seq<T>)
    ensures forall z | z in a :: z in a + b
    ensures forall z | z in b :: z in a + b
  {
  }

  /** The state the section starts in, in the page and in the sealed page. */
  lemma StartsBeside(mk: Marker, ref: Option<Version>, pre: seq<Line>, h: Line, sec: seq<Line>, post: seq<Line>, version: string, a: State)
    requires InPieces(pre, h, sec, post) && SeesWell(mk) && !mk.look("", "").visible
    requires Unnamed(pre, version)
    requires Unnamed(post, version)
    requires ReadsVersion(ref, HeadingVersion(version))
    requires Close(a).Ok? && a.sealed == AllGained(ref, pre)
    ensures var b := Step(ref, |pre| + 1, a, h.look);
            b.Ok? && b.value.sealed == a.sealed && b.value.unreleased == a.unreleased + 1 &&
            Beside(ref, b.value, AfterOpening(ref, a, version), sec, Gap(mk, post), post)
    ensures version !in a.sealed
  {
    NotGained(ref, pre, version);
    NotGained(ref, post, version);
    assert h in [h];
    UnreleasedStep(ref, |pre| + 1, a, h.look);
    var b, d := Step(ref, |pre| + 1, a, h.look).value, AfterOpening(ref, a, version);
    assert Shape(b) == Shape(d);
    assert d.sealed == b.sealed + [version];
  }

  /** A page put together by a seal. */
  function Pasted(mk: Marker, pre: seq<Line>, opening: seq<string>, moved: seq<Line>, post: seq<Line>): seq<Line> {
    pre + (MarkWith(mk, "", opening) + (moved + (Gap(mk, post) + post)))
  }

  /** The sealed lines are read as the section of the version, up to the end. */
  lemma SealedFold(mk: Marker, ref: Option<Version>, pre: seq<Line>, moved: seq<Line>, post: seq<Line>, version: string, count: string, a: State)
    returns (m: nat)
    requires Faithful(mk, version, count)
    requires Fold(ref, 0, START, pre) == Ok(a) && Close(a).Ok?
    requires ReadsVersion(ref, HeadingVersion(version)) ==> version !in a.sealed
    ensures Fold(ref, 0, START, Pasted(mk, pre, Opening(version, count), moved, post)) ==
            Fold(ref, m, AfterOpening(ref, a, version), moved + (Gap(mk, post) + post))
  {
    var om := MarkWith(mk, "", Opening(version, count));
    var tail := moved + (Gap(mk, post) + post);
    FoldAppend(ref, 0, START, pre, om + tail);
    FoldAppend(ref, |pre|, a, om, tail);
    OpeningRun(mk, ref, |pre|, a, version, count);
    m := |pre| + |om|;
  }

  lemma GapMarked(mk: Marker, post: seq<Line>)
    requires SeesWell(mk) && !mk.look("", "").visible
    ensures Marked(Gap(mk, post)) && NoHeading(Gap(mk, post))
  {
    assert WellLooked(mk.look("", ""));
  }

  /** What the sealed tail adds to the lists the shape leaves out. */
  lemma TailGains(ref: Option<Version>, m: nat, d: State, moved: seq<Line>, gap: seq<Line>, post: seq<Line>)
    requires Marked(moved) && Marked(gap) && Marked(post) && NoHeading(moved) && NoHeading(gap)
    requires HasNoUnreleased(post)
    requires Fold(ref, m, d, moved + (gap + post)).Ok?
    requires d.section != UNRELEASED
    ensures var f := Fold(ref, m, d, moved + (gap + post)).value;
            f.sealed == d.sealed + AllGained(ref, post) && f.pending == d.pending
  {
    MarkedJoin(gap, post);
    MarkedJoin(moved, gap + post);
    NoneGained(ref, moved);
    NoneGained(ref, gap);
    AllGainedAppend(ref, gap, post);
    AllGainedAppend(ref, moved, gap + post);
    NoneUnreleased(moved);
    NoneUnreleased(gap);
    FoldGains(ref, m, d, moved + (gap + post));
  }

  lemma GainOfPieces(ref: Option<Version>, pre: seq<Line>, h: Line, sec: seq<Line>, post: seq<Line>)
    requires IsUnreleased(h.look) && NoHeading(sec)
    ensures AllGained(ref, pre + ([h] + (sec + post))) == AllGained(ref, pre) + AllGained(ref, post)
  {
    AllGainedAppend(ref, pre, [h] + (sec + post));
    AllGainedAppend(ref, sec, post);
    NoneGained(ref, sec);
    assert ([h] + (sec + post))[0] == h && ([h] + (sec + post))[1..] == sec + post;
  }

  lemma PiecesGain(ref: Option<Version>, pre: seq<Line>, h: Line, sec: seq<Line>, post: seq<Line>)
    requires InPieces(pre, h, sec, post)
    requires Fold(ref, 0, START, pre + ([h] + (sec + post))).Ok?
    ensures Fold(ref, 0, START, pre + ([h] + (sec + post))).value.sealed == AllGained(ref, pre) + AllGained(ref, post)
  {
    MarkedJoin(sec, post);
    MarkedJoin([h], sec + post);
    MarkedJoin(pre, [h] + (sec + post));
    GainOfPieces(ref, pre, h, sec, post);
    StartGains(ref, pre + ([h] + (sec + post)));
  }

  lemma StartGains(ref: Option<Version>, zs: seq<Line>)
    requires Marked(zs) && Fold(ref, 0, START, zs).Ok?
    ensures Fold(ref, 0, START, zs).value.sealed == AllGained(ref, zs)
  {
    FoldGains(ref, 0, START, zs);
  }

  lemma KeptGlue(x: Scan, y: Scan, before: seq<string>, version: string, later: seq<string>)
    requires Finish(x).Ok? && Finish(y).Ok? && x.value.sealed == before + later
    requires SameCovers(Finish(x).value.covers, Finish(y).value.covers) && Finish(y).value.pending == 0
    requires Finish(y).value.sealed == before + [version] + later
    ensures Kept(Finish(x).value, Finish(y).value, before, version, later)
  {
    FinishClosed(x);
  }

  /** The theorem on lines: the sealed page can be read, and says the same,
      exactly when no note is guided by the placeholder alone. */
  lemma SealedLinesKeep(mk: Marker, ref: Option<Version>, pre: seq<Line>, h: Line, sec: seq<Line>, post: seq<Line>,
                        version: string, count: string)
    requires InPieces(pre, h, sec, post) && Faithful(mk, version, count)
    requires Unnamed(pre, version)
    requires Unnamed(post, version)
    requires ReadsVersion(ref, HeadingVersion(version)) && version != UNRELEASED
    requires Finish(Fold(ref, 0, START, pre + ([h] + (sec + post)))).Ok?
    ensures var after := Finish(Fold(ref, 0, START, Pasted(mk, pre, Opening(version, count), Moved(sec), post)));
            (WellGuided(FRESH, sec) <==> after.Ok?) &&
            (after.Ok? ==> Kept(Finish(Fold(ref, 0, START, pre + ([h] + (sec + post)))).value, after.value,
                                AllGained(ref, pre), version, AllGained(ref, post)))
  {
    MarkedJoin(sec, post);
    PrefixRun(ref, pre, h, sec + post);
    var a := Fold(ref, 0, START, pre).value;
    StartsBeside(mk, ref, pre, h, sec, post, version, a);
    var m := SealedFold(mk, ref, pre, Moved(sec), post, version, count, a);
    PiecesGain(ref, pre, h, sec, post);
    SealedKeeps(mk, ref, pre, h, sec, post, version, a, m,
                Fold(ref, 0, START, pre + ([h] + (sec + post))),
                Fold(ref, 0, START, Pasted(mk, pre, Opening(version, count), Moved(sec), post)));
  }

  /** The same with the runs over both pages, x and y, already followed up to
      the section: a is the state before the Unreleased heading. */
  lemma SealedKeeps(mk: Marker, ref: Option<Version>, pre: seq<Line>, h: Line, sec: seq<Line>, post: seq<Line>,
                    version: string, a: State, m: nat, x: Scan, y: Scan)
    requires InPieces(pre, h, sec, post) && SeesWell(mk) && !mk.look("", "").visible
    requires a.sealed == AllGained(ref, pre) && a.pending == 0
    requires ReadsVersion(ref, HeadingVersion(version)) && version != UNRELEASED
    requires Step(ref, |pre| + 1, a, h.look).Ok?
    requires Beside(ref, Step(ref, |pre| + 1, a, h.look).value, AfterOpening(ref, a, version), sec, Gap(mk, post), post)
    requires x == Fold(ref, |pre| + 1, Step(ref, |pre| + 1, a, h.look).value, sec + post)
    requires y == Fold(ref, m, AfterOpening(ref, a, version), Moved(sec) + (Gap(mk, post) + post))
    requires HasNoUnreleased(sec + post)
    requires Finish(x).Ok? && x.value.sealed == AllGained(ref, pre) + AllGained(ref, post)
    ensures WellGuided(FRESH, sec) <==> Finish(y).Ok?
    ensures Finish(y).Ok? ==>
              Kept(Finish(x).value, Finish(y).value, AllGained(ref, pre), version, AllGained(ref, post))
  {
    SealedTail(mk, ref, pre, h, sec, post, version, Step(ref, |pre| + 1, a, h.look).value, |pre| + 1,
               AfterOpening(ref, a, version), m);
    if Finish(y).Ok? {
      KeptGlue(x, y, AllGained(ref, pre), version, AllGained(ref, post));
    }
  }

  lemma SealedTail(mk: Marker, ref: Option<Version>, pre: seq<Line>, h: Line, sec: seq<Line>, post: seq<Line>,
                   version: string, b: State, n: nat, d: State, m: nat)
    requires InPieces(pre, h, sec, post) && SeesWell(mk) && !mk.look("", "").visible
    requires Beside(ref, b, d, sec, Gap(mk, post), post) && d.section != UNRELEASED && d.pending == 0
    requires d.sealed == AllGained(ref, pre) + [version]
    requires Finish(Fold(ref, n, b, sec + post)).Ok?
    requires HasNoUnreleased(sec + post)
    ensures var after := Finish(Fold(ref, m, d, Moved(sec) + (Gap(mk, post) + post)));
            (WellGuided(FRESH, sec) <==> after.Ok?) &&
            (after.Ok? ==> SameCovers(Finish(Fold(ref, n, b, sec + post)).value.covers, after.value.covers) &&
                           after.value.pending == 0 &&
                           after.value.sealed == AllGained(ref, pre) + [version] + AllGained(ref, post))
  {
    var x, y := Fold(ref, n, b, sec + post), Fold(ref, m, d, Moved(sec) + (Gap(mk, post) + post));
    FinishClosed(x);
    FinishClosed(y);
    if WellGuided(FRESH, sec) {
      GuidedRunsAgree(ref, n, b, m, d, sec, Gap(mk, post), post);
      SameNoLines(Closed(x).value.covers, Closed(y).value.covers);
      MovedMarked(sec);
      GapMarked(mk, post);
      TailGains(ref, m, d, Moved(sec), Gap(mk, post), post);
    } else {
      UnguidedRunFails(ref, n, b, m, d, sec, Gap(mk, post), post);
    }
  }
}
