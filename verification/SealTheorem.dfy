/** A seal keeps what the migration notes cover. */
module SealTheorem {
  import opened Text
  import opened Notes
  import opened Seal
  import opened ScanLaws
  import opened SealSection
  import opened Marking
  import opened SealOpening

  /** The same names in the same order, line numbers aside. */
  predicate SameCovers(a: seq<Cover>, b: seq<Cover>) {
    |a| == |b| && forall i | 0 <= i < |a| :: a[i].(line := 0) == b[i].(line := 0)
  }

  lemma SameNoLines(a: seq<Cover>, b: seq<Cover>)
    ensures NoLines(a) == NoLines(b) <==> SameCovers(a, b)
  {
    if NoLines(a) == NoLines(b) {
      forall i | 0 <= i < |a| ensures a[i].(line := 0) == b[i].(line := 0) {
        assert NoLines(a)[i] == NoLines(b)[i];
      }
    }
  }

  // The sealed lines, marked

  lemma {:induction false} TextsAppend(a: seq<Line>, b: seq<Line>)
    ensures Texts(a + b) == Texts(a) + Texts(b)
  {
    assert forall i | 0 <= i < |a + b| :: Texts(a + b)[i] == (Texts(a) + Texts(b))[i];
  }

  function Gap(mk: Marker, post: seq<Line>): seq<Line> {
    if post != [] then [Line("", mk.look("", ""))] else []
  }

  function SealedMarks(mk: Marker, zs: seq<Line>, version: string, count: string): seq<Line>
    requires UnreleasedAt(zs) < |zs|
  {
    Before(zs) + (MarkWith(mk, "", Opening(version, count)) + (Moved(Section(zs)) + (Gap(mk, After(zs)) + After(zs))))
  }

  lemma NoHeadingAt(sec: seq<Line>)
    requires forall j | 0 <= j < |sec| :: !sec[j].look.IsTop()
    ensures NoHeading(sec)
  {
  }

  lemma TopSplit(rest: seq<Line>)
    ensures rest == rest[..TopAt(rest)] + rest[TopAt(rest)..]
    ensures NoHeading(rest[..TopAt(rest)])
    ensures rest[TopAt(rest)..] != [] ==> rest[TopAt(rest)..][0].look.IsTop()
  {
    NoHeadingAt(rest[..TopAt(rest)]);
  }

  lemma Pieces(zs: seq<Line>)
    requires UnreleasedAt(zs) < |zs|
    ensures zs == Before(zs) + ([zs[UnreleasedAt(zs)]] + (Section(zs) + After(zs)))
    ensures IsUnreleased(zs[UnreleasedAt(zs)].look) && NoHeading(Section(zs))
    ensures After(zs) != [] ==> After(zs)[0].look.IsTop()
  {
    var i := UnreleasedAt(zs);
    Rejoin(zs, i);
    TopSplit(zs[i + 1..]);
  }

  lemma Rejoin<T>(s: seq<T>, i: nat)
    requires i < |s|
    ensures s == s[..i] + ([s[i]] + s[i + 1..])
  {
  }

  /** The pieces of a page whose Unreleased heading is h, and what a seal makes
      of them, all start and end outside every fence. */
  lemma PiecesChain(mk: Marker, pre: seq<Line>, h: Line, sec: seq<Line>, post: seq<Line>)
    requires Tame(mk) && Chain(mk, "", pre + ([h] + (sec + post)), "")
    requires IsUnreleased(h.look) && (post != [] ==> post[0].look.IsTop())
    ensures Chain(mk, "", pre, "") && Chain(mk, "", sec, "") && Chain(mk, "", post, "")
  {
    var f := ChainSplit(mk, "", pre, [h] + (sec + post), "");
    var g := ChainSplit(mk, f, [h], sec + post, "");
    assert [h][0] == h && [h][1..] == [];
    assert h.look == mk.look(f, h.text);
    var k := ChainSplit(mk, g, sec, post, "");
    if post != [] {
      assert post[0].look == mk.look(k, post[0].text);
    }
  }

  lemma GapChain(mk: Marker, post: seq<Line>)
    requires Tame(mk) && !mk.look("", "").visible
    ensures Chain(mk, "", Gap(mk, post), "")
  {
    if post != [] {
      assert Gap(mk, post)[1..] == [];
    }
  }

  /** The lines a seal puts together are marked as the pieces were. */
  lemma SealedMarksAreMarks(mk: Marker, zs: seq<Line>, version: string, count: string)
    requires Faithful(mk, version, count) && Chain(mk, "", zs, "") && UnreleasedAt(zs) < |zs|
    requires FenceWith(mk, "", Opening(version, count)) == ""
    ensures MarkWith(mk, "", SealedLines(zs, version, count)) == SealedMarks(mk, zs, version, count)
    ensures FenceWith(mk, "", SealedLines(zs, version, count)) == ""
  {
    Pieces(zs);
    var pre, sec, post := Before(zs), Section(zs), After(zs);
    PiecesChain(mk, pre, zs[UnreleasedAt(zs)], sec, post);
    SealedChain(mk, pre, sec, post, Opening(version, count));
    ChainIsMark(mk, "", SealedMarks(mk, zs, version, count), "");
    SealedTexts(mk, pre, Moved(sec), post, Opening(version, count));
    assert SealedLines(zs, version, count) == Texts(SealedMarks(mk, zs, version, count));
  }

  lemma SealedChain(mk: Marker, pre: seq<Line>, sec: seq<Line>, post: seq<Line>, opening: seq<string>)
    requires Tame(mk) && !mk.look("", "").visible && FenceWith(mk, "", opening) == ""
    requires Chain(mk, "", pre, "") && Chain(mk, "", sec, "") && Chain(mk, "", post, "")
    ensures Chain(mk, "", pre + (MarkWith(mk, "", opening) + (Moved(sec) + (Gap(mk, post) + post))), "")
  {
    MovedChain(mk, sec);
    MarkIsChain(mk, "", opening);
    GapChain(mk, post);
    var om, gap := MarkWith(mk, "", opening), Gap(mk, post);
    ChainAppend(mk, "", gap, "", post, "");
    ChainAppend(mk, "", Moved(sec), "", gap + post, "");
    ChainAppend(mk, "", om, "", Moved(sec) + (gap + post), "");
    ChainAppend(mk, "", pre, "", om + (Moved(sec) + (gap + post)), "");
  }

  lemma SealedTexts(mk: Marker, pre: seq<Line>, moved: seq<Line>, post: seq<Line>, opening: seq<string>)
    ensures Texts(pre + (MarkWith(mk, "", opening) + (moved + (Gap(mk, post) + post)))) ==
            Texts(pre) + opening + Texts(moved) + (if post != [] then [""] else []) + Texts(post)
  {
    var om, gap := MarkWith(mk, "", opening), Gap(mk, post);
    MarkIsChain(mk, "", opening);
    TextsAppend(gap, post);
    TextsAppend(moved, gap + post);
    TextsAppend(om, moved + (gap + post));
    TextsAppend(pre, om + (moved + (gap + post)));
    GapTexts(mk, post);
    Regroup(Texts(pre), opening, Texts(moved), Texts(gap), Texts(post));
  }

  lemma GapTexts(mk: Marker, post: seq<Line>)
    ensures Texts(Gap(mk, post)) == if post != [] then [""] else []
  {
    if post != [] {
      assert Gap(mk, post)[1..] == [];
    }
  }

  lemma Regroup<T>(a: seq<T>, b: seq<T>, c: seq<T>, d: seq<T>, e: seq<T>)
    ensures a + (b + (c + (d + e))) == a + b + c + d + e
  {
  }

  // Reading the rest of the page

  lemma TopAlike(ref: Option<Version>, n: nat, c: State, m: nat, d: State, k: Look)
    requires WellLooked(k) && k.IsTop() && Close(c).Ok? && Close(d).Ok?
    requires NoLines(c.covers) == NoLines(d.covers) && c.unreleased == d.unreleased
    requires forall v | v in Gained(ref, k) :: v in c.sealed <==> v in d.sealed
    ensures Step(ref, n, c, k).Ok? <==> Step(ref, m, d, k).Ok?
    ensures Step(ref, n, c, k).Ok? ==> Shape(Step(ref, n, c, k).value) == Shape(Step(ref, m, d, k).value)
  {
    if k.what.VersionTop? && ReadsVersion(ref, k.what.number) {
      assert k.what.version in Gained(ref, k);
    }
  }

  lemma ShapeCloses(s: State, t: State)
    requires Shape(s) == Shape(t)
    ensures Close(s).Ok? <==> Close(t).Ok?
    ensures NoLines(s.covers) == NoLines(t.covers) && s.unreleased == t.unreleased
  {
    assert NoLines(s.covers) == Shape(s).covers && NoLines(t.covers) == Shape(t).covers;
    assert s.unreleased == Shape(s).unreleased && t.unreleased == Shape(t).unreleased;
    assert s.para.Open? <==> Shape(s).para.Open?;
  }

  /** From the next heading on, two runs with the same names stay alike. */
  lemma RestAlike(ref: Option<Version>, n: nat, c: State, m: nat, d: State, post: seq<Line>)
    requires Marked(post) && (post != [] ==> post[0].look.IsTop()) && Close(c).Ok? && Close(d).Ok?
    requires NoLines(c.covers) == NoLines(d.covers) && c.unreleased == d.unreleased
    requires forall v | v in AllGained(ref, post) :: v in c.sealed <==> v in d.sealed
    ensures Closed(Fold(ref, n, c, post)).Ok? <==> Closed(Fold(ref, m, d, post)).Ok?
    ensures Closed(Fold(ref, n, c, post)).Ok? ==>
              var a, b := Closed(Fold(ref, n, c, post)).value, Closed(Fold(ref, m, d, post)).value;
              NoLines(a.covers) == NoLines(b.covers) && a.unreleased == b.unreleased
  {
    if post != [] {
      assert post[0] in post;
      TopAlike(ref, n + 1, c, m + 1, d, post[0].look);
      if Step(ref, n + 1, c, post[0].look).Ok? {
        RestAfterTop(ref, n, c, m, d, post);
      }
    }
  }

  lemma RestAfterTop(ref: Option<Version>, n: nat, c: State, m: nat, d: State, post: seq<Line>)
    requires Marked(post) && post != []
    requires Step(ref, n + 1, c, post[0].look).Ok? && Step(ref, m + 1, d, post[0].look).Ok?
    requires Shape(Step(ref, n + 1, c, post[0].look).value) == Shape(Step(ref, m + 1, d, post[0].look).value)
    requires forall v | v in AllGained(ref, post) :: v in c.sealed <==> v in d.sealed
    ensures Closed(Fold(ref, n, c, post)).Ok? <==> Closed(Fold(ref, m, d, post)).Ok?
    ensures Closed(Fold(ref, n, c, post)).Ok? ==>
              var a, b := Closed(Fold(ref, n, c, post)).value, Closed(Fold(ref, m, d, post)).value;
              NoLines(a.covers) == NoLines(b.covers) && a.unreleased == b.unreleased
  {
    var k := post[0].look;
    assert post[0] in post;
    var c1, d1 := Step(ref, n + 1, c, k).value, Step(ref, m + 1, d, k).value;
    StepGains(ref, n + 1, c, k);
    StepGains(ref, m + 1, d, k);
    FoldAlike(ref, n + 1, c1, m + 1, d1, post[1..]);
    if Fold(ref, n + 1, c1, post[1..]).Ok? {
      ShapeCloses(Fold(ref, n + 1, c1, post[1..]).value, Fold(ref, m + 1, d1, post[1..]).value);
    }
  }

  lemma GapCloses(ref: Option<Version>, n: nat, d: State, gap: seq<Line>, post: seq<Line>)
    requires |gap| <= 1 && forall i | 0 <= i < |gap| :: WellLooked(gap[i].look) && !gap[i].look.visible
    requires (post != [] <==> gap != []) && Close(d).Ok?
    ensures Closed(Fold(ref, n, d, gap + post)) == Closed(Fold(ref, n + |gap|, Close(d).value, post))
  {
    if gap != [] {
      BlankCloses(ref, n + 1, d, gap[0].look);
      assert (gap + post)[0] == gap[0] && (gap + post)[1..] == post;
    } else {
      assert gap + post == [];
    }
  }

  /** The run over a heading, from the run before it. */
  lemma HeadRun(ref: Option<Version>, pre: seq<Line>, h: Line, rest: seq<Line>)
    requires Fold(ref, 0, START, pre + ([h] + rest)).Ok?
    ensures Fold(ref, 0, START, pre).Ok?
    ensures var a := Fold(ref, 0, START, pre).value;
            Step(ref, |pre| + 1, a, h.look).Ok? &&
            Fold(ref, 0, START, pre + ([h] + rest)) == Fold(ref, |pre| + 1, Step(ref, |pre| + 1, a, h.look).value, rest)
  {
    FoldAppend(ref, 0, START, pre, [h] + rest);
    assert ([h] + rest)[0] == h && ([h] + rest)[1..] == rest;
  }

  /** A page that was read has one Unreleased heading: nothing before it is pending. */
  lemma PrefixRun(ref: Option<Version>, pre: seq<Line>, h: Line, rest: seq<Line>)
    requires Marked(pre) && Marked([h]) && Marked(rest) && IsUnreleased(h.look)
    requires Finish(Fold(ref, 0, START, pre + ([h] + rest))).Ok?
    ensures Fold(ref, 0, START, pre).Ok?
    ensures var a := Fold(ref, 0, START, pre).value;
            Close(a).Ok? && a.unreleased == 0 && a.pending == 0 && a.sealed == AllGained(ref, pre) &&
            Step(ref, |pre| + 1, a, h.look).Ok? &&
            Fold(ref, |pre| + 1, Step(ref, |pre| + 1, a, h.look).value, rest).Ok?
    ensures var a := Fold(ref, 0, START, pre).value;
            Fold(ref, 0, START, pre + ([h] + rest)) == Fold(ref, |pre| + 1, Step(ref, |pre| + 1, a, h.look).value, rest)
    ensures HasNoUnreleased(rest)
  {
    HeadRun(ref, pre, h, rest);
    var a := Fold(ref, 0, START, pre).value;
    var b := Step(ref, |pre| + 1, a, h.look).value;
    assert h in [h];
    FoldGains(ref, 0, START, pre);
    StepGains(ref, |pre| + 1, a, h.look);
    FoldGains(ref, |pre| + 1, b, rest);
    assert START.sealed + AllGained(ref, pre) == AllGained(ref, pre);
  }

  /** The version a seal writes is named by no line, so no later section repeats it. */
  lemma {:induction false} NotGained(ref: Option<Version>, zs: seq<Line>, version: string)
    requires Unnamed(zs, version)
    ensures version !in AllGained(ref, zs)
  {
    if zs != [] {
      assert zs[0] in zs;
      NotGained(ref, zs[1..], version);
    }
  }

  lemma {:induction false} NoneGained(ref: Option<Version>, zs: seq<Line>)
    requires NoHeading(zs)
    ensures AllGained(ref, zs) == []
  {
    if zs != [] {
      assert zs[0] in zs;
      NoneGained(ref, zs[1..]);
    }
  }

  lemma {:induction false} AllGainedAppend(ref: Option<Version>, a: seq<Line>, b: seq<Line>)
    ensures AllGained(ref, a + b) == AllGained(ref, a) + AllGained(ref, b)
  {
    if a == [] {
      assert a + b == b;
    } else {
      assert (a + b)[0] == a[0] && (a + b)[1..] == a[1..] + b;
      AllGainedAppend(ref, a[1..], b);
    }
  }

  // The theorem, on marked lines

  lemma MovedMarked(sec: seq<Line>)
    requires Marked(sec) && NoHeading(sec)
    ensures Marked(Moved(sec)) && NoHeading(Moved(sec))
  {
    DropMarked(Cut(sec));
    SqueezeMarked(DropPlaceholders(Cut(sec)), true);
    BlankTailMarked(Squeeze(DropPlaceholders(Cut(sec)), true));
  }

  lemma {:induction false} BlankTailMarked(zs: seq<Line>)
    requires Marked(zs) && NoHeading(zs)
    ensures Marked(DropBlankTail(zs)) && NoHeading(DropBlankTail(zs))
  {
    if zs != [] && !zs[|zs| - 1].look.visible {
      BlankTailMarked(zs[..|zs| - 1]);
    }
  }

  /** How the run over a section and the rest of the page ends: c is the state
      after the section. */
  lemma SectionThenRest(ref: Option<Version>, n: nat, b: State, sec: seq<Line>, post: seq<Line>)
    requires Marked(sec) && Marked(post) && NoHeading(sec) && (post != [] ==> post[0].look.IsTop())
    requires Closed(Fold(ref, n, b, sec + post)).Ok?
    ensures Fold(ref, n, b, sec) == Fold(None, n, b, sec) && Closed(Fold(None, n, b, sec)).Ok?
    ensures var c := Fold(None, n, b, sec).value;
            c.sealed == b.sealed && c.unreleased == b.unreleased &&
            Fold(ref, n, b, sec + post) == Fold(ref, n + |sec|, c, post)
  {
    FoldAppend(ref, n, b, sec, post);
    FoldAnyRef(ref, n, b, sec);
    var c := Fold(ref, n, b, sec).value;
    if post != [] {
      assert post[0] in post;
    } else {
      assert Fold(ref, n + |sec|, c, post) == Ok(c);
    }
    FoldGains(ref, n, b, sec);
    NoneGained(ref, sec);
    NoneUnreleased(sec);
  }

  lemma NoneUnreleased(zs: seq<Line>)
    requires NoHeading(zs)
    ensures HasNoUnreleased(zs)
  {
    forall z | z in zs ensures !IsUnreleased(z.look) {
      assert !z.look.IsTop();
    }
  }

  predicate GapFor(gap: seq<Line>, post: seq<Line>) {
    |gap| <= 1 && (post != [] <==> gap != []) &&
    forall i | 0 <= i < |gap| :: WellLooked(gap[i].look) && !gap[i].look.visible
  }

  /** When what a seal made of a section does not close, the page is not read. */
  lemma MovedFails(ref: Option<Version>, m: nat, d: State, moved: seq<Line>, gap: seq<Line>, post: seq<Line>)
    requires Marked(moved) && NoHeading(moved) && GapFor(gap, post)
    requires Closed(Fold(None, m, d, moved)).Err?
    ensures Closed(Fold(ref, m, d, moved + (gap + post))).Err?
  {
    FoldAppend(ref, m, d, moved, gap + post);
    FoldAnyRef(ref, m, d, moved);
    if Fold(None, m, d, moved).Ok? {
      if gap != [] {
        assert (gap + post)[0] == gap[0];
        BlankCloses(ref, m + |moved| + 1, Fold(None, m, d, moved).value, gap[0].look);
      } else {
        assert gap + post == [];
      }
    }
  }

  lemma SectionGains(m: nat, d: State, moved: seq<Line>)
    requires Marked(moved) && NoHeading(moved) && Fold(None, m, d, moved).Ok?
    ensures var r := Fold(None, m, d, moved).value; r.sealed == d.sealed && r.unreleased == d.unreleased
  {
    FoldGains(None, m, d, moved);
    NoneGained(None, moved);
    NoneUnreleased(moved);
  }

  /** The run over what a seal made of the section and the rest of the page. */
  lemma MovedThenRest(ref: Option<Version>, m: nat, d: State, moved: seq<Line>, gap: seq<Line>, post: seq<Line>)
    requires Marked(moved) && NoHeading(moved) && GapFor(gap, post)
    requires Closed(Fold(None, m, d, moved)).Ok?
    ensures var r := Closed(Fold(None, m, d, moved)).value;
            Closed(Fold(ref, m, d, moved + (gap + post))) == Closed(Fold(ref, m + |moved| + |gap|, r, post)) &&
            r.sealed == d.sealed && r.unreleased == d.unreleased
  {
    FoldAppend(ref, m, d, moved, gap + post);
    FoldAnyRef(ref, m, d, moved);
    ClosedCloses(Fold(None, m, d, moved));
    GapCloses(ref, m + |moved|, Fold(None, m, d, moved).value, gap, post);
    SectionGains(m, d, moved);
  }

  /** Two runs that closed a section with the same names read the rest alike. */
  lemma RestAgrees(ref: Option<Version>, n: nat, c: State, m: nat, r: State, post: seq<Line>)
    requires Marked(post) && (post != [] ==> post[0].look.IsTop())
    requires Close(c).Ok? && r.para.NoPara? && NoLines(Close(c).value.covers) == NoLines(r.covers) && c.unreleased == r.unreleased
    requires forall v | v in AllGained(ref, post) :: v in c.sealed <==> v in r.sealed
    requires Closed(Fold(ref, n, c, post)).Ok?
    ensures Closed(Fold(ref, m, r, post)).Ok?
    ensures var e, f := Closed(Fold(ref, n, c, post)).value, Closed(Fold(ref, m, r, post)).value;
            NoLines(e.covers) == NoLines(f.covers) && e.unreleased == f.unreleased
  {
    assert Close(c).value.covers == c.covers;
    RestAlike(ref, n, c, m, r, post);
  }

  lemma ClosedCloses(x: Scan)
    requires Closed(x).Ok?
    ensures x.Ok? && Close(x.value).Ok? && Closed(x).value.para.NoPara? && Closed(x).value == Close(x.value).value
  {
  }

  /** Where a seal of section sec was read from state d, instead of sec from b. */
  ghost predicate Beside(ref: Option<Version>, b: State, d: State, sec: seq<Line>, gap: seq<Line>, post: seq<Line>) {
    Marked(sec) && Marked(post) && NoHeading(sec) && (post != [] ==> post[0].look.IsTop()) && GapFor(gap, post) &&
    b.zone.InStable? && b.note == 0 && b.para.NoPara? && Shape(b) == Shape(d) && b.unreleased == d.unreleased &&
    forall v | v in AllGained(ref, post) :: v in b.sealed <==> v in d.sealed
  }

  lemma GuidedRunsAgree(ref: Option<Version>, n: nat, b: State, m: nat, d: State, sec: seq<Line>, gap: seq<Line>, post: seq<Line>)
    requires Beside(ref, b, d, sec, gap, post) && Closed(Fold(ref, n, b, sec + post)).Ok?
    requires WellGuided(FRESH, sec)
    ensures Closed(Fold(ref, m, d, Moved(sec) + (gap + post))).Ok?
    ensures var e, f := Closed(Fold(ref, n, b, sec + post)).value, Closed(Fold(ref, m, d, Moved(sec) + (gap + post))).value;
            NoLines(e.covers) == NoLines(f.covers) && e.unreleased == f.unreleased
  {
    var c, r := GuidedStates(ref, n, b, m, d, sec, gap, post);
    RestAgreesBeside(ref, n + |sec|, c, b, m + |Moved(sec)| + |gap|, r, d, post,
      Fold(ref, n, b, sec + post), Fold(ref, m, d, Moved(sec) + (gap + post)));
  }

  /** How the runs over the section and over its seal end. */
  lemma GuidedStates(ref: Option<Version>, n: nat, b: State, m: nat, d: State, sec: seq<Line>, gap: seq<Line>, post: seq<Line>)
      returns (c: State, r: State)
    requires Beside(ref, b, d, sec, gap, post) && Closed(Fold(ref, n, b, sec + post)).Ok?
    requires WellGuided(FRESH, sec)
    ensures Fold(ref, n, b, sec + post) == Fold(ref, n + |sec|, c, post)
    ensures Closed(Fold(ref, m, d, Moved(sec) + (gap + post))) == Closed(Fold(ref, m + |Moved(sec)| + |gap|, r, post))
    ensures BothEnd(c, b, r, d)
  {
    SectionThenRest(ref, n, b, sec, post);
    MovedMarked(sec);
    MovedKeeps(n, b, m, d, sec);
    ClosedCloses(Fold(None, n, b, sec));
    ClosedCloses(Fold(None, m, d, Moved(sec)));
    c, r := Fold(None, n, b, sec).value, Closed(Fold(None, m, d, Moved(sec))).value;
    MovedThenRest(ref, m, d, Moved(sec), gap, post);
  }

  /** A section was read from b to c, and its seal from d to r. */
  predicate BothEnd(c: State, b: State, r: State, d: State) {
    c.sealed == b.sealed && c.unreleased == b.unreleased && r.sealed == d.sealed && r.unreleased == d.unreleased &&
    Close(c).Ok? && r.para.NoPara? && NoLines(Close(c).value.covers) == NoLines(r.covers)
  }

  lemma RestAgreesBeside(ref: Option<Version>, n: nat, c: State, b: State, m: nat, r: State, d: State, post: seq<Line>, x: Scan, y: Scan)
    requires BothEnd(c, b, r, d) && b.unreleased == d.unreleased
    requires forall v | v in AllGained(ref, post) :: v in b.sealed <==> v in d.sealed
    requires Marked(post) && (post != [] ==> post[0].look.IsTop())
    requires x == Fold(ref, n, c, post) && Closed(y) == Closed(Fold(ref, m, r, post)) && Closed(x).Ok?
    ensures Closed(y).Ok? && NoLines(Closed(x).value.covers) == NoLines(Closed(y).value.covers)
    ensures Closed(x).value.unreleased == Closed(y).value.unreleased
  {
    RestAgrees(ref, n, c, m, r, post);
  }

  lemma UnguidedRunFails(ref: Option<Version>, n: nat, b: State, m: nat, d: State, sec: seq<Line>, gap: seq<Line>, post: seq<Line>)
    requires Beside(ref, b, d, sec, gap, post) && Closed(Fold(ref, n, b, sec + post)).Ok?
    requires !WellGuided(FRESH, sec)
    ensures Closed(Fold(ref, m, d, Moved(sec) + (gap + post))).Err?
  {
    SectionThenRest(ref, n, b, sec, post);
    MovedMarked(sec);
    MovedKeeps(n, b, m, d, sec);
    MovedFails(ref, m, d, Moved(sec), gap, post);
  }
}
