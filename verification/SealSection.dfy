/** What sealing does to the lines of one section: it drops placeholders, a
    bare unstable subsection and surplus blank lines. Reading what is left
    gives the same names, exactly when every note says something to a host
    besides the placeholder. */
module SealSection {
  import opened Text
  import opened Notes
  import opened Seal
  import opened ScanLaws

  /** What a reader has heard so far in a section: the class it is in, whether
      the current note says more than the placeholder, and whether a Covers:
      paragraph is open. */
  datatype Ear = Ear(zone: Zone, said: bool, inPara: bool)

  function Hear(e: Ear, k: Look): Ear {
    if e.inPara && !k.EndsPara() then e
    else
      match k.kind
      case Fence => e.(inPara := false)
      case Code => Ear(e.zone, e.said || k.visible, false)
      case Plain =>
        match k.what
        case UnstableSub => Ear(InUnstable, e.said, false)
        case Sub3 => Ear(e.zone, false, false)
        case Sub4 => Ear(e.zone, e.said && !e.zone.InUnstable?, false)
        case CoversLine => Ear(e.zone, e.said, true)
        case PlaceholderLine => e.(inPara := false)
        case _ => Ear(e.zone, e.said || (k.visible && !k.hash), false)
  }

  /** k opens a Covers: paragraph in a note guided by the placeholder alone. */
  predicate Bare(e: Ear, k: Look) {
    !e.inPara && k.kind.Plain? && k.what.CoversLine? && !e.said
  }

  /** No note of the section is guided by the placeholder alone. */
  predicate WellGuided(e: Ear, zs: seq<Line>)
    decreases |zs|
  {
    zs == [] || (!Bare(e, zs[0].look) && WellGuided(Hear(e, zs[0].look), zs[1..]))
  }

  /** Two states that collected the same and stand in the same place. */
  predicate Like(s: State, t: State) {
    Shape(s).(guided := false) == Shape(t).(guided := false)
  }

  /** t is the run without placeholders beside the run s with them. */
  predicate Near(s: State, t: State, said: bool) {
    Like(s, t) && (s.note > 0 ==> t.guided == said && (said ==> s.guided))
  }

  function EarOf(s: State, said: bool): Ear {
    Ear(s.zone, said, s.para.Open?)
  }

  lemma CoversSplit(s: State, t: State, n: nat, m: nat, names: seq<Name>)
    requires NoLines(s.covers) == NoLines(t.covers)
    ensures NoLines(s.covers + Covers(names, n, ZoneClass(s.zone))) ==
            NoLines(t.covers + Covers(names, m, ZoneClass(s.zone)))
  {
    var a, b := Covers(names, n, ZoneClass(s.zone)), Covers(names, m, ZoneClass(s.zone));
    assert NoLines(a) == NoLines(b);
    NoLinesAppend(s.covers, a);
    NoLinesAppend(t.covers, b);
  }

  lemma ParaNear(n: nat, s: State, m: nat, t: State, said: bool, k: Look)
    requires s.para.Open? && t.para.Open? && Near(s, t, said) && ParaStep(n, s, k).Ok?
    ensures ParaStep(m, t, k).Ok?
    ensures var s1, t1 := ParaStep(n, s, k).value, ParaStep(m, t, k).value;
            Near(s1, t1, said) && s1.zone == s.zone && s1.para.Open?
  {
    CoversSplit(s, t, n, m, k.names.value);
  }

  lemma BodyNear(n: nat, s: State, m: nat, t: State, said: bool, k: Look)
    requires n > 0 && m > 0 && WellLooked(k) && k.kind.Plain? && !k.IsTop() && !k.IsPlaceholder() && !s.zone.Skip?
    requires s.para.NoPara? && t.para.NoPara?
    requires Near(s, t, said) && BodyStep(n, s, k).Ok?
    ensures Bare(EarOf(s, said), k) <==> BodyStep(m, t, k).Err?
    ensures BodyStep(m, t, k).Ok? ==>
              var s1, t1 := BodyStep(n, s, k).value, BodyStep(m, t, k).value;
              var e := Hear(EarOf(s, said), k);
              Near(s1, t1, e.said) && EarOf(s1, e.said) == e && !s1.zone.Skip?
  {
    if k.what.CoversLine? {
      ParaNear(n, s.(para := Open(n, 0)), m, t.(para := Open(m, 0)), said, k);
    }
  }

  /** A line that is no placeholder. */
  lemma StepNear(n: nat, s: State, m: nat, t: State, said: bool, k: Look)
    requires n > 0 && m > 0 && WellLooked(k) && !k.IsTop() && !k.IsPlaceholder() && !s.zone.Skip?
    requires Near(s, t, said) && Step(None, n, s, k).Ok?
    ensures Bare(EarOf(s, said), k) <==> Step(None, m, t, k).Err?
    ensures Step(None, m, t, k).Ok? ==>
              var s1, t1 := Step(None, n, s, k).value, Step(None, m, t, k).value;
              var e := Hear(EarOf(s, said), k);
              Near(s1, t1, e.said) && EarOf(s1, e.said) == e && !s1.zone.Skip?
  {
    if s.para.Open? && !k.EndsPara() {
      ParaNear(n, s, m, t, said, k);
    } else {
      var s0, t0 := Close(s).value, Close(t).value;
      assert Near(s0, t0, said);
      if k.kind.Plain? {
        BodyNear(n, s0, m, t0, said, k);
        assert Hear(EarOf(s, said), k) == Hear(EarOf(s0, said), k);
        assert s.para.Open? ==> !k.what.CoversLine?;
      }
    }
  }

  lemma StepPlaceholder(n: nat, s: State, said: bool, k: Look, t: State)
    requires WellLooked(k) && k.IsPlaceholder() && !s.zone.Skip?
    requires Near(s, t, said) && Step(None, n, s, k).Ok?
    ensures var s1 := Step(None, n, s, k).value;
            Near(s1, t, said) && EarOf(s1, said) == EarOf(s, said) == Hear(EarOf(s, said), k) && !s1.zone.Skip?
    ensures !Bare(EarOf(s, said), k)
  {
    assert s.covers + Covers([], n, ZoneClass(s.zone)) == s.covers;
  }

  /** Inside a section the ref does not matter. */
  lemma {:induction false} FoldAnyRef(ref: Option<Version>, n: nat, s: State, zs: seq<Line>)
    requires Marked(zs) && NoHeading(zs)
    ensures Fold(ref, n, s, zs) == Fold(None, n, s, zs)
    decreases |zs|
  {
    if zs != [] {
      assert zs[0] in zs;
      assert Step(ref, n + 1, s, zs[0].look) == Step(None, n + 1, s, zs[0].look);
      if Step(ref, n + 1, s, zs[0].look).Ok? {
        FoldAnyRef(ref, n + 1, Step(ref, n + 1, s, zs[0].look).value, zs[1..]);
      }
    }
  }

  /** Dropping the placeholders keeps what a section says, exactly when no
      note is guided by the placeholder alone. */
  lemma {:induction false} DropKeeps(n: nat, s: State, m: nat, t: State, said: bool, zs: seq<Line>)
    requires Marked(zs) && NoHeading(zs) && !s.zone.Skip?
    requires Near(s, t, said) && Fold(None, n, s, zs).Ok?
    ensures WellGuided(EarOf(s, said), zs) <==> Fold(None, m, t, DropPlaceholders(zs)).Ok?
    ensures Fold(None, m, t, DropPlaceholders(zs)).Ok? ==>
              Like(Fold(None, n, s, zs).value, Fold(None, m, t, DropPlaceholders(zs)).value)
    decreases |zs|
  {
    if zs != [] {
      var k := zs[0].look;
      assert zs[0] in zs;
      var s1 := Step(None, n + 1, s, k).value;
      if k.IsPlaceholder() {
        StepPlaceholder(n + 1, s, said, k, t);
        DropKeeps(n + 1, s1, m, t, said, zs[1..]);
      } else {
        StepNear(n + 1, s, m + 1, t, said, k);
        var rest := DropPlaceholders(zs[1..]);
        assert ([zs[0]] + rest)[1..] == rest;
        if Step(None, m + 1, t, k).Ok? {
          DropKeeps(n + 1, s1, m + 1, Step(None, m + 1, t, k).value, Hear(EarOf(s, said), k).said, zs[1..]);
        }
      }
    }
  }

  /** The part of an unstable subsection after its heading, with no note in it:
      it collects nothing, and no Covers: paragraph opens in it. */
  lemma {:induction false} BareSubsection(n: nat, s: State, zs: seq<Line>, said: bool)
    requires Marked(zs) && NoHeading(zs) && s.zone.InUnstable? && s.note == 0 && s.para.NoPara?
    requires forall j | 0 <= j < |zs| :: !IsUnstableNote(zs[j].look)
    requires Fold(None, n, s, zs).Ok?
    ensures Fold(None, n, s, zs) == Ok(s)
    ensures WellGuided(EarOf(s, said), zs)
    decreases |zs|
  {
    if zs != [] {
      var k := zs[0].look;
      assert zs[0] in zs;
      assert Step(None, n + 1, s, k) == Ok(s);
      BareSubsection(n + 1, s, zs[1..], Hear(EarOf(s, said), k).said);
    }
  }

  lemma {:induction false} WellGuidedAppend(e: Ear, a: seq<Line>, b: seq<Line>)
    ensures WellGuided(e, a + b) <==> WellGuided(e, a) && WellGuided(HearAll(e, a), b)
    decreases |a|
  {
    if a == [] {
      assert a + b == b;
    } else {
      assert (a + b)[0] == a[0] && (a + b)[1..] == a[1..] + b;
      WellGuidedAppend(Hear(e, a[0].look), a[1..], b);
    }
  }

  function HearAll(e: Ear, zs: seq<Line>): Ear
    decreases |zs|
  {
    if zs == [] then e else HearAll(Hear(e, zs[0].look), zs[1..])
  }

  // Blank lines

  function Closed(r: Scan): Scan {
    match r
    case Err(e) => Err(e)
    case Ok(s) => Close(s)
  }

  lemma BlankCloses(ref: Option<Version>, n: nat, s: State, k: Look)
    requires WellLooked(k) && !k.visible
    ensures Step(ref, n, s, k) == Close(s)
  {
  }

  lemma {:induction false} SqueezeKeeps(n: nat, s: State, m: nat, t: State, zs: seq<Line>, open: bool)
    requires Marked(zs) && NoHeading(zs)
    requires Shape(s) == Shape(t) && (open ==> s.para.NoPara?)
    ensures Fold(None, n, s, zs).Ok? <==> Fold(None, m, t, Squeeze(zs, open)).Ok?
    ensures Fold(None, n, s, zs).Ok? ==>
              Shape(Fold(None, n, s, zs).value) == Shape(Fold(None, m, t, Squeeze(zs, open)).value)
    decreases |zs|
  {
    if zs != [] {
      var k := zs[0].look;
      assert zs[0] in zs;
      if !k.visible {
        BlankCloses(None, n + 1, s, k);
        BlankCloses(None, m + 1, t, k);
      }
      if !k.visible && open {
        SqueezeKeeps(n + 1, s, m, t, zs[1..], true);
      } else {
        StepAlike(None, n + 1, s, m + 1, t, k);
        var rest := Squeeze(zs[1..], !k.visible);
        assert ([zs[0]] + rest)[0] == zs[0] && ([zs[0]] + rest)[1..] == rest;
        if Step(None, n + 1, s, k).Ok? {
          SqueezeKeeps(n + 1, Step(None, n + 1, s, k).value, m + 1, Step(None, m + 1, t, k).value, zs[1..], !k.visible);
        }
      }
    }
  }

  lemma {:induction false} BlankTailCloses(ref: Option<Version>, n: nat, s: State, zs: seq<Line>)
    requires Marked(zs)
    ensures Closed(Fold(ref, n, s, zs)) == Closed(Fold(ref, n, s, DropBlankTail(zs)))
    decreases |zs|
  {
    if zs != [] && !zs[|zs| - 1].look.visible {
      var init, last := zs[..|zs| - 1], zs[|zs| - 1];
      BlankTailCloses(ref, n, s, init);
      assert zs == init + [last] && last in zs;
      FoldAppend(ref, n, s, init, [last]);
      match Fold(ref, n, s, init)
      case Err(_) =>
      case Ok(t) =>
        BlankCloses(ref, n + |init| + 1, t, last.look);
        assert [last][1..] == [];
        assert Fold(ref, n + |init|, t, [last]) == Close(t);
    }
  }

  // The section as a whole

  const FRESH := Ear(InStable, false, false)

  lemma {:induction false} DropMarked(zs: seq<Line>)
    requires Marked(zs) && NoHeading(zs)
    ensures Marked(DropPlaceholders(zs)) && NoHeading(DropPlaceholders(zs))
  {
    if zs != [] {
      assert zs == [zs[0]] + zs[1..];
      DropMarked(zs[1..]);
    }
  }

  lemma {:induction false} SqueezeMarked(zs: seq<Line>, open: bool)
    requires Marked(zs) && NoHeading(zs)
    ensures Marked(Squeeze(zs, open)) && NoHeading(Squeeze(zs, open))
  {
    if zs != [] {
      assert zs == [zs[0]] + zs[1..];
      SqueezeMarked(zs[1..], !zs[0].look.visible);
      SqueezeMarked(zs[1..], true);
    }
  }

  lemma TidyKeeps(m: nat, t: State, zs: seq<Line>)
    requires Marked(zs) && NoHeading(zs) && t.para.NoPara?
    ensures Closed(Fold(None, m, t, zs)).Ok? <==> Closed(Fold(None, m, t, Tidy(zs))).Ok?
    ensures Closed(Fold(None, m, t, zs)).Ok? ==>
              Shape(Closed(Fold(None, m, t, zs)).value) == Shape(Closed(Fold(None, m, t, Tidy(zs))).value)
  {
    SqueezeKeeps(m, t, m, t, zs, true);
    SqueezeMarked(zs, true);
    BlankTailCloses(None, m, t, Squeeze(zs, true));
  }

  lemma {:induction false} FoldStays(n: nat, s: State, zs: seq<Line>)
    requires Marked(zs) && NoHeading(zs) && !s.zone.Skip? && Fold(None, n, s, zs).Ok?
    ensures !Fold(None, n, s, zs).value.zone.Skip?
    decreases |zs|
  {
    if zs != [] {
      assert zs[0] in zs;
      FoldStays(n + 1, Step(None, n + 1, s, zs[0].look).value, zs[1..]);
    }
  }

  lemma OpenUnstable(n: nat, u: State, e: Ear, k: Look)
    requires WellLooked(k) && IsUnstableSub(k) && !u.zone.Skip? && Step(None, n, u, k).Ok?
    ensures var w := Step(None, n, u, k).value;
            w.zone.InUnstable? && w.note == 0 && w.para.NoPara? && w.covers == u.covers &&
            Closed(Ok(u)).Ok? && Hear(e, k) == EarOf(w, e.said) && !Bare(e, k)
  {
  }

  /** From an unstable heading on, a section with no unstable note adds nothing. */
  lemma BareTail(n: nat, u: State, e: Ear, rest: seq<Line>)
    requires Marked(rest) && NoHeading(rest) && rest != [] && IsUnstableSub(rest[0].look) && !u.zone.Skip?
    requires forall j | 0 <= j < |rest| :: !IsUnstableNote(rest[j].look)
    requires Fold(None, n, u, rest).Ok?
    ensures Closed(Ok(u)).Ok? && WellGuided(e, rest)
    ensures Fold(None, n, u, rest).value.covers == u.covers && Fold(None, n, u, rest).value.para.NoPara?
  {
    assert rest[0] in rest;
    OpenUnstable(n + 1, u, e, rest[0].look);
    BareSubsection(n + 1, Step(None, n + 1, u, rest[0].look).value, rest[1..], e.said);
  }

  /** A run over the whole section closes exactly when one over the part a seal
      keeps does, with the same names, and the part left behind holds no
      Covers: paragraph. */
  lemma CutKeeps(n: nat, s: State, sec: seq<Line>)
    requires Marked(sec) && NoHeading(sec)
    requires s.zone.InStable? && Closed(Fold(None, n, s, sec)).Ok?
    ensures Closed(Fold(None, n, s, Cut(sec))).Ok?
    ensures Closed(Fold(None, n, s, Cut(sec))).value.covers == Closed(Fold(None, n, s, sec)).value.covers
    ensures WellGuided(EarOf(s, false), Cut(sec)) <==> WellGuided(EarOf(s, false), sec)
    ensures Marked(Cut(sec)) && NoHeading(Cut(sec))
  {
    var at := UnstableAt(sec);
    if Cut(sec) != sec {
      var kept, rest := sec[..at], sec[at..];
      assert sec == kept + rest;
      FoldAppend(None, n, s, kept, rest);
      FoldStays(n, s, kept);
      WellGuidedAppend(EarOf(s, false), kept, rest);
      BareTail(n + at, Fold(None, n, s, kept).value, HearAll(EarOf(s, false), kept), rest);
    }
  }

  /** Sealing a section keeps its names, and the sealed section can be read,
      exactly when no note is guided by the placeholder alone. */
  lemma MovedKeeps(n: nat, s: State, m: nat, t: State, sec: seq<Line>)
    requires Marked(sec) && NoHeading(sec)
    requires s.zone.InStable? && s.note == 0 && s.para.NoPara? && Shape(s) == Shape(t)
    requires Closed(Fold(None, n, s, sec)).Ok?
    ensures WellGuided(FRESH, sec) <==> Closed(Fold(None, m, t, Moved(sec))).Ok?
    ensures Closed(Fold(None, m, t, Moved(sec))).Ok? ==>
              var a, b := Closed(Fold(None, n, s, sec)).value, Closed(Fold(None, m, t, Moved(sec))).value;
              NoLines(a.covers) == NoLines(b.covers)
  {
    CutKeeps(n, s, sec);
    DropKeeps(n, s, m, t, false, Cut(sec));
    DropMarked(Cut(sec));
    TidyKeeps(m, t, DropPlaceholders(Cut(sec)));
  }
}
