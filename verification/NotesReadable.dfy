/** Which pages can be read: the line that refuses a page, said on the lines
    alone. */
module NotesReadable {
  import opened Text
  import opened Notes
  import opened Seal
  import opened ScanLaws
  import opened Looks
  import opened NotesMeaning

  // Notes and their guidance

  /** Line h heads the note in which a line at n would stand. */
  ghost predicate IsNoteOf(ref: Option<Version>, zs: seq<Line>, n: nat, h: nat) {
    h < n <= |zs| && HeadsNote(ref, zs, h) &&
    forall x | h < x < n :: !zs[x].look.IsTop() && !IsUnstableSub(zs[x].look) && !HeadsNote(ref, zs, x)
  }

  ghost predicate InNote(ref: Option<Version>, zs: seq<Line>, n: nat) {
    exists h: nat :: IsNoteOf(ref, zs, n, h)
  }

  /** The line guides: it is text, or code in a fence. */
  predicate Guides(k: Look) {
    k.visible && (k.kind.Code? || (k.kind.Plain? && !k.hash && (k.what.Prose? || k.what.PlaceholderLine?)))
  }

  /** The note says something before n. */
  ghost predicate Guided(ref: Option<Version>, zs: seq<Line>, n: nat) {
    exists h: nat, g: nat :: IsGuide(ref, zs, n, h, g)
  }

  ghost predicate IsGuide(ref: Option<Version>, zs: seq<Line>, n: nat, h: nat, g: nat) {
    IsNoteOf(ref, zs, n, h) && h < g < n && Guides(zs[g].look)
  }

  /** The paragraph that goes on at n has named something. */
  ghost predicate HasNamed(ref: Option<Version>, zs: seq<Line>, n: nat) {
    exists p: nat, x: nat :: NamesIn(ref, zs, n, p, x)
  }

  ghost predicate NamesIn(ref: Option<Version>, zs: seq<Line>, n: nat, p: nat, x: nat) {
    p <= x < n <= |zs| && StartsPara(ref, zs, p) && GoesOn(zs, p, n) && zs[x].look.names.Ok? && zs[x].look.names.value != []
  }

  // The line that refuses the page

  /** A Covers: paragraph ends without a name, or a name cannot be read; it stands
      outside a note, or before the note says anything; a section has a second
      unstable heading, or a note of the stable part after it; or a version has a
      second section. */
  ghost predicate Refuses(ref: Option<Version>, zs: seq<Line>, n: nat)
    requires n < |zs|
  {
    var k := zs[n].look;
    (InPara(ref, zs, n) && k.EndsPara() && !HasNamed(ref, zs, n)) ||
    (NamesCovers(ref, zs, n) && k.names.Err?) ||
    (StartsPara(ref, zs, n) && !InPara(ref, zs, n) && !Guided(ref, zs, n)) ||
    (k.kind.Plain? && (k.what.UnstableSub? || k.what.Sub3?) && UnderUnstable(ref, zs, n)) ||
    (k.kind.Plain? && k.what.VersionTop? && ReadsVersion(ref, k.what.number) && k.what.version in Versions(ref, zs, n))
  }

  // The state after some lines

  ghost predicate KnowsNote(ref: Option<Version>, zs: seq<Line>, n: nat, s: State)
    requires n <= |zs|
  {
    (s.note > 0 <==> InNote(ref, zs, n)) && (s.note > 0 ==> (s.guided <==> Guided(ref, zs, n))) &&
    (s.para.Open? ==> s.note > 0 && s.guided && (s.para.names > 0 <==> HasNamed(ref, zs, n))) &&
    (s.note > 0 ==> !s.zone.Skip?)
  }

  // One line more

  lemma NoteMore(ref: Option<Version>, zs: seq<Line>, n: nat, h: nat)
    requires n < |zs|
    ensures IsNoteOf(ref, zs, n + 1, h) <==>
            if h < n then IsNoteOf(ref, zs, n, h) && !zs[n].look.IsTop() && !IsUnstableSub(zs[n].look) && !HeadsNote(ref, zs, n)
            else h == n && HeadsNote(ref, zs, n)
  {
  }

  lemma InNoteMore(ref: Option<Version>, zs: seq<Line>, n: nat)
    requires n < |zs|
    ensures InNote(ref, zs, n + 1) <==>
            HeadsNote(ref, zs, n) || (InNote(ref, zs, n) && !zs[n].look.IsTop() && !IsUnstableSub(zs[n].look))
  {
    var m := n + 1;
    if h: nat :| IsNoteOf(ref, zs, m, h) {
      NoteMore(ref, zs, n, h);
      assert h < n ==> IsNoteOf(ref, zs, n, h);
    }
    NoteMore(ref, zs, n, n);
    if InNote(ref, zs, n) && !HeadsNote(ref, zs, n) && !zs[n].look.IsTop() && !IsUnstableSub(zs[n].look) {
      var h: nat :| IsNoteOf(ref, zs, n, h);
      NoteMore(ref, zs, n, h);
      assert IsNoteOf(ref, zs, n + 1, h);
    }
    HeadIsNoTop(ref, zs, n);
    assert HeadsNote(ref, zs, n) ==> IsNoteOf(ref, zs, n + 1, n);
  }

  lemma HeadIsNoTop(ref: Option<Version>, zs: seq<Line>, n: nat)
    requires n < |zs|
    ensures HeadsNote(ref, zs, n) ==> !zs[n].look.IsTop() && !IsUnstableSub(zs[n].look)
  {
  }

  lemma GuidedMore(ref: Option<Version>, zs: seq<Line>, n: nat)
    requires n < |zs|
    ensures Guided(ref, zs, n + 1) <==>
            !HeadsNote(ref, zs, n) && !zs[n].look.IsTop() && !IsUnstableSub(zs[n].look) &&
            (Guided(ref, zs, n) || (InNote(ref, zs, n) && Guides(zs[n].look)))
  {
    var m := n + 1;
    if h: nat, g: nat :| IsGuide(ref, zs, m, h, g) {
      NoteMore(ref, zs, n, h);
      assert IsNoteOf(ref, zs, n, h);
      assert g < n ==> IsGuide(ref, zs, n, h, g);
    }
    if !HeadsNote(ref, zs, n) && !zs[n].look.IsTop() && !IsUnstableSub(zs[n].look) {
      if h: nat, g: nat :| IsGuide(ref, zs, n, h, g) {
        NoteMore(ref, zs, n, h);
        assert IsGuide(ref, zs, n + 1, h, g);
      }
      if InNote(ref, zs, n) && Guides(zs[n].look) {
        var h: nat :| IsNoteOf(ref, zs, n, h);
        NoteMore(ref, zs, n, h);
        assert IsGuide(ref, zs, n + 1, h, n);
      }
    }
  }

  predicate NamesHere(k: Look) {
    k.names.Ok? && k.names.value != []
  }

  /** Whether the line at n names something in a paragraph that starts at p, or
      one before it did. */
  lemma NamesInMore(ref: Option<Version>, zs: seq<Line>, n: nat, p: nat, x: nat)
    requires n < |zs|
    ensures NamesIn(ref, zs, n + 1, p, x) <==>
            (p == n && x == n && StartsPara(ref, zs, n) && NamesHere(zs[n].look)) ||
            (p < n && !zs[n].look.EndsPara() &&
             (NamesIn(ref, zs, n, p, x) || (x == n && StartsPara(ref, zs, p) && GoesOn(zs, p, n) && NamesHere(zs[n].look))))
  {
    if p < n {
      GoesOnMore(zs, p, n);
    }
  }

  lemma NamedBefore(ref: Option<Version>, zs: seq<Line>, n: nat)
    requires n < |zs| && HasNamed(ref, zs, n + 1)
    ensures (StartsPara(ref, zs, n) && NamesHere(zs[n].look)) ||
      (!zs[n].look.EndsPara() && (HasNamed(ref, zs, n) || (InPara(ref, zs, n) && NamesHere(zs[n].look))))
  {
    var m := n + 1;
    var p: nat, x: nat :| NamesIn(ref, zs, m, p, x);
    NamesInMore(ref, zs, n, p, x);
  }

  lemma NamedAfter(ref: Option<Version>, zs: seq<Line>, n: nat)
    requires n < |zs|
    requires (StartsPara(ref, zs, n) && NamesHere(zs[n].look)) ||
      (!zs[n].look.EndsPara() && (HasNamed(ref, zs, n) || (InPara(ref, zs, n) && NamesHere(zs[n].look))))
    ensures HasNamed(ref, zs, n + 1)
  {
    if StartsPara(ref, zs, n) && NamesHere(zs[n].look) {
      NamesInMore(ref, zs, n, n, n);
    } else if HasNamed(ref, zs, n) {
      var p: nat, x: nat :| NamesIn(ref, zs, n, p, x);
      NamesInMore(ref, zs, n, p, x);
    } else {
      var p: nat :| p < n <= |zs| && StartsPara(ref, zs, p) && GoesOn(zs, p, n);
      NamesInMore(ref, zs, n, p, n);
    }
  }

  lemma NamedMore(ref: Option<Version>, zs: seq<Line>, n: nat)
    requires n < |zs|
    ensures HasNamed(ref, zs, n + 1) <==>
      (StartsPara(ref, zs, n) && NamesHere(zs[n].look)) ||
      (!zs[n].look.EndsPara() && (HasNamed(ref, zs, n) || (InPara(ref, zs, n) && NamesHere(zs[n].look))))
  {
    if HasNamed(ref, zs, n + 1) {
      NamedBefore(ref, zs, n);
    }
    if (StartsPara(ref, zs, n) && NamesHere(zs[n].look)) ||
       (!zs[n].look.EndsPara() && (HasNamed(ref, zs, n) || (InPara(ref, zs, n) && NamesHere(zs[n].look)))) {
      NamedAfter(ref, zs, n);
    }
  }

  // What a line does to the state

  /** The line goes on with a paragraph, or starts one. */
  predicate TakesNames(s: State, k: Look) {
    if s.para.Open? && !k.EndsPara() then true
    else k.kind.Plain? && k.what.CoversLine? && !s.zone.Skip?
  }

  lemma ParaOutcome(ref: Option<Version>, n: nat, s: State, k: Look, t: State)
    requires WellLooked(k) && Step(ref, n + 1, s, k) == Ok(t)
    ensures t.para.Open? <==> TakesNames(s, k)
    ensures t.para.Open? ==>
      t.note == s.note && t.guided == s.guided && k.names.Ok? &&
      t.para.names == (if s.para.Open? && !k.EndsPara() then s.para.names else 0) + |k.names.value|
    ensures t.para.Open? && !(s.para.Open? && !k.EndsPara()) ==> s.note > 0 && s.guided
  {
  }

  predicate IsHead(s: State, k: Look) {
    k.kind.Plain? && if s.zone.InUnstable? then k.what.Sub4? else s.zone.InStable? && k.what.Sub3?
  }

  lemma NoteOutcome(ref: Option<Version>, n: nat, s: State, k: Look, t: State)
    requires WellLooked(k) && Step(ref, n + 1, s, k) == Ok(t) && (s.note > 0 ==> !s.zone.Skip?)
    ensures t.note > 0 <==> IsHead(s, k) || (s.note > 0 && !k.IsTop() && !IsUnstableSub(k))
    ensures t.note > 0 ==> !t.zone.Skip?
  {
  }

  lemma GuidedOutcome(ref: Option<Version>, n: nat, s: State, k: Look, t: State)
    requires WellLooked(k) && Step(ref, n + 1, s, k) == Ok(t) && (s.note > 0 ==> !s.zone.Skip?)
    requires s.para.Open? ==> s.note > 0 && s.guided
    ensures t.note > 0 ==> (t.guided <==> !IsHead(s, k) && (s.guided || (s.note > 0 && Guides(k))))
  {
  }

  predicate Refused(ref: Option<Version>, s: State, k: Look) {
    (s.para.Open? && k.EndsPara() && s.para.names == 0) ||
    (TakesNames(s, k) && k.names.Err?) ||
    (TakesNames(s, k) && !s.para.Open? && (s.note == 0 || !s.guided)) ||
    (k.kind.Plain? && (k.what.UnstableSub? || k.what.Sub3?) && s.zone.InUnstable?) ||
    (k.kind.Plain? && k.what.VersionTop? && ReadsVersion(ref, k.what.number) && k.what.version in s.sealed)
  }

  lemma StepOutcome(ref: Option<Version>, n: nat, s: State, k: Look)
    requires WellLooked(k)
    ensures Step(ref, n + 1, s, k).Err? <==> Refused(ref, s, k)
  {
  }

  // And to what is known of it

  /** All that is known after some lines. */
  ghost predicate KnowsAll(ref: Option<Version>, zs: seq<Line>, n: nat, s: State)
    requires n <= |zs|
  {
    Knows(ref, zs, n, s) && Tells(ref, zs, n, s) && KnowsNote(ref, zs, n, s)
  }

  lemma TakesMeans(ref: Option<Version>, zs: seq<Line>, n: nat, s: State)
    requires n < |zs| && WellLooked(zs[n].look) && Knows(ref, zs, n, s)
    ensures TakesNames(s, zs[n].look) <==> NamesCovers(ref, zs, n)
    ensures TakesNames(s, zs[n].look) && !s.para.Open? <==> StartsPara(ref, zs, n) && !InPara(ref, zs, n)
    ensures IsHead(s, zs[n].look) <==> HeadsNote(ref, zs, n)
  {
  }

  /** A line is refused exactly when it should be. */
  lemma StepRefuses(ref: Option<Version>, zs: seq<Line>, n: nat, s: State)
    requires n < |zs| && WellLooked(zs[n].look) && KnowsAll(ref, zs, n, s)
    ensures Step(ref, n + 1, s, zs[n].look).Err? <==> Refuses(ref, zs, n)
  {
    StepOutcome(ref, n, s, zs[n].look);
    TakesMeans(ref, zs, n, s);
    GuidedIsNote(ref, zs, n);
  }

  lemma GuidedIsNote(ref: Option<Version>, zs: seq<Line>, n: nat)
    ensures Guided(ref, zs, n) ==> InNote(ref, zs, n)
  {
    if h: nat, g: nat :| IsGuide(ref, zs, n, h, g) {
      assert IsNoteOf(ref, zs, n, h);
    }
  }

  lemma StepNote(ref: Option<Version>, zs: seq<Line>, n: nat, s: State, t: State)
    requires n < |zs| && WellLooked(zs[n].look) && Knows(ref, zs, n, s) && KnowsNote(ref, zs, n, s)
    requires Step(ref, n + 1, s, zs[n].look) == Ok(t)
    ensures (t.note > 0 <==> InNote(ref, zs, n + 1)) && (t.note > 0 ==> !t.zone.Skip?)
    ensures t.note > 0 ==> (t.guided <==> Guided(ref, zs, n + 1))
  {
    NoteOutcome(ref, n, s, zs[n].look, t);
    GuidedOutcome(ref, n, s, zs[n].look, t);
    TakesMeans(ref, zs, n, s);
    InNoteMore(ref, zs, n);
    GuidedMore(ref, zs, n);
    HeadIsNoTop(ref, zs, n);
    GuidedIsNote(ref, zs, n);
  }

  lemma StepPara(ref: Option<Version>, zs: seq<Line>, n: nat, s: State, t: State)
    requires n < |zs| && WellLooked(zs[n].look) && Knows(ref, zs, n, s) && KnowsNote(ref, zs, n, s)
    requires Step(ref, n + 1, s, zs[n].look) == Ok(t)
    ensures t.para.Open? ==> t.note > 0 && t.guided && (t.para.names > 0 <==> HasNamed(ref, zs, n + 1))
  {
    ParaOutcome(ref, n, s, zs[n].look, t);
    TakesMeans(ref, zs, n, s);
    NamedMore(ref, zs, n);
    StartIsNoEnd(ref, zs, n);
  }

  lemma StartIsNoEnd(ref: Option<Version>, zs: seq<Line>, n: nat)
    requires n < |zs| && WellLooked(zs[n].look)
    ensures StartsPara(ref, zs, n) ==> !zs[n].look.EndsPara()
    ensures HasNamed(ref, zs, n) ==> InPara(ref, zs, n)
  {
    if p: nat, x: nat :| NamesIn(ref, zs, n, p, x) {
      assert StartsPara(ref, zs, p) && GoesOn(zs, p, n);
    }
  }

  lemma StepKnowsAll(ref: Option<Version>, zs: seq<Line>, n: nat, s: State, t: State)
    requires n < |zs| && WellLooked(zs[n].look) && KnowsAll(ref, zs, n, s)
    requires Step(ref, n + 1, s, zs[n].look) == Ok(t)
    ensures KnowsAll(ref, zs, n + 1, t)
  {
    StepKnows(ref, zs, n, s, t);
    StepTells(ref, zs, n, s, t);
    StepNote(ref, zs, n, s, t);
    StepPara(ref, zs, n, s, t);
  }

  // The whole page

  ghost predicate NoneRefuses(ref: Option<Version>, zs: seq<Line>, n: nat)
    requires n <= |zs|
  {
    forall j: nat | j < n :: !Refuses(ref, zs, j)
  }

  lemma NoneMore(ref: Option<Version>, zs: seq<Line>, n: nat)
    requires n < |zs|
    ensures NoneRefuses(ref, zs, n + 1) <==> NoneRefuses(ref, zs, n) && !Refuses(ref, zs, n)
  {
  }

  lemma NothingKnown(ref: Option<Version>, zs: seq<Line>)
    ensures KnowsAll(ref, zs, 0, START)
  {
    assert |UNRELEASED| > 0;
  }

  lemma {:induction false} RunReads(ref: Option<Version>, zs: seq<Line>, n: nat, r: Scan)
    requires Marked(zs) && n <= |zs| && r == Fold(ref, 0, START, zs[..n])
    ensures (r.Ok? <==> NoneRefuses(ref, zs, n)) && (r.Ok? ==> KnowsAll(ref, zs, n, r.value))
  {
    if n == 0 {
      assert zs[..0] == [];
      NothingKnown(ref, zs);
    } else {
      var k := n - 1;
      var before := Fold(ref, 0, START, zs[..k]);
      RunReads(ref, zs, k, before);
      LastReads(ref, zs, k);
      NoneMore(ref, zs, k);
      if before.Ok? {
        assert zs[k] in zs;
        StepRefuses(ref, zs, k, before.value);
        if r.Ok? {
          StepKnowsAll(ref, zs, k, before.value, r.value);
        }
      }
    }
  }

  lemma LastReads(ref: Option<Version>, zs: seq<Line>, k: nat)
    requires k < |zs|
    ensures Fold(ref, 0, START, zs[..k + 1]) == match Fold(ref, 0, START, zs[..k])
      case Err(e) => Err(e)
      case Ok(s) => Step(ref, k + 1, s, zs[k].look)
  {
    assert zs[..k + 1] == zs[..k] + [zs[k]];
    FoldAppend(ref, 0, START, zs[..k], [zs[k]]);
    if Fold(ref, 0, START, zs[..k]).Ok? {
      OneStep(ref, k, Fold(ref, 0, START, zs[..k]).value, zs[k]);
    }
  }

  /** Where the Unreleased headings stand. */
  function UnreleasedPlaces(zs: seq<Line>): set<nat> {
    set i: nat | i < |zs| && IsUnreleased(zs[i].look)
  }

  lemma {:induction false} UnreleasedCounted(ref: Option<Version>, zs: seq<Line>, n: nat)
    requires Marked(zs) && n <= |zs| && Fold(ref, 0, START, zs[..n]).Ok?
    ensures Fold(ref, 0, START, zs[..n]).value.unreleased == |UnreleasedPlaces(zs[..n])|
  {
    if n == 0 {
      assert zs[..0] == [];
    } else {
      LastReads(ref, zs, n - 1);
      UnreleasedCounted(ref, zs, n - 1);
      assert zs[n - 1] in zs;
      StepGains(ref, n, Fold(ref, 0, START, zs[..n - 1]).value, zs[n - 1].look);
      PlacesMore(zs[..n - 1], zs[n - 1]);
      assert zs[..n] == zs[..n - 1] + [zs[n - 1]];
    }
  }

  lemma PlacesMore(zs: seq<Line>, z: Line)
    ensures var n := |zs|;
      UnreleasedPlaces(zs + [z]) == UnreleasedPlaces(zs) + (if IsUnreleased(z.look) then {n} else {})
    ensures |zs| !in UnreleasedPlaces(zs)
  {
  }

  /** A page can be read exactly when no line refuses it, its last paragraph names
      something, and it has one Unreleased heading. */
  lemma ReadableExactly(ref: Option<Version>, zs: seq<Line>)
    requires Marked(zs)
    ensures Finish(Fold(ref, 0, START, zs)).Ok? <==>
      NoneRefuses(ref, zs, |zs|) && (InPara(ref, zs, |zs|) ==> HasNamed(ref, zs, |zs|)) && |UnreleasedPlaces(zs)| == 1
  {
    assert zs[..|zs|] == zs;
    RunReads(ref, zs, |zs|, Fold(ref, 0, START, zs));
    if Fold(ref, 0, START, zs).Ok? {
      UnreleasedCounted(ref, zs, |zs|);
    }
  }

  /** What reading a page against a ref gives, and when it gives anything: every
      fence is closed and the marked lines can be read. */
  lemma PageReads(page: string, ref: string)
    ensures var lines, r := SplitPage(page), Semver(ref);
      var zs := Mark("", lines);
      (Parse(page, ref).Ok? <==>
        FenceAfter("", lines) == "" && NoneRefuses(r, zs, |zs|) && (InPara(r, zs, |zs|) ==> HasNamed(r, zs, |zs|)) &&
        |UnreleasedPlaces(zs)| == 1) &&
      (Parse(page, ref).Ok? ==> Parse(page, ref).value == Doc(Named(r, zs, |zs|), Versions(r, zs, |zs|), NoteCount(r, zs, |zs|)))
  {
    var lines, r := SplitPage(page), Semver(ref);
    var zs := Mark("", lines);
    MarkIsWell("", lines);
    ReadableExactly(r, zs);
    if Finish(Fold(r, 0, START, zs)).Ok? {
      DocTells(r, zs);
    }
  }
}
