/** What is read of a page: which sections are read, which lines of them name
    covers and of which class, which versions are sealed and how many notes are
    pending, said on the lines alone. */
module NotesMeaning {
  import opened Text
  import opened Api
  import opened Notes
  import opened Seal
  import opened ScanLaws

  // Where a line stands

  /** The section under this heading is read. */
  predicate OpensSection(ref: Option<Version>, k: Look) {
    k.kind.Plain? && (k.what.UnreleasedTop? || (k.what.VersionTop? && ReadsVersion(ref, k.what.number)))
  }

  /** Line t is the last heading of the first rank before line n. */
  predicate IsUnder(zs: seq<Line>, n: nat, t: nat) {
    t < n <= |zs| && zs[t].look.IsTop() && forall j | t < j < n :: !zs[j].look.IsTop()
  }

  /** A line at n would stand in a section that is read. */
  ghost predicate InSection(ref: Option<Version>, zs: seq<Line>, n: nat) {
    exists t: nat :: IsUnder(zs, n, t) && OpensSection(ref, zs[t].look)
  }

  ghost predicate UnderUnreleased(zs: seq<Line>, n: nat) {
    exists t: nat :: IsUnder(zs, n, t) && IsUnreleased(zs[t].look)
  }

  /** The unstable heading stands between the heading of the section and n. */
  ghost predicate UnderUnstable(ref: Option<Version>, zs: seq<Line>, n: nat) {
    InSection(ref, zs, n) &&
    exists t: nat, u: nat :: IsUnder(zs, n, t) && t < u < n && IsUnstableSub(zs[u].look)
  }

  /** A line at n would go on with a Covers: paragraph. */
  ghost predicate InPara(ref: Option<Version>, zs: seq<Line>, n: nat) {
    exists p: nat :: p < n <= |zs| && StartsPara(ref, zs, p) && GoesOn(zs, p, n)
  }

  /** No line between p and n ends a paragraph. */
  predicate GoesOn(zs: seq<Line>, p: nat, n: nat)
    requires n <= |zs|
  {
    forall x | p < x < n :: !zs[x].look.EndsPara()
  }

  ghost predicate StartsPara(ref: Option<Version>, zs: seq<Line>, p: nat) {
    p < |zs| && zs[p].look.kind.Plain? && zs[p].look.what.CoversLine? && InSection(ref, zs, p)
  }

  /** The line names covers. */
  ghost predicate NamesCovers(ref: Option<Version>, zs: seq<Line>, n: nat) {
    n < |zs| && (StartsPara(ref, zs, n) || (InPara(ref, zs, n) && !zs[n].look.EndsPara()))
  }

  /** The line is the heading of a note. */
  ghost predicate HeadsNote(ref: Option<Version>, zs: seq<Line>, n: nat) {
    n < |zs| && zs[n].look.kind.Plain? && InSection(ref, zs, n) &&
    if UnderUnstable(ref, zs, n) then zs[n].look.what.Sub4? else zs[n].look.what.Sub3?
  }

  // What the lines say

  /** The names of a line, with its number and class. */
  ghost function CoversAt(ref: Option<Version>, zs: seq<Line>, n: nat): seq<Cover>
    requires n < |zs|
  {
    var k := zs[n].look;
    if NamesCovers(ref, zs, n) && k.names.Ok? then
      seq(|k.names.value|, i requires 0 <= i < |k.names.value| =>
        Cover(n + 1, k.names.value[i], if UnderUnstable(ref, zs, n) then Unstable else Stable))
    else []
  }

  /** The names of the covers of the first n lines, each with its line and the
      class of the part it stands in. */
  ghost function Named(ref: Option<Version>, zs: seq<Line>, n: nat): seq<Cover>
    requires n <= |zs|
  {
    if n == 0 then [] else Named(ref, zs, n - 1) + CoversAt(ref, zs, n - 1)
  }

  ghost function Versions(ref: Option<Version>, zs: seq<Line>, n: nat): seq<string>
    requires n <= |zs|
  {
    if n == 0 then []
    else
      var k := zs[n - 1].look;
      Versions(ref, zs, n - 1) +
      if k.kind.Plain? && k.what.VersionTop? && ReadsVersion(ref, k.what.number) then [k.what.version] else []
  }

  /** How many notes of the first n lines stand under Unreleased. */
  ghost function NoteCount(ref: Option<Version>, zs: seq<Line>, n: nat): nat
    requires n <= |zs|
  {
    if n == 0 then 0
    else NoteCount(ref, zs, n - 1) + if HeadsNote(ref, zs, n - 1) && UnderUnreleased(zs, n - 1) then 1 else 0
  }

  // The state after some lines

  ghost predicate Knows(ref: Option<Version>, zs: seq<Line>, n: nat, s: State)
    requires n <= |zs|
  {
    (s.zone.Skip? <==> !InSection(ref, zs, n)) && (s.zone.InUnstable? <==> UnderUnstable(ref, zs, n)) &&
    (s.section == UNRELEASED <==> UnderUnreleased(zs, n)) && (s.para.Open? <==> InPara(ref, zs, n))
  }

  ghost predicate Tells(ref: Option<Version>, zs: seq<Line>, n: nat, s: State)
    requires n <= |zs|
  {
    s.covers == Named(ref, zs, n) && s.sealed == Versions(ref, zs, n) && s.pending == NoteCount(ref, zs, n) &&
    AllRead(ref, zs, n)
  }

  /** The names of the first n lines could be read. */
  ghost predicate AllRead(ref: Option<Version>, zs: seq<Line>, n: nat)
    requires n <= |zs|
  {
    forall j: nat | j < n && NamesCovers(ref, zs, j) :: zs[j].look.names.Ok?
  }

  // One line more

  lemma UnderMore(zs: seq<Line>, n: nat, t: nat)
    requires n < |zs|
    ensures IsUnder(zs, n + 1, t) <==> if zs[n].look.IsTop() then t == n else IsUnder(zs, n, t)
  {
  }

  lemma SectionMore(ref: Option<Version>, zs: seq<Line>, n: nat)
    requires n < |zs|
    ensures InSection(ref, zs, n + 1) <==> if zs[n].look.IsTop() then OpensSection(ref, zs[n].look) else InSection(ref, zs, n)
    ensures UnderUnreleased(zs, n + 1) <==> if zs[n].look.IsTop() then IsUnreleased(zs[n].look) else UnderUnreleased(zs, n)
  {
    forall t ensures IsUnder(zs, n + 1, t) <==> if zs[n].look.IsTop() then t == n else IsUnder(zs, n, t) {
      UnderMore(zs, n, t);
    }
  }

  lemma UnstableMore(ref: Option<Version>, zs: seq<Line>, n: nat)
    requires n < |zs|
    ensures UnderUnstable(ref, zs, n + 1) <==>
            !zs[n].look.IsTop() && InSection(ref, zs, n) && (UnderUnstable(ref, zs, n) || IsUnstableSub(zs[n].look))
  {
    SectionMore(ref, zs, n);
    forall t ensures IsUnder(zs, n + 1, t) <==> if zs[n].look.IsTop() then t == n else IsUnder(zs, n, t) {
      UnderMore(zs, n, t);
    }
    if UnderUnstable(ref, zs, n + 1) {
      var t: nat, u: nat :| IsUnder(zs, n + 1, t) && t < u < n + 1 && IsUnstableSub(zs[u].look);
      assert u < n ==> IsUnder(zs, n, t) && t < u < n;
    }
    if !zs[n].look.IsTop() && InSection(ref, zs, n) {
      if UnderUnstable(ref, zs, n) {
        var t: nat, u: nat :| IsUnder(zs, n, t) && t < u < n && IsUnstableSub(zs[u].look);
        assert IsUnder(zs, n + 1, t) && t < u < n + 1;
      }
      if IsUnstableSub(zs[n].look) {
        var t: nat :| IsUnder(zs, n, t) && OpensSection(ref, zs[t].look);
        assert IsUnder(zs, n + 1, t) && t < n < n + 1;
      }
    }
  }

  lemma ParaMore(ref: Option<Version>, zs: seq<Line>, n: nat)
    requires n < |zs|
    ensures InPara(ref, zs, n + 1) <==> StartsPara(ref, zs, n) || (InPara(ref, zs, n) && !zs[n].look.EndsPara())
  {
    forall p: nat | p < n ensures GoesOn(zs, p, n + 1) <==> GoesOn(zs, p, n) && !zs[n].look.EndsPara() {
      GoesOnMore(zs, p, n);
    }
    assert GoesOn(zs, n, n + 1);
  }

  lemma GoesOnMore(zs: seq<Line>, p: nat, n: nat)
    requires p < n < |zs|
    ensures GoesOn(zs, p, n + 1) <==> GoesOn(zs, p, n) && !zs[n].look.EndsPara()
  {
  }

  lemma StepZone(ref: Option<Version>, n: nat, s: State, k: Look, t: State)
    requires WellLooked(k) && Step(ref, n + 1, s, k) == Ok(t)
    ensures t.zone.Skip? <==> if k.IsTop() then !OpensSection(ref, k) else s.zone.Skip?
    ensures t.zone.InUnstable? <==> !k.IsTop() && !s.zone.Skip? && (s.zone.InUnstable? || IsUnstableSub(k))
    ensures t.section == UNRELEASED <==> if k.IsTop() then IsUnreleased(k) else s.section == UNRELEASED
  {
    assert |UNRELEASED| > 0;
  }

  lemma StepOpens(ref: Option<Version>, n: nat, s: State, k: Look, t: State)
    requires WellLooked(k) && Step(ref, n + 1, s, k) == Ok(t)
    ensures t.para.Open? <==>
      (k.kind.Plain? && k.what.CoversLine? && !s.zone.Skip?) || (s.para.Open? && !k.EndsPara())
  {
  }

  /** What a line makes of the state, apart from its lists. */
  lemma StepKnows(ref: Option<Version>, zs: seq<Line>, n: nat, s: State, t: State)
    requires n < |zs| && WellLooked(zs[n].look) && Knows(ref, zs, n, s) && Step(ref, n + 1, s, zs[n].look) == Ok(t)
    ensures Knows(ref, zs, n + 1, t)
  {
    StepZone(ref, n, s, zs[n].look, t);
    StepOpens(ref, n, s, zs[n].look, t);
    SectionMore(ref, zs, n);
    UnstableMore(ref, zs, n);
    ParaMore(ref, zs, n);
  }

  lemma StepNames(ref: Option<Version>, zs: seq<Line>, n: nat, s: State, t: State)
    requires n < |zs| && WellLooked(zs[n].look) && Knows(ref, zs, n, s) && Step(ref, n + 1, s, zs[n].look) == Ok(t)
    ensures t.covers == s.covers + CoversAt(ref, zs, n)
    ensures NamesCovers(ref, zs, n) ==> zs[n].look.names.Ok?
  {
    var k := zs[n].look;
    if NamesCovers(ref, zs, n) {
      assert k.names.Ok?;
      assert Covers(k.names.value, n + 1, ZoneClass(s.zone)) == CoversAt(ref, zs, n);
    }
  }

  lemma StepCounts(ref: Option<Version>, zs: seq<Line>, n: nat, s: State, t: State)
    requires n < |zs| && WellLooked(zs[n].look) && Knows(ref, zs, n, s) && Step(ref, n + 1, s, zs[n].look) == Ok(t)
    ensures t.pending == s.pending + if HeadsNote(ref, zs, n) && UnderUnreleased(zs, n) then 1 else 0
  {
  }

  lemma StepTells(ref: Option<Version>, zs: seq<Line>, n: nat, s: State, t: State)
    requires n < |zs| && WellLooked(zs[n].look) && Knows(ref, zs, n, s) && Tells(ref, zs, n, s)
    requires Step(ref, n + 1, s, zs[n].look) == Ok(t)
    ensures Tells(ref, zs, n + 1, t)
  {
    StepNames(ref, zs, n, s, t);
    StepCounts(ref, zs, n, s, t);
    StepGains(ref, n + 1, s, zs[n].look);
    ListsMore(ref, zs, n);
    ReadMore(ref, zs, n);
  }

  lemma ListsMore(ref: Option<Version>, zs: seq<Line>, n: nat)
    requires n < |zs|
    ensures Named(ref, zs, n + 1) == Named(ref, zs, n) + CoversAt(ref, zs, n)
    ensures Versions(ref, zs, n + 1) == Versions(ref, zs, n) + Gained(ref, zs[n].look)
    ensures NoteCount(ref, zs, n + 1) ==
      NoteCount(ref, zs, n) + if HeadsNote(ref, zs, n) && UnderUnreleased(zs, n) then 1 else 0
  {
  }

  lemma ReadMore(ref: Option<Version>, zs: seq<Line>, n: nat)
    requires n < |zs| && AllRead(ref, zs, n) && (NamesCovers(ref, zs, n) ==> zs[n].look.names.Ok?)
    ensures AllRead(ref, zs, n + 1)
  {
  }

  // The whole page

  lemma StepRuns(ref: Option<Version>, zs: seq<Line>, n: nat)
    requires n < |zs| && Fold(ref, 0, START, zs[..n + 1]).Ok?
    ensures Fold(ref, 0, START, zs[..n]).Ok?
    ensures Step(ref, n + 1, Fold(ref, 0, START, zs[..n]).value, zs[n].look) == Fold(ref, 0, START, zs[..n + 1])
  {
    var init, z := zs[..n], zs[n];
    assert zs[..n + 1] == init + [z];
    FoldAppend(ref, 0, START, init, [z]);
    if Fold(ref, 0, START, init).Ok? {
      OneStep(ref, n, Fold(ref, 0, START, init).value, z);
    }
  }

  lemma {:induction false} RunTells(ref: Option<Version>, zs: seq<Line>, n: nat, s: State)
    requires Marked(zs) && n <= |zs| && Fold(ref, 0, START, zs[..n]) == Ok(s)
    ensures Knows(ref, zs, n, s) && Tells(ref, zs, n, s)
  {
    if n == 0 {
      assert zs[..0] == [];
      assert |UNRELEASED| > 0;
    } else {
      StepRuns(ref, zs, n - 1);
      var before := Fold(ref, 0, START, zs[..n - 1]).value;
      RunTells(ref, zs, n - 1, before);
      assert zs[n - 1] in zs;
      StepKnows(ref, zs, n - 1, before, s);
      StepTells(ref, zs, n - 1, before, s);
    }
  }

  lemma OneStep(ref: Option<Version>, n: nat, s: State, z: Line)
    ensures Fold(ref, n, s, [z]) == Step(ref, n + 1, s, z.look)
  {
    assert [z][0] == z && [z][1..] == [];
  }

  /** A page that can be read lists the names of its Covers: paragraphs in the
      sections that are read, in order, each with its line and as unstable under
      the unstable heading; the versions of those sections; and how many notes
      stand under Unreleased. */
  lemma DocTells(ref: Option<Version>, zs: seq<Line>)
    requires Marked(zs) && Finish(Fold(ref, 0, START, zs)).Ok?
    ensures Finish(Fold(ref, 0, START, zs)).value == Doc(Named(ref, zs, |zs|), Versions(ref, zs, |zs|), NoteCount(ref, zs, |zs|))
    ensures AllRead(ref, zs, |zs|)
  {
    assert zs[..|zs|] == zs;
    RunTells(ref, zs, |zs|, Fold(ref, 0, START, zs).value);
  }
}
