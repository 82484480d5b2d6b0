/** The lines a seal writes: a fresh Unreleased section and the heading of the
    version. */
module SealOpening {
  import opened Text
  import opened Notes
  import opened Seal
  import opened ScanLaws
  import opened Marking
  import opened Written

  /** A count that opens a section without being read as anything else. */
  predicate PlainCount(count: string) {
    count == "" || (HasPrefix(count, "Since ") && '\n' !in count && NoReturn(count))
  }

  /** A line that changes nothing outside a note. */
  predicate Quiet(k: Look) {
    k.kind.Plain? && (k.what.Prose? || k.what.PlaceholderLine?)
  }

  // How a marking sees the lines a seal writes

  predicate SeesQuiet(mk: Marker, text: string) {
    Quiet(mk.look("", text))
  }

  predicate SeesUnreleased(mk: Marker) {
    mk.look("", UNRELEASED_HEADING).kind.Plain? && mk.look("", UNRELEASED_HEADING).what.UnreleasedTop?
  }

  predicate SeesUnstable(mk: Marker) {
    mk.look("", UNSTABLE_HEADING).kind.Plain? && mk.look("", UNSTABLE_HEADING).what.UnstableSub?
  }

  predicate SeesVersion(mk: Marker, version: string) {
    mk.look("", "## " + version).kind.Plain? &&
    mk.look("", "## " + version).what == VersionTop(version, HeadingVersion(version))
  }

  ghost predicate SeesBlank(mk: Marker) {
    forall f :: !mk.look(f, "").visible
  }

  ghost predicate SeesWell(mk: Marker) {
    forall f, text :: WellLooked(mk.look(f, text))
  }

  /** Everything the proof of the seal needs to know of a marking. */
  ghost predicate Faithful(mk: Marker, version: string, count: string) {
    Tame(mk) && SeesWell(mk) && SeesQuiet(mk, "") && SeesQuiet(mk, PLACEHOLDER) && SeesUnreleased(mk) && SeesUnstable(mk) &&
    SeesVersion(mk, version) && (count != "" ==> SeesQuiet(mk, count)) && SeesBlank(mk)
  }

  lemma {:induction false} PlainMarks(mk: Marker, lines: seq<string>)
    requires Tame(mk)
    requires forall i | 0 <= i < |lines| :: mk.look("", lines[i]).kind.Plain?
    ensures |MarkWith(mk, "", lines)| == |lines|
    ensures forall i | 0 <= i < |lines| :: MarkWith(mk, "", lines)[i].look == mk.look("", lines[i])
    ensures FenceWith(mk, "", lines) == ""
  {
    if lines != [] {
      var rest := lines[1..];
      assert forall i | 0 <= i < |rest| :: rest[i] == lines[i + 1];
      PlainMarks(mk, rest);
      assert mk.look("", lines[0]).kind.Plain?;
      forall i | 0 < i < |lines| ensures MarkWith(mk, "", lines)[i].look == mk.look("", lines[i]) {
        assert MarkWith(mk, "", lines)[i] == MarkWith(mk, "", rest)[i - 1];
      }
    }
  }

  lemma {:induction false} QuietFold(ref: Option<Version>, n: nat, s: State, zs: seq<Line>)
    requires s.note == 0 && s.para.NoPara?
    requires forall i | 0 <= i < |zs| :: Quiet(zs[i].look)
    ensures Fold(ref, n, s, zs) == Ok(s)
    decreases |zs|
  {
    if zs != [] {
      assert Step(ref, n + 1, s, zs[0].look) == Ok(s);
      QuietFold(ref, n + 1, s, zs[1..]);
    }
  }

  // Reading them

  /** The state after the lines a seal writes, from one in which the page was
      read up to the Unreleased heading. */
  function AfterOpening(ref: Option<Version>, a: State, version: string): State {
    var t := a.(unreleased := a.unreleased + 1, note := 0, para := NoPara);
    if ReadsVersion(ref, HeadingVersion(version))
    then t.(zone := InStable, section := version, sealed := a.sealed + [version])
    else t.(zone := Skip, section := "")
  }

  /** A line that leaves no note open, then lines that say nothing there. */
  lemma HeadThenQuiet(ref: Option<Version>, n: nat, s: State, zs: seq<Line>, rest: seq<Line>)
    requires zs != [] && forall i | 1 <= i < |zs| :: Quiet(zs[i].look)
    requires Step(ref, n + 1, s, zs[0].look).Ok?
    requires Step(ref, n + 1, s, zs[0].look).value.note == 0 && Step(ref, n + 1, s, zs[0].look).value.para.NoPara?
    ensures Fold(ref, n, s, zs + rest) == Fold(ref, n + |zs|, Step(ref, n + 1, s, zs[0].look).value, rest)
  {
    FoldAppend(ref, n, s, zs, rest);
    QuietFold(ref, n + 1, Step(ref, n + 1, s, zs[0].look).value, zs[1..]);
  }

  lemma UnreleasedStep(ref: Option<Version>, n: nat, a: State, k: Look)
    requires WellLooked(k) && IsUnreleased(k) && Close(a).Ok?
    ensures Step(ref, n, a, k) ==
            Ok(a.(unreleased := a.unreleased + 1, note := 0, para := NoPara, zone := InStable, section := UNRELEASED))
  {
  }

  lemma UnstableStep(ref: Option<Version>, n: nat, a: State, k: Look)
    requires WellLooked(k) && IsUnstableSub(k) && a.zone.InStable? && a.para.NoPara?
    ensures Step(ref, n, a, k) == Ok(a.(zone := InUnstable, note := 0))
  {
  }

  lemma VersionStep(ref: Option<Version>, n: nat, a: State, k: Look)
    requires WellLooked(k) && k.kind.Plain? && k.what.VersionTop? && a.para.NoPara? && a.unreleased > 0
    requires ReadsVersion(ref, k.what.number) ==> k.what.version !in a.sealed
    ensures k.what.number == HeadingVersion(k.what.version) ==>
              Step(ref, n, a, k) == Ok(AfterOpening(ref, a.(unreleased := a.unreleased - 1), k.what.version))
  {
  }

  lemma OpeningFold(ref: Option<Version>, n: nat, a: State, zs: seq<Line>, version: string)
    requires |zs| >= 9 && Close(a).Ok? && (ReadsVersion(ref, HeadingVersion(version)) ==> version !in a.sealed)
    requires WellLooked(zs[0].look) && WellLooked(zs[4].look) && WellLooked(zs[8].look)
    requires IsUnreleased(zs[0].look)
    requires IsUnstableSub(zs[4].look)
    requires zs[8].look.kind.Plain? && zs[8].look.what == VersionTop(version, HeadingVersion(version))
    requires forall i | 0 < i < |zs| && i != 4 && i != 8 :: Quiet(zs[i].look)
    ensures Fold(ref, n, a, zs) == Ok(AfterOpening(ref, a, version))
  {
    UnreleasedStep(ref, n + 1, a, zs[0].look);
    var b := Step(ref, n + 1, a, zs[0].look).value;
    UnstableStep(ref, n + 5, b, zs[4].look);
    var c := Step(ref, n + 5, b, zs[4].look).value;
    VersionStep(ref, n + 9, c, zs[8].look);
    assert zs == zs[..4] + zs[4..] && zs[4..] == zs[4..8] + zs[8..] && zs[8..] == zs[8..] + [];
    HeadThenQuiet(ref, n, a, zs[..4], zs[4..]);
    HeadThenQuiet(ref, n + 4, b, zs[4..8], zs[8..]);
    HeadThenQuiet(ref, n + 8, c, zs[8..], []);
  }

  /** Reading the lines a seal writes opens the section of its version. */
  lemma OpeningRun(mk: Marker, ref: Option<Version>, n: nat, a: State, version: string, count: string)
    requires Faithful(mk, version, count) && Close(a).Ok?
    requires ReadsVersion(ref, HeadingVersion(version)) ==> version !in a.sealed
    ensures Fold(ref, n, a, MarkWith(mk, "", Opening(version, count))) == Ok(AfterOpening(ref, a, version))
    ensures FenceWith(mk, "", Opening(version, count)) == ""
  {
    var lines := Opening(version, count);
    forall i | 0 <= i < |lines| ensures mk.look("", lines[i]).kind.Plain? {
      if i >= 9 {
        assert lines[i] == "" || lines[i] == count;
      }
    }
    PlainMarks(mk, lines);
    OpeningFold(ref, n, a, MarkWith(mk, "", lines), version);
  }
}
