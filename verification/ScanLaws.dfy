/** Laws of the notes state machine: what a run of lines can change, and what
    of its state later lines can tell apart. */
module ScanLaws {
  import opened Text
  import opened Notes
  import opened Seal

  /** Line numbers aside, the names a run collected. */
  function NoLines(cs: seq<Cover>): (r: seq<Cover>)
    ensures |r| == |cs|
    ensures forall i | 0 <= i < |cs| :: r[i] == cs[i].(line := 0)
  {
    if cs == [] then [] else [cs[0].(line := 0)] + NoLines(cs[1..])
  }

  /** What the rest of a section can tell apart: not line numbers, nor the
      name of the section, nor the lists of sealed sections and pending notes. */
  function Shape(s: State): State {
    s.(note := if s.note > 0 then 1 else 0,
       guided := s.note > 0 && s.guided,
       para := if s.para.Open? then Open(0, s.para.names) else NoPara,
       covers := NoLines(s.covers), section := "", sealed := [], pending := 0)
  }

  /** The version a line adds to the sealed list. */
  function Gained(ref: Option<Version>, k: Look): seq<string> {
    if k.IsTop() && k.what.VersionTop? && ReadsVersion(ref, k.what.number) then [k.what.version] else []
  }

  lemma NoLinesAppend(a: seq<Cover>, b: seq<Cover>)
    ensures NoLines(a + b) == NoLines(a) + NoLines(b)
  {
  }

  lemma ParaStepAlike(n: nat, s: State, m: nat, t: State, k: Look)
    requires s.para.Open? && t.para.Open? && Shape(s) == Shape(t)
    ensures ParaStep(n, s, k).Ok? <==> ParaStep(m, t, k).Ok?
    ensures ParaStep(n, s, k).Ok? ==> Shape(ParaStep(n, s, k).value) == Shape(ParaStep(m, t, k).value)
  {
    if k.names.Ok? {
      var a, b := Covers(k.names.value, n, ZoneClass(s.zone)), Covers(k.names.value, m, ZoneClass(s.zone));
      assert NoLines(a) == NoLines(b);
      NoLinesAppend(s.covers, a);
      NoLinesAppend(t.covers, b);
    }
  }

  lemma TopStepAlike(ref: Option<Version>, n: nat, s: State, m: nat, t: State, what: What)
    requires Shape(s) == Shape(t)
    requires what.VersionTop? ==> (what.version in s.sealed <==> what.version in t.sealed) || !ReadsVersion(ref, what.number)
    ensures TopStep(ref, n, s, what).Ok? <==> TopStep(ref, m, t, what).Ok?
    ensures TopStep(ref, n, s, what).Ok? ==> Shape(TopStep(ref, n, s, what).value) == Shape(TopStep(ref, m, t, what).value)
  {
  }

  lemma BodyStepAlike(n: nat, s: State, m: nat, t: State, k: Look)
    requires n > 0 && m > 0 && Shape(s) == Shape(t)
    ensures BodyStep(n, s, k).Ok? <==> BodyStep(m, t, k).Ok?
    ensures BodyStep(n, s, k).Ok? ==> Shape(BodyStep(n, s, k).value) == Shape(BodyStep(m, t, k).value)
  {
    match k.what
    case CoversLine =>
      if s.note > 0 && s.guided {
        ParaStepAlike(n, s.(para := Open(n, 0)), m, t.(para := Open(m, 0)), k);
      }
    case UnstableSub =>
    case Sub3 =>
    case Sub4 =>
    case _ =>
  }

  /** Two runs of the same shape take a line alike. */
  lemma StepAlike(ref: Option<Version>, n: nat, s: State, m: nat, t: State, k: Look)
    requires n > 0 && m > 0 && Shape(s) == Shape(t)
    requires forall v | v in Gained(ref, k) :: v in s.sealed <==> v in t.sealed
    ensures Step(ref, n, s, k).Ok? <==> Step(ref, m, t, k).Ok?
    ensures Step(ref, n, s, k).Ok? ==> Shape(Step(ref, n, s, k).value) == Shape(Step(ref, m, t, k).value)
  {
    if s.para.Open? && !k.EndsPara() {
      ParaStepAlike(n, s, m, t, k);
    } else if Close(s).Ok? {
      var s1, t1 := Close(s).value, Close(t).value;
      assert Shape(s1) == Shape(t1);
      if k.IsTop() {
        if k.what.VersionTop? && ReadsVersion(ref, k.what.number) {
          assert k.what.version in Gained(ref, k);
        }
        TopStepAlike(ref, n, s1, m, t1, k.what);
      } else if k.kind.Plain? {
        BodyStepAlike(n, s1, m, t1, k);
      }
    }
  }

  /** What one line adds to the lists the shape leaves out. */
  lemma StepGains(ref: Option<Version>, n: nat, s: State, k: Look)
    requires WellLooked(k)
    requires Step(ref, n, s, k).Ok?
    ensures var t := Step(ref, n, s, k).value;
            t.sealed == s.sealed + Gained(ref, k) &&
            t.unreleased == s.unreleased + (if IsUnreleased(k) then 1 else 0) &&
            (!k.IsTop() ==> t.section == s.section) &&
            (k.IsTop() && !IsUnreleased(k) ==> t.section != UNRELEASED && t.pending == s.pending) &&
            (s.section != UNRELEASED ==> t.pending == s.pending) &&
            t.pending >= s.pending
  {
  }

  function AllGained(ref: Option<Version>, zs: seq<Line>): seq<string> {
    if zs == [] then [] else Gained(ref, zs[0].look) + AllGained(ref, zs[1..])
  }

  predicate HasNoUnreleased(zs: seq<Line>) {
    forall z | z in zs :: !IsUnreleased(z.look)
  }

  predicate Unnamed(zs: seq<Line>, version: string) {
    forall z | z in zs :: !NamesVersion(z.look, version)
  }

  predicate NoHeading(zs: seq<Line>) {
    forall z | z in zs :: !z.look.IsTop()
  }

  /** Two runs of the same shape take the same lines alike, when the versions
      the lines name were sealed before in both runs or in neither. */
  lemma {:induction false} FoldAlike(ref: Option<Version>, n: nat, s: State, m: nat, t: State, zs: seq<Line>)
    requires Marked(zs)
    requires Shape(s) == Shape(t)
    requires forall v | v in AllGained(ref, zs) :: v in s.sealed <==> v in t.sealed
    ensures Fold(ref, n, s, zs).Ok? <==> Fold(ref, m, t, zs).Ok?
    ensures Fold(ref, n, s, zs).Ok? ==> Shape(Fold(ref, n, s, zs).value) == Shape(Fold(ref, m, t, zs).value)
    decreases |zs|
  {
    if zs != [] {
      var k := zs[0].look;
      StepAlike(ref, n + 1, s, m + 1, t, k);
      if Step(ref, n + 1, s, k).Ok? {
        StepGains(ref, n + 1, s, k);
        StepGains(ref, m + 1, t, k);
        FoldAlike(ref, n + 1, Step(ref, n + 1, s, k).value, m + 1, Step(ref, m + 1, t, k).value, zs[1..]);
      }
    }
  }

  lemma {:induction false} FoldGains(ref: Option<Version>, n: nat, s: State, zs: seq<Line>)
    requires Marked(zs)
    requires Fold(ref, n, s, zs).Ok?
    ensures var t := Fold(ref, n, s, zs).value;
            t.sealed == s.sealed + AllGained(ref, zs) && t.unreleased >= s.unreleased && t.pending >= s.pending &&
            (s.section != UNRELEASED && t.unreleased == s.unreleased ==>
               t.pending == s.pending && t.section != UNRELEASED)
    ensures HasNoUnreleased(zs) <==> Fold(ref, n, s, zs).value.unreleased == s.unreleased
    decreases |zs|
  {
    if zs != [] {
      var k, rest := zs[0].look, zs[1..];
      var t := Step(ref, n + 1, s, k).value;
      StepGains(ref, n + 1, s, k);
      FoldGains(ref, n + 1, t, rest);
      GainsAdd(s, t, Fold(ref, n + 1, t, rest).value, Gained(ref, k), AllGained(ref, rest), k.IsTop(), IsUnreleased(k));
      assert zs == [zs[0]] + rest;
    }
  }

  /** A line from s to t, and the lines after it from t to u. */
  lemma GainsAdd(s: State, t: State, u: State, here: seq<string>, later: seq<string>, top: bool, unreleased: bool)
    requires t.sealed == s.sealed + here && t.unreleased == s.unreleased + (if unreleased then 1 else 0)
    requires (!top ==> t.section == s.section) && (top && !unreleased ==> t.section != UNRELEASED && t.pending == s.pending)
    requires (s.section != UNRELEASED ==> t.pending == s.pending) && t.pending >= s.pending
    requires u.sealed == t.sealed + later && u.unreleased >= t.unreleased && u.pending >= t.pending
    requires t.section != UNRELEASED && u.unreleased == t.unreleased ==> u.pending == t.pending && u.section != UNRELEASED
    ensures u.sealed == s.sealed + (here + later) && u.unreleased >= s.unreleased && u.pending >= s.pending
    ensures s.section != UNRELEASED && u.unreleased == s.unreleased ==> u.pending == s.pending && u.section != UNRELEASED
  {
  }

  /** What marking promises of every look. */
  predicate WellLooked(k: Look) {
    (k.what.VersionTop? ==> k.what.version != UNRELEASED) &&
    (k.IsTop() || k.what.UnstableSub? || k.what.Sub3? || k.what.Sub4? ==> k.visible && k.hash) &&
    (k.what.CoversLine? || k.what.PlaceholderLine? ==> k.visible && !k.hash) &&
    (k.what.PlaceholderLine? ==> k.names == Ok([]))
  }

  predicate Marked(zs: seq<Line>) {
    forall z | z in zs :: WellLooked(z.look)
  }
}
