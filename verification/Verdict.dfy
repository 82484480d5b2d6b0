/** The verdict on the notes: cover.matches, breakCount and the matching loop of
    notesReport in cmd/terva-apidiff/notes.go. */
module Verdict {
  import opened Text
  import opened Api
  import opened Notes
  import opened Tally
  import NotesLoops

  // The sentence a sealed section opens with

  /** A version is shown by its numbers, anything else as it is. */
  function SinceName(ref: string): string {
    match Semver(ref)
    case Some(v) => "v" + Decimal(v.major) + "." + Decimal(v.minor) + "." + Decimal(v.patch)
    case None => ref
  }

  method BreakCount(breaks: seq<Breakage>, ref: string) returns (text: string)
    ensures text == CountsText(CountsOfBreaks(breaks), SinceName(ref))
  {
    var c := CountBreaks(breaks);
    var since := ref;
    var v := Semver(ref);
    if v.Some? {
      since := "v" + Decimal(v.value.major) + "." + Decimal(v.value.minor) + "." + Decimal(v.value.patch);
    }
    text := CountsText(c, since);
  }

  // Matching

  predicate CoversPackage(c: Name, pkg: string) {
    pkg == c.pkg || (c.tree && HasPrefix(pkg, c.pkg + "/"))
  }

  /** matches: a name covers the whole package, one symbol, or a type with its
      members. */
  predicate Matches(c: Name, b: Breakage) {
    CoversPackage(c, b.pkg) && (c.symbol == "" || b.name == c.symbol || HasPrefix(b.name, c.symbol + "."))
  }

  /** A cover counts for breaks of its own class. */
  predicate NotesBreak(c: Cover, b: Breakage) {
    b.cls == Some(c.cls) && Matches(c.name, b)
  }

  predicate IsNoted(covers: seq<Cover>, b: Breakage) {
    exists i :: 0 <= i < |covers| && NotesBreak(covers[i], b)
  }

  predicate IsUsed(breaks: seq<Breakage>, c: Cover) {
    exists i :: 0 <= i < |breaks| && NotesBreak(c, breaks[i])
  }

  /** The stable breaks without a note, in order. */
  function MissingOf(covers: seq<Cover>, breaks: seq<Breakage>): seq<Breakage> {
    if breaks == [] then []
    else
      var b := breaks[|breaks| - 1];
      MissingOf(covers, breaks[..|breaks| - 1]) + if Unnoted(covers, b) then [b] else []
  }

  /** The covers that name no break of their class, in order. */
  function StaleOf(breaks: seq<Breakage>, covers: seq<Cover>): seq<Cover> {
    if covers == [] then []
    else
      var c := covers[|covers| - 1];
      StaleOf(breaks, covers[..|covers| - 1]) + if IsUsed(breaks, c) then [] else [c]
  }

  /** The sealed sections that are not the release's. */
  function OtherSections<T(==)>(sealed: seq<T>, release: T): seq<T> {
    if sealed == [] then []
    else
      var s := sealed[|sealed| - 1];
      OtherSections(sealed[..|sealed| - 1], release) + if s == release then [] else [s]
  }

  /** pending is the number of notes that still stand under Unreleased. */
  datatype Findings = Findings(missing: seq<Breakage>, stale: seq<Cover>, pending: nat, others: seq<string>)

  predicate Passes(f: Findings) {
    f.missing == [] && f.stale == [] && f.pending == 0 && f.others == []
  }

  /** What is found. No release is given as "". */
  function Judge(doc: Doc, breaks: seq<Breakage>, release: string): Findings {
    Findings(MissingOf(doc.covers, breaks), StaleOf(breaks, doc.covers),
      if release == "" then 0 else doc.pending, if release == "" then [] else OtherSections(doc.sealed, release))
  }

  // The loops

  /** The row of used marks after the breaks before n. */
  ghost predicate MarksUsed(used: seq<bool>, covers: seq<Cover>, breaks: seq<Breakage>) {
    |used| == |covers| && forall i | 0 <= i < |covers| :: used[i] <==> IsUsed(breaks, covers[i])
  }

  lemma UsedMore(breaks: seq<Breakage>, b: Breakage, c: Cover)
    ensures IsUsed(breaks + [b], c) <==> IsUsed(breaks, c) || NotesBreak(c, b)
  {
    if IsUsed(breaks, c) {
      var i :| 0 <= i < |breaks| && NotesBreak(c, breaks[i]);
      assert (breaks + [b])[i] == breaks[i];
    }
    if NotesBreak(c, b) {
      assert (breaks + [b])[|breaks|] == b;
    }
  }

  /** One break against every cover. */
  method MatchBreak(covers: seq<Cover>, b: Breakage, used: array<bool>, ghost breaks: seq<Breakage>) returns (noted: bool)
    requires MarksUsed(used[..], covers, breaks)
    modifies used
    ensures noted <==> IsNoted(covers, b)
    ensures MarksUsed(used[..], covers, breaks + [b])
  {
    noted := false;
    for i := 0 to |covers|
      invariant noted <==> exists j :: 0 <= j < i && NotesBreak(covers[j], b)
      invariant forall j | 0 <= j < i :: used[j] <==> IsUsed(breaks, covers[j]) || NotesBreak(covers[j], b)
      invariant forall j | i <= j < |covers| :: used[j] <==> IsUsed(breaks, covers[j])
    {
      if Some(covers[i].cls) == b.cls && Matches(covers[i].name, b) {
        used[i], noted := true, true;
      }
    }
    forall i | 0 <= i < |covers| ensures used[..][i] <==> IsUsed(breaks + [b], covers[i]) {
      UsedMore(breaks, b, covers[i]);
    }
  }

  method JudgeNotes(doc: Doc, breaks: seq<Breakage>, release: string) returns (f: Findings, ok: bool)
    ensures f == Judge(doc, breaks, release) && (ok <==> Passes(f))
  {
    var covers := doc.covers;
    var used := new bool[|covers|](_ => false);
    var missing := [];
    assert MarksUsed(used[..], covers, []);
    for n := 0 to |breaks|
      invariant MarksUsed(used[..], covers, breaks[..n]) && missing == MissingOf(covers, breaks[..n])
    {
      assert breaks[..n + 1][..n] == breaks[..n];
      assert breaks[..n + 1] == breaks[..n] + [breaks[n]];
      var noted := MatchBreak(covers, breaks[n], used, breaks[..n]);
      if breaks[n].cls == Some(Stable) && !noted {
        missing := missing + [breaks[n]];
      }
    }
    assert breaks[..|breaks|] == breaks;
    var stale := [];
    for i := 0 to |covers|
      invariant stale == StaleOf(breaks, covers[..i])
    {
      assert covers[..i + 1][..i] == covers[..i];
      assert used[i] == used[..][i];
      if !used[i] {
        stale := stale + [covers[i]];
      }
    }
    assert covers[..|covers|] == covers;
    var pending, others := 0, [];
    if release != "" {
      pending := doc.pending;
      others := ListOthers(doc.sealed, release);
    }
    f := Findings(missing, stale, pending, others);
    ok := |missing| == 0 && |stale| == 0 && pending == 0 && |others| == 0;
  }

  method ListOthers(sealed: seq<string>, release: string) returns (others: seq<string>)
    ensures others == OtherSections(sealed, release)
  {
    others := [];
    for i := 0 to |sealed|
      invariant others == OtherSections(sealed[..i], release)
    {
      assert sealed[..i + 1][..i] == sealed[..i];
      if sealed[i] != release {
        others := others + [sealed[i]];
      }
    }
    assert sealed[..|sealed|] == sealed;
  }

  datatype Refusal = BadRelease | BadPage(why: ParseError)

  /** notesReport, on the packages that differ from the ref: what is found, and
      whether the check passes. */
  method NotesReport(page: string, pkgs: seq<SincePkg>, ref: string, release: string)
      returns (r: Result<Findings, Refusal>, ok: bool)
    ensures release != "" && !IsVersion(release) ==> r == Err(BadRelease)
    ensures release == "" || IsVersion(release) ==>
      match Parse(page, ref)
      case Err(e) => r == Err(BadPage(e))
      case Ok(doc) => r == Ok(Judge(doc, BreaksSince(pkgs), release))
    ensures ok <==> r.Ok? && Passes(r.value)
  {
    if release != "" && !IsVersion(release) {
      return Err(BadRelease), false;
    }
    var doc := NotesLoops.ParseNotes(page, ref);
    if doc.Err? {
      return Err(BadPage(doc.error)), false;
    }
    var breaks := ListBreaks(pkgs);
    var f;
    f, ok := JudgeNotes(doc.value, breaks, release);
    r := Ok(f);
  }

  // The verdict

  predicate Unnoted(covers: seq<Cover>, b: Breakage) {
    b.cls == Some(Stable) && !IsNoted(covers, b)
  }

  lemma {:induction false} NothingMissing(covers: seq<Cover>, breaks: seq<Breakage>)
    ensures MissingOf(covers, breaks) == [] <==> forall i | 0 <= i < |breaks| :: !Unnoted(covers, breaks[i])
  {
    if breaks != [] {
      var init, b := breaks[..|breaks| - 1], breaks[|breaks| - 1];
      NothingMissing(covers, init);
      var missing, unnoted := MissingOf(covers, init), Unnoted(covers, b);
      assert MissingOf(covers, breaks) == missing + if unnoted then [b] else [];
      assert breaks == init + [b];
    }
  }

  lemma {:induction false} NothingStale(breaks: seq<Breakage>, covers: seq<Cover>)
    ensures StaleOf(breaks, covers) == [] <==> forall i | 0 <= i < |covers| :: IsUsed(breaks, covers[i])
  {
    if covers != [] {
      NothingStale(breaks, covers[..|covers| - 1]);
    }
  }

  lemma {:induction false} NoOtherSection<T>(sealed: seq<T>, release: T)
    ensures OtherSections(sealed, release) == [] <==> forall i | 0 <= i < |sealed| :: sealed[i] == release
  {
    if sealed != [] {
      var init, last := sealed[..|sealed| - 1], sealed[|sealed| - 1];
      NoOtherSection(init, release);
      assert sealed == init + [last];
    }
  }

  /** The check passes exactly when every stable break has a stable cover, every
      cover names a break of its class and, for a release, no note is pending
      and no other version is sealed. */
  lemma VerdictIsExact(doc: Doc, breaks: seq<Breakage>, release: string)
    ensures Passes(Judge(doc, breaks, release)) <==>
      (forall i | 0 <= i < |breaks| && breaks[i].cls == Some(Stable) :: IsNoted(doc.covers, breaks[i])) &&
      (forall i | 0 <= i < |doc.covers| :: IsUsed(breaks, doc.covers[i])) &&
      (release != "" ==> doc.pending == 0 && forall i | 0 <= i < |doc.sealed| :: doc.sealed[i] == release)
  {
    NothingMissing(doc.covers, breaks);
    NothingStale(breaks, doc.covers);
    NoOtherSection(doc.sealed, release);
  }
}
