/** Sealing a whole page: sealNotes of cmd/terva-apidiff/notes.go, and the main
    results about it. */
module Sealing {
  import opened Text
  import opened Notes
  import opened Seal
  import opened ScanLaws
  import opened SealSection
  import opened Marking
  import opened Looks
  import opened Written
  import opened Returns
  import opened SealOpening

  datatype SealError = NotAVersion | Unreadable(cause: ParseError) | AlreadySealed(line: nat)

  datatype Sealed = Sealed(page: string, moved: nat)

  function PageLines(page: string): seq<Line> {
    Mark("", SplitPage(page))
  }

  lemma NoneBefore(zs: seq<Line>)
    requires UnreleasedAt(zs) == |zs|
    ensures HasNoUnreleased(zs)
  {
  }

  /** A page that can be read has an Unreleased heading. */
  lemma ReadHasUnreleased(page: string, ref: string)
    requires Parse(page, ref).Ok?
    ensures UnreleasedAt(PageLines(page)) < |PageLines(page)|
  {
    var zs := PageLines(page);
    MarkIsWell("", SplitPage(page));
    if UnreleasedAt(zs) == |zs| {
      NoneBefore(zs);
      FoldGains(Semver(ref), 0, START, zs);
    }
  }

  /** The page written back: one newline at its end. */
  function Write(lines: seq<string>): string {
    TrimNewlines(Join(lines, '\n')) + "\n"
  }

  /** The seal of a page that was read as zs, with notes pending. */
  function SealMarks(zs: seq<Line>, version: string, count: string, pending: nat): Result<Sealed, SealError>
    requires UnreleasedAt(zs) < |zs|
  {
    if VersionAt(zs, version) < |zs| then Err(AlreadySealed(VersionAt(zs, version) + 1))
    else Ok(Sealed(Write(SealedLines(zs, version, count)), pending))
  }

  function SealPage(page: string, version: string, count: string): Result<Sealed, SealError> {
    if !IsVersion(version) then Err(NotAVersion)
    else
      match Parse(page, "")
      case Err(e) => Err(Unreadable(e))
      case Ok(doc) =>
        ReadHasUnreleased(page, "");
        if doc.pending == 0 then Ok(Sealed(page, 0))
        else SealMarks(PageLines(page), version, count, doc.pending)
  }

  // Writing and reading again

  lemma {:induction false} MarkWithAppend(mk: Marker, f: string, a: seq<string>, b: seq<string>)
    ensures MarkWith(mk, f, a + b) == MarkWith(mk, f, a) + MarkWith(mk, FenceWith(mk, f, a), b)
    ensures FenceWith(mk, f, a + b) == FenceWith(mk, FenceWith(mk, f, a), b)
    decreases |a|
  {
    if a == [] {
      assert a + b == b;
    } else {
      assert (a + b)[0] == a[0] && (a + b)[1..] == a[1..] + b;
      MarkWithAppend(mk, mk.next(f, a[0]), a[1..], b);
    }
  }

  lemma {:induction false} EmptyRun(mk: Marker, ref: Option<Version>, f: string, n: nat, s: State, lines: seq<string>)
    requires Tame(mk) && SeesWell(mk) && SeesBlank(mk)
    requires forall i | 0 <= i < |lines| :: lines[i] == ""
    ensures FenceWith(mk, f, lines) == f
    ensures Closed(Fold(ref, n, s, MarkWith(mk, f, lines))) == Close(s)
    decreases |lines|
  {
    if lines != [] {
      assert lines[0] == "" && !mk.look(f, "").visible;
      BlankCloses(ref, n + 1, s, mk.look(f, ""));
      if Close(s).Ok? {
        EmptyRun(mk, ref, f, n + 1, Close(s).value, lines[1..]);
        assert Close(Close(s).value) == Close(s);
      } else {
        EmptyFence(mk, f, lines[1..]);
      }
    }
  }

  lemma {:induction false} EmptyFence(mk: Marker, f: string, lines: seq<string>)
    requires Tame(mk) && SeesBlank(mk)
    requires forall i | 0 <= i < |lines| :: lines[i] == ""
    ensures FenceWith(mk, f, lines) == f
    decreases |lines|
  {
    if lines != [] {
      assert lines[0] == "" && !mk.look(f, "").visible;
      EmptyFence(mk, f, lines[1..]);
    }
  }

  /** Empty lines at the end of a page say nothing. */
  lemma EmptyTail(mk: Marker, ref: Option<Version>, kept: seq<string>, tail: seq<string>)
    requires Tame(mk) && SeesWell(mk) && SeesBlank(mk)
    requires forall i | 0 <= i < |tail| :: tail[i] == ""
    ensures FenceWith(mk, "", kept + tail) == FenceWith(mk, "", kept)
    ensures Finish(Fold(ref, 0, START, MarkWith(mk, "", kept + tail))) == Finish(Fold(ref, 0, START, MarkWith(mk, "", kept)))
  {
    var f := FenceWith(mk, "", kept);
    MarkWithAppend(mk, "", kept, tail);
    EmptyFence(mk, f, tail);
    FoldAppend(ref, 0, START, MarkWith(mk, "", kept), MarkWith(mk, f, tail));
    var x := Fold(ref, 0, START, MarkWith(mk, "", kept));
    if x.Ok? {
      EmptyRun(mk, ref, f, |MarkWith(mk, "", kept)|, x.value, tail);
      SameClosedSameFinish(x, Fold(ref, |MarkWith(mk, "", kept)|, x.value, MarkWith(mk, f, tail)));
    }
  }

  lemma SameClosedSameFinish(x: Scan, y: Scan)
    requires Closed(x) == Closed(y)
    ensures Finish(x) == Finish(y)
  {
  }

  /** A page written from steady lines is read as those lines. */
  lemma WrittenReads(mk: Marker, ref: Option<Version>, lines: seq<string>)
    requires Tame(mk) && SeesWell(mk) && SeesBlank(mk) && SteadyWith(mk, "", lines)
    requires OneLined(lines) && DropEmptyTail(lines) != []
    ensures FenceWith(mk, "", SplitPage(Write(lines))) == FenceWith(mk, "", lines)
    ensures Finish(Fold(ref, 0, START, MarkWith(mk, "", SplitPage(Write(lines))))) ==
            Finish(Fold(ref, 0, START, MarkWith(mk, "", lines)))
  {
    WrittenSplits(lines);
    DropEmptyTailPrefix(lines);
    var kept := DropEmptyTail(lines);
    var tail := lines[|kept|..];
    assert lines == kept + tail;
    EmptyTail(mk, ref, kept, tail);
    SteadyPrefix(mk, "", kept, tail);
    EmptyTail(mk, ref, Chomped(kept), [""]);
    ChompedReads(mk, ref, "", 0, START, kept);
  }
}
