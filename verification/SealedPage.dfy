/** The lines of a sealed page: the fresh Unreleased section, the heading of the
    version with its count, and the lines of the old section that move. */
module SealedPage {
  import opened Text
  import opened Notes
  import opened Seal
  import opened Written
  import opened OpeningText
  import opened Sealing
  import opened SealingTheorems
  import opened SealFails
  import opened SealLoops

  // Which lines move

  /** A line with something on it, the placeholder aside. */
  predicate Speaks(sec: seq<Line>, k: nat) {
    k < |sec| && sec[k].look.visible && !sec[k].look.IsPlaceholder()
  }

  predicate IsBlank(sec: seq<Line>, k: nat) {
    k < |sec| && !sec[k].look.visible && !sec[k].look.IsPlaceholder()
  }

  /** Where the lines that can move end: at an unstable heading that no note
      follows, or with the section. */
  predicate IsLimit(sec: seq<Line>, n: nat) {
    n <= |sec| && (forall j | 0 <= j < |sec| && IsUnstableSub(sec[j].look) && j < n :: n == |sec|) &&
    (if n < |sec| then IsUnstableSub(sec[n].look) && forall j | n <= j < |sec| :: !IsUnstableNote(sec[j].look)
     else forall u | 0 <= u < |sec| && IsUnstableSub(sec[u].look) && (forall j | 0 <= j < u :: !IsUnstableSub(sec[j].look)) ::
       exists j :: u <= j < |sec| && IsUnstableNote(sec[j].look))
  }

  /** A line that speaks stands before k, and only placeholders between. */
  ghost predicate FollowsText(sec: seq<Line>, k: nat) {
    exists a :: 0 <= a < k && Speaks(sec, a) && forall x | a < x < k && x < |sec| :: sec[x].look.IsPlaceholder()
  }

  /** A line that speaks stands after k, before n. */
  ghost predicate BeforeText(sec: seq<Line>, k: nat, n: nat) {
    exists c :: k < c < n && Speaks(sec, c)
  }

  /** The line moves: it speaks, or it is the first blank line between two that
      do. */
  ghost predicate Moves(sec: seq<Line>, k: nat, n: nat) {
    k < n && (Speaks(sec, k) || (IsBlank(sec, k) && FollowsText(sec, k) && BeforeText(sec, k, n)))
  }

  predicate Increasing(places: seq<nat>) {
    forall i, j | 0 <= i < j < |places| :: places[i] < places[j]
  }

  // The same as a list

  ghost function Places(keep: nat -> bool, n: nat): (r: seq<nat>)
    ensures Increasing(r) && forall k: nat :: k in r <==> k < n && keep(k)
  {
    if n == 0 then []
    else
      var before := Places(keep, n - 1);
      assert forall i | 0 <= i < |before| :: before[i] in before;
      before + if keep(n - 1) then [n - 1] else []
  }

  function LinesAt(sec: seq<Line>, places: seq<nat>): seq<Line>
    requires AreIn(places, |sec|)
  {
    seq(|places|, i requires 0 <= i < |places| => assert places[i] in places; sec[places[i]])
  }

  lemma {:induction false} PlacesAlike(f: nat -> bool, g: nat -> bool, n: nat)
    requires forall k: nat | k < n :: f(k) == g(k)
    ensures Places(f, n) == Places(g, n)
  {
    if n > 0 {
      PlacesAlike(f, g, n - 1);
    }
  }

  lemma LinesMore(sec: seq<Line>, places: seq<nat>, k: nat)
    requires k < |sec| && forall p | p in places :: p < |sec|
    ensures LinesAt(sec, places + [k]) == LinesAt(sec, places) + [sec[k]]
  {
    assert forall p | p in places + [k] :: p < |sec|;
  }

  /** Before the blank lines at the end are dropped. */
  ghost function Squeezed(sec: seq<Line>): nat -> bool {
    (k: nat) => Speaks(sec, k) || (IsBlank(sec, k) && FollowsText(sec, k))
  }

  ghost function Moving(sec: seq<Line>, n: nat): nat -> bool {
    (k: nat) => Moves(sec, k, n)
  }

  lemma FollowsMore(sec: seq<Line>, k: nat)
    requires k < |sec|
    ensures FollowsText(sec, k + 1) <==> if sec[k].look.IsPlaceholder() then FollowsText(sec, k) else Speaks(sec, k)
  {
    if FollowsText(sec, k) && sec[k].look.IsPlaceholder() {
      var a :| 0 <= a < k && Speaks(sec, a) && forall x | a < x < k && x < |sec| :: sec[x].look.IsPlaceholder();
      assert forall x | a < x < k + 1 && x < |sec| :: sec[x].look.IsPlaceholder();
    }
    if FollowsText(sec, k + 1) {
      var a :| 0 <= a < k + 1 && Speaks(sec, a) && forall x | a < x < k + 1 && x < |sec| :: sec[x].look.IsPlaceholder();
      assert a < k ==> sec[k].look.IsPlaceholder();
    }
  }

  /** One line more, squeezed after what was. */
  lemma SqueezeMore(front: seq<Line>, z: Line, follows: bool, r: seq<Line>)
    requires r == Squeeze(DropPlaceholders(front), true) && (follows <==> r != [] && r[|r| - 1].look.visible)
    ensures Squeeze(DropPlaceholders(front + [z]), true) ==
      if z.look.IsPlaceholder() || (!z.look.visible && !follows) then r else r + [z]
  {
    DropAppend(front, z);
    var d := DropPlaceholders(front);
    if z.look.IsPlaceholder() {
      assert d + [] == d;
    } else {
      SqueezeAppend(d, z, true);
    }
  }

  predicate AreIn(places: seq<nat>, n: nat) {
    forall k | k in places :: k < n
  }

  lemma OnePlaceMore(keep: nat -> bool, n: nat, places: seq<nat>)
    requires places == Places(keep, n)
    ensures Places(keep, n + 1) == if keep(n) then places + [n] else places
    ensures AreIn(places, n)
  {
    assert places + [] == places;
  }

  /** The lines are what squeezing leaves of the first k, and the last of them
      speaks when a line that speaks goes before k. */
  ghost predicate AreSqueezed(sec: seq<Line>, k: nat, r: seq<Line>)
    requires k <= |sec|
  {
    Squeeze(DropPlaceholders(sec[..k]), true) == r && (FollowsText(sec, k) <==> r != [] && r[|r| - 1].look.visible)
  }

  lemma SqueezeStep(sec: seq<Line>, k: nat, r: seq<Line>)
    requires k < |sec| && AreSqueezed(sec, k, r)
    ensures AreSqueezed(sec, k + 1, if Squeezed(sec)(k) then r + [sec[k]] else r)
  {
    FollowsMore(sec, k);
    assert sec[..k + 1] == sec[..k] + [sec[k]];
    SqueezeMore(sec[..k], sec[k], FollowsText(sec, k), r);
  }

  /** What squeezing leaves of the first n lines. */
  lemma {:induction false} SqueezeIs(sec: seq<Line>, n: nat, places: seq<nat>)
    requires n <= |sec| && places == Places(Squeezed(sec), n)
    ensures AreIn(places, |sec|) && AreSqueezed(sec, n, LinesAt(sec, places))
  {
    if n > 0 {
      var k := n - 1;
      var before := Places(Squeezed(sec), k);
      OnePlaceMore(Squeezed(sec), k, before);
      SqueezeIs(sec, k, before);
      SqueezeStep(sec, k, LinesAt(sec, before));
      LinesMore(sec, before, k);
    }
  }

  lemma BeforeMore(sec: seq<Line>, k: nat, n: nat)
    requires k < n
    ensures BeforeText(sec, k, n + 1) <==> BeforeText(sec, k, n) || Speaks(sec, n)
  {
    if BeforeText(sec, k, n) {
      var c :| k < c < n && Speaks(sec, c);
    }
  }

  lemma MovingWhenSpeaks(sec: seq<Line>, k: nat)
    requires Speaks(sec, k)
    ensures Places(Moving(sec, k + 1), k + 1) == Places(Squeezed(sec), k + 1)
  {
    forall j: nat | j < k + 1 ensures Moving(sec, k + 1)(j) == Squeezed(sec)(j) {
      assert j < k ==> BeforeText(sec, j, k + 1);
    }
    PlacesAlike(Moving(sec, k + 1), Squeezed(sec), k + 1);
  }

  lemma MovingWhenSilent(sec: seq<Line>, k: nat)
    requires !Speaks(sec, k)
    ensures Places(Moving(sec, k + 1), k + 1) == Places(Moving(sec, k), k)
  {
    forall j: nat | j < k ensures Moving(sec, k + 1)(j) == Moving(sec, k)(j) {
      BeforeMore(sec, j, k);
    }
    PlacesAlike(Moving(sec, k + 1), Moving(sec, k), k);
    NothingAfter(sec, k);
    OnePlaceMore(Moving(sec, k + 1), k, Places(Moving(sec, k + 1), k));
  }

  lemma TailKeeps(r: seq<Line>, z: Line)
    ensures DropBlankTail(r + [z]) == if z.look.visible then r + [z] else DropBlankTail(r)
  {
    assert (r + [z])[..|r|] == r;
  }

  /** Dropping the blank lines at the end leaves the lines that move. */
  lemma {:induction false} TidyIs(sec: seq<Line>, n: nat, places: seq<nat>, moving: seq<nat>)
    requires n <= |sec| && places == Places(Squeezed(sec), n) && moving == Places(Moving(sec, n), n)
    ensures AreIn(places, |sec|) && AreIn(moving, |sec|)
    ensures DropBlankTail(LinesAt(sec, places)) == LinesAt(sec, moving)
  {
    if n > 0 {
      var k := n - 1;
      var before := Places(Squeezed(sec), k);
      OnePlaceMore(Squeezed(sec), k, before);
      LinesMore(sec, before, k);
      TailKeeps(LinesAt(sec, before), sec[k]);
      if Speaks(sec, k) {
        MovingWhenSpeaks(sec, k);
      } else {
        MovingWhenSilent(sec, k);
        TidyIs(sec, k, before, moving);
      }
    }
  }

  lemma NothingAfter(sec: seq<Line>, k: nat)
    requires !Speaks(sec, k)
    ensures !Moving(sec, k + 1)(k)
  {
  }

  lemma CutIs(sec: seq<Line>, n: nat)
    requires n <= |sec| && Cut(sec) == sec[..n] && (n < |sec| ==> n == UnstableAt(sec))
    requires n == |sec| ==> UnstableAt(sec) == |sec| || exists j :: UnstableAt(sec) <= j < |sec| && IsUnstableNote(sec[j].look)
    requires n < |sec| ==> forall j | UnstableAt(sec) <= j < |sec| :: !IsUnstableNote(sec[j].look)
    ensures IsLimit(sec, n)
  {
    var at := UnstableAt(sec);
    if n == |sec| {
      forall u | 0 <= u < |sec| && IsUnstableSub(sec[u].look) && (forall j | 0 <= j < u :: !IsUnstableSub(sec[j].look))
        ensures exists j :: u <= j < |sec| && IsUnstableNote(sec[j].look)
      {
        FirstUnstable(sec, u);
      }
    }
  }

  lemma LimitOf(sec: seq<Line>) returns (n: nat)
    ensures n <= |sec| && Cut(sec) == sec[..n] && IsLimit(sec, n)
  {
    var at := UnstableAt(sec);
    n := if at < |sec| && (forall j | at <= j < |sec| :: !IsUnstableNote(sec[j].look)) then at else |sec|;
    assert sec[..|sec|] == sec;
    CutIs(sec, n);
  }

  lemma MovedIs(sec: seq<Line>) returns (n: nat, places: seq<nat>)
    ensures IsLimit(sec, n) && Increasing(places) && forall k: nat :: k in places <==> Moves(sec, k, n)
    ensures AreIn(places, |sec|) && Moved(sec) == LinesAt(sec, places)
  {
    n := LimitOf(sec);
    places := Places(Moving(sec, n), n);
    SqueezeIs(sec, n, Places(Squeezed(sec), n));
    TidyIs(sec, n, Places(Squeezed(sec), n), places);
  }

  // The whole page

  /** The section under the first Unreleased heading. */
  predicate IsSection(zs: seq<Line>, start: nat, end: nat) {
    start < end <= |zs| && IsUnreleased(zs[start].look) && (forall j | 0 <= j < start :: !IsUnreleased(zs[j].look)) &&
    (forall j | start < j < end :: !zs[j].look.IsTop()) && (end < |zs| ==> zs[end].look.IsTop())
  }

  /** A fresh Unreleased section, the heading of the version, and the count as its
      first paragraph when there is one. */
  predicate IsOpening(lines: seq<string>, version: string, count: string) {
    |lines| == (if count == "" then 10 else 12) &&
    lines[0] == "## Unreleased" && lines[1] == "" && lines[2] == "No notes yet." && lines[3] == "" &&
    lines[4] == "### Unstable changes (no promise)" && lines[5] == "" && lines[6] == "No notes yet." && lines[7] == "" &&
    lines[8] == "## " + version && lines[9] == "" && (count != "" ==> lines[10] == count && lines[11] == "")
  }

  lemma OpeningIs(version: string, count: string)
    ensures IsOpening(Opening(version, count), version, count)
  {
  }

  /** The lines of a sealed page: those before the old section, the opening, the
      lines of the old section that move, and those after it. */
  ghost predicate IsSealed(page: string, version: string, count: string, out: seq<string>, start: nat, end: nat, n: nat,
      places: seq<nat>, opening: seq<string>)
  {
    var lines, zs := SplitPage(page), PageLines(page);
    |zs| == |lines| && IsSection(zs, start, end) && IsOpening(opening, version, count) &&
    var sec := zs[start + 1..end];
    IsLimit(sec, n) && Increasing(places) && (forall k: nat :: k in places <==> Moves(sec, k, n)) && AreIn(places, |sec|) &&
    out == lines[..start] + opening + Texts(LinesAt(sec, places)) + (if end < |lines| then [""] else []) + lines[end..]
  }

  lemma SectionIs(zs: seq<Line>) returns (start: nat, end: nat)
    requires UnreleasedAt(zs) < |zs|
    ensures IsSection(zs, start, end) && Before(zs) == zs[..start] && Section(zs) == zs[start + 1..end] && After(zs) == zs[end..]
  {
    start := UnreleasedAt(zs);
    var rest := zs[start + 1..];
    end := start + 1 + TopAt(rest);
    assert rest[..TopAt(rest)] == zs[start + 1..end] && rest[TopAt(rest)..] == zs[end..];
    forall j | start < j < end ensures !zs[j].look.IsTop() {
      assert zs[j] == rest[j - start - 1];
    }
    if end < |zs| {
      assert zs[end] == rest[TopAt(rest)];
    }
  }

  lemma TextsOfPage(page: string, start: nat, end: nat)
    requires start <= end <= |PageLines(page)|
    ensures |PageLines(page)| == |SplitPage(page)|
    ensures Texts(PageLines(page)[..start]) == SplitPage(page)[..start] && Texts(PageLines(page)[end..]) == SplitPage(page)[end..]
  {
    var lines := SplitPage(page);
    assert forall i | 0 <= i < |lines| :: PageLines(page)[i].text == lines[i];
  }

  lemma {:induction false} OpeningHasNoBreaks(version: string, count: string)
    requires IsVersion(version) && '\n' !in count
    ensures OneLined(Opening(version, count))
  {
    VersionIsOneLine(version);
    OneLinesThere();
  }

  lemma SealedLinesHaveNoBreaks(page: string, version: string, count: string)
    requires UnreleasedAt(PageLines(page)) < |PageLines(page)| && IsVersion(version) && '\n' !in count
    ensures OneLined(SealedLines(PageLines(page), version, count))
  {
    var zs := PageLines(page);
    var pre, sec, post := Before(zs), Section(zs), After(zs);
    var start, end := SectionIs(zs);
    PageHasNoBreaks(page);
    MovedSubset(sec);
    LinesHaveNoBreaks(pre);
    LinesHaveNoBreaks(Moved(sec));
    LinesHaveNoBreaks(post);
    OpeningHasNoBreaks(version, count);
    OneLinedParts(Texts(pre), Opening(version, count), Texts(Moved(sec)), if post != [] then [""] else [], Texts(post));
  }

  lemma OneLinedParts(a: seq<string>, b: seq<string>, c: seq<string>, d: seq<string>, e: seq<string>)
    requires OneLined(a) && OneLined(b) && OneLined(c) && OneLined(d) && OneLined(e)
    ensures OneLined(a + b + c + d + e)
  {
    OneLinedJoin(a, b);
    OneLinedJoin(a + b, c);
    OneLinedJoin(a + b + c, d);
    OneLinedJoin(a + b + c + d, e);
  }

  /** A written page is its lines, the empty ones at the end aside. */
  lemma WrittenText(lines: seq<string>) returns (kept: seq<string>)
    requires OneLined(lines) && exists i :: 0 <= i < |lines| && lines[i] != ""
    ensures kept <= lines && kept != [] && kept[|kept| - 1] != "" && forall i | |kept| <= i < |lines| :: lines[i] == ""
    ensures Split(Write(lines), '\n') == kept + [""]
  {
    var i :| 0 <= i < |lines| && lines[i] != "";
    kept := DropEmptyTail(lines);
    DropEmptyTailKeeps(lines, i);
    DropEmptyTailPrefix(lines);
    EmptyTailEnds(lines);
    TrimJoin(lines);
    JoinTerminates(kept);
    TerminatedSplits(kept, "");
    assert Terminated(kept) + "" == Terminated(kept);
    assert Split("", '\n') == [""];
  }

  lemma {:induction false} EmptyTailEnds(lines: seq<string>)
    ensures var kept := DropEmptyTail(lines); kept != [] ==> kept[|kept| - 1] != ""
  {
    if lines != [] && lines[|lines| - 1] == "" {
      EmptyTailEnds(lines[..|lines| - 1]);
    }
  }

  /** The sealed page holds the lines before and after the old section as they
      were, a fresh Unreleased section, the heading of the version with its count,
      and the lines of the old section that move, in their order. */
  lemma SealedPageHolds(page: string, version: string, count: string)
    returns (out: seq<string>, kept: seq<string>, start: nat, end: nat, n: nat, places: seq<nat>, opening: seq<string>)
    requires SealPage(page, version, count).Ok? && SealPage(page, version, count).value.moved > 0 && '\n' !in count
    ensures IsSealed(page, version, count, out, start, end, n, places, opening)
    ensures kept <= out && |kept| > start && kept[|kept| - 1] != "" && forall i | |kept| <= i < |out| :: out[i] == ""
    ensures Split(SealPage(page, version, count).value.page, '\n') == kept + [""]
  {
    var pre, h, sec, post := PageParts(page, version, count);
    var zs := PageLines(page);
    start, end := SectionIs(zs);
    TextsOfPage(page, start, end);
    n, places := MovedIs(sec);
    opening := Opening(version, count);
    OpeningIs(version, count);
    out := SealedLines(zs, version, count);
    SealedLinesHaveNoBreaks(page, version, count);
    assert out[start] == opening[0];
    kept := WrittenText(out);
  }
}
