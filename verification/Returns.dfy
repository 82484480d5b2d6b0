/** Carriage returns that stay at the end of a line when line ends are read:
    writing the page back drops one, which can turn a line into another. */
module Returns {
  import opened Text
  import opened Notes
  import opened Marking
  import opened Written

  // What the parser makes of a line

  /** A placeholder is read as prose. */
  function Says(what: What): What {
    if what.PlaceholderLine? then Prose else what
  }

  /** All that a look says to the parser: outside a fence alone it matters what
      the line is. */
  function Said(k: Look): Look {
    k.(what := if k.kind.Plain? then Says(k.what) else Prose)
  }

  lemma SaidStep(ref: Option<Version>, n: nat, s: State, k: Look, l: Look)
    requires Said(k) == Said(l)
    ensures Step(ref, n, s, k) == Step(ref, n, s, l)
  {
  }

  /** The line says the same without its final return. */
  predicate SteadyLine(z: Line) {
    z.look.kind.Plain? ==> Says(WhatOf(Chomp(z.text))) == Says(WhatOf(z.text))
  }

  predicate Steady(zs: seq<Line>) {
    forall z | z in zs :: SteadyLine(z)
  }

  lemma TrimSpaceOfChomp(text: string)
    ensures TrimSpace(Chomp(text)) == TrimSpace(text)
  {
    if Chomp(text) != text {
      var init := text[..|text| - 1];
      TrimLeftAppend(init, '\r');
      assert text == init + ['\r'];
      var t := TrimLeft(init);
      if t != "" {
        assert (t + ['\r'])[..|t|] == t;
      }
    }
  }

  /** Only what the line is can change, and no fence opens or closes. */
  lemma LookOfChomp(f: string, text: string)
    ensures LookAt(f, Chomp(text)) == LookAt(f, text).(what := WhatOf(Chomp(text)))
    ensures NextFence(f, Chomp(text)) == NextFence(f, text)
  {
    TrimSpaceOfChomp(text);
  }

  lemma SteadySays(f: string, text: string)
    ensures SteadyLine(Line(text, LookAt(f, text))) <==> Said(LookAt(f, Chomp(text))) == Said(LookAt(f, text))
  {
    LookOfChomp(f, text);
  }

  // Lines that are read again

  /** Each line, where it stands, says the same and leaves the same fence. */
  ghost predicate SteadyWith(mk: Marker, f: string, lines: seq<string>)
    decreases |lines|
  {
    lines == [] ||
    (Said(mk.look(f, Chomp(lines[0]))) == Said(mk.look(f, lines[0])) &&
     mk.next(f, Chomp(lines[0])) == mk.next(f, lines[0]) &&
     SteadyWith(mk, mk.next(f, lines[0]), lines[1..]))
  }

  lemma {:induction false} ChompedReads(mk: Marker, ref: Option<Version>, f: string, n: nat, s: State, lines: seq<string>)
    requires SteadyWith(mk, f, lines)
    ensures FenceWith(mk, f, Chomped(lines)) == FenceWith(mk, f, lines)
    ensures Fold(ref, n, s, MarkWith(mk, f, Chomped(lines))) == Fold(ref, n, s, MarkWith(mk, f, lines))
    decreases |lines|
  {
    if lines != [] {
      var k, l, g, rest := mk.look(f, Chomp(lines[0])), mk.look(f, lines[0]), mk.next(f, lines[0]), lines[1..];
      SaidStep(ref, n + 1, s, k, l);
      var zs, ys := MarkWith(mk, f, Chomped(lines)), MarkWith(mk, f, lines);
      assert Chomped(lines)[1..] == Chomped(rest);
      assert zs[0].look == k && zs[1..] == MarkWith(mk, g, Chomped(rest));
      assert ys[0].look == l && ys[1..] == MarkWith(mk, g, rest);
      match Step(ref, n + 1, s, l)
      case Err(_) => ChompedReads(mk, ref, g, n + 1, s, rest);
      case Ok(t) => ChompedReads(mk, ref, g, n + 1, t, rest);
    }
  }

  lemma {:induction false} SteadyPrefix(mk: Marker, f: string, a: seq<string>, b: seq<string>)
    requires SteadyWith(mk, f, a + b)
    ensures SteadyWith(mk, f, a)
    decreases |a|
  {
    if a != [] {
      assert (a + b)[0] == a[0] && (a + b)[1..] == a[1..] + b;
      SteadyPrefix(mk, mk.next(f, a[0]), a[1..], b);
    }
  }

  /** On the page's own marking it is enough that each line is steady. */
  lemma {:induction false} PageSteady(f: string, lines: seq<string>)
    requires Steady(MarkWith(PAGE, f, lines))
    ensures SteadyWith(PAGE, f, lines)
    decreases |lines|
  {
    if lines != [] {
      var zs, g := MarkWith(PAGE, f, lines), NextFence(f, lines[0]);
      LookOfChomp(f, lines[0]);
      SteadySays(f, lines[0]);
      assert zs[0] in zs && zs[0] == Line(lines[0], LookAt(f, lines[0])) && zs[1..] == MarkWith(PAGE, g, lines[1..]);
      PageSteady(g, lines[1..]);
    }
  }

  // The exact condition, line by line

  lemma {:induction false} ChompedLooks(f: string, lines: seq<string>, i: nat)
    requires i < |lines|
    ensures SteadyLine(Mark(f, lines)[i]) <==> Said(Mark(f, Chomped(lines))[i].look) == Said(Mark(f, lines)[i].look)
    ensures Mark(f, Chomped(lines))[i].look == Mark(f, lines)[i].look.(what := WhatOf(Chomp(lines[i])))
    decreases |lines|
  {
    LookOfChomp(f, lines[0]);
    if i == 0 {
      SteadySays(f, lines[0]);
    } else {
      var g := NextFence(f, lines[0]);
      ChompedLooks(g, lines[1..], i - 1);
      assert Chomped(lines)[1..] == Chomped(lines[1..]);
      assert Mark(f, lines)[i] == Mark(g, lines[1..])[i - 1];
      assert Mark(f, Chomped(lines))[i] == Mark(g, Chomped(lines[1..]))[i - 1];
    }
  }

  /** The first n of the lines say the same. */
  predicate SaysSame(ys: seq<Line>, zs: seq<Line>, n: nat)
    requires n <= |ys| && n <= |zs|
  {
    forall i | 0 <= i < n :: Said(ys[i].look) == Said(zs[i].look)
  }

  lemma SameWhenSteady(ys: seq<Line>, zs: seq<Line>)
    requires |zs| <= |ys|
    requires forall i | 0 <= i < |zs| :: SteadyLine(zs[i]) <==> Said(ys[i].look) == Said(zs[i].look)
    ensures SaysSame(ys, zs, |zs|) <==> Steady(zs)
  {
    if Steady(zs) {
      assert forall i | 0 <= i < |zs| :: zs[i] in zs;
    }
  }

  lemma KeptLooks(kept: seq<string>, ys: seq<Line>, zs: seq<Line>)
    requires ys == Mark("", Chomped(kept)) && zs == Mark("", kept)
    ensures SaysSame(ys, zs, |zs|) <==> Steady(zs)
  {
    forall i | 0 <= i < |zs| ensures SteadyLine(zs[i]) <==> Said(ys[i].look) == Said(zs[i].look) {
      ChompedLooks("", kept, i);
    }
    SameWhenSteady(ys, zs);
  }

  lemma EmptyLinesAreSteady(f: string, lines: seq<string>)
    requires forall i | 0 <= i < |lines| :: lines[i] == ""
    ensures Steady(Mark(f, lines))
  {
    var zs := Mark(f, lines);
    forall z | z in zs ensures SteadyLine(z) {
      var i :| 0 <= i < |zs| && zs[i] == z;
      assert z.text == lines[i];
    }
  }

  lemma SteadyParts(a: seq<Line>, b: seq<Line>)
    ensures Steady(a + b) <==> Steady(a) && Steady(b)
  {
    if Steady(a + b) {
      assert forall z | z in a :: z in a + b;
      assert forall z | z in b :: z in a + b;
    }
  }

  lemma SamePrefix(ys: seq<Line>, zs: seq<Line>, y: seq<Line>, z: seq<Line>)
    requires |zs| <= |ys|
    ensures SaysSame(ys + y, zs + z, |zs|) <==> SaysSame(ys, zs, |zs|)
  {
    forall i | 0 <= i < |zs| ensures (ys + y)[i] == ys[i] && (zs + z)[i] == zs[i] {
    }
  }

  lemma ReadLooks(kept: seq<string>, tail: seq<string>, lines: seq<string>, read: seq<string>)
    requires lines == kept + tail && read == Chomped(kept) + [""] && forall i | 0 <= i < |tail| :: tail[i] == ""
    ensures SaysSame(Mark("", read), Mark("", lines), |kept|) <==> Steady(Mark("", lines))
  {
    var ys, zs := Mark("", Chomped(kept)), Mark("", kept);
    var y, z := Mark(FenceAfter("", Chomped(kept)), [""]), Mark(FenceAfter("", kept), tail);
    MarkAppend("", kept, tail);
    MarkAppend("", Chomped(kept), [""]);
    KeptLooks(kept, ys, zs);
    EmptyLinesAreSteady(FenceAfter("", kept), tail);
    SteadyParts(zs, z);
    SamePrefix(ys, zs, y, z);
  }

  /** Lines that are written are read back, the empty ones at the end aside,
      saying what they said, exactly when none of them says anything else without
      its final return. */
  lemma WrittenLooks(lines: seq<string>, read: seq<string>)
    requires OneLined(lines) && DropEmptyTail(lines) != []
    requires read == SplitPage(TrimNewlines(Join(lines, '\n')) + "\n")
    ensures |read| == |DropEmptyTail(lines)| + 1 <= |lines| + 1 && read[|read| - 1] == ""
    ensures SaysSame(Mark("", read), Mark("", lines), |read| - 1) <==> Steady(Mark("", lines))
  {
    var kept := DropEmptyTail(lines);
    WrittenSplits(lines);
    DropEmptyTailPrefix(lines);
    assert lines == kept + lines[|kept|..];
    ReadLooks(kept, lines[|kept|..], lines, read);
  }
}
