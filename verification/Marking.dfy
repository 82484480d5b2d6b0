/** Lines marked one after the other. Which part of a seal keeps the marks
    depends on two facts about marking only, so the laws here hold of any
    marking that has them. */
module Marking {
  import opened Text
  import opened Notes
  import opened Seal

  /** How a line looks where a fence is open, and the fence after it. */
  datatype Marker = Marker(look: (string, string) -> Look, next: (string, string) -> string)

  /** A plain line and a blank line leave the fence as it is, and a plain line
      stands outside every fence. */
  ghost predicate Tame(mk: Marker) {
    forall f, text ::
      (mk.look(f, text).kind.Plain? ==> f == "" && mk.next(f, text) == "") &&
      (!mk.look(f, text).visible ==> mk.next(f, text) == f)
  }

  function MarkWith(mk: Marker, f: string, lines: seq<string>): seq<Line>
    decreases |lines|
  {
    if lines == [] then []
    else [Line(lines[0], mk.look(f, lines[0]))] + MarkWith(mk, mk.next(f, lines[0]), lines[1..])
  }

  function FenceWith(mk: Marker, f: string, lines: seq<string>): string
    decreases |lines|
  {
    if lines == [] then f else FenceWith(mk, mk.next(f, lines[0]), lines[1..])
  }

  /** zs is marked, from fence f to fence g. */
  predicate Chain(mk: Marker, f: string, zs: seq<Line>, g: string)
    decreases |zs|
  {
    if zs == [] then f == g
    else zs[0].look == mk.look(f, zs[0].text) && Chain(mk, mk.next(f, zs[0].text), zs[1..], g)
  }

  lemma {:induction false} ChainIsMark(mk: Marker, f: string, zs: seq<Line>, g: string)
    requires Chain(mk, f, zs, g)
    ensures MarkWith(mk, f, Texts(zs)) == zs && FenceWith(mk, f, Texts(zs)) == g
    decreases |zs|
  {
    if zs != [] {
      ChainIsMark(mk, mk.next(f, zs[0].text), zs[1..], g);
      assert Texts(zs)[1..] == Texts(zs[1..]);
    }
  }

  lemma {:induction false} MarkIsChain(mk: Marker, f: string, lines: seq<string>)
    ensures Chain(mk, f, MarkWith(mk, f, lines), FenceWith(mk, f, lines)) && Texts(MarkWith(mk, f, lines)) == lines
    decreases |lines|
  {
    if lines != [] {
      MarkIsChain(mk, mk.next(f, lines[0]), lines[1..]);
      assert MarkWith(mk, f, lines)[1..] == MarkWith(mk, mk.next(f, lines[0]), lines[1..]);
    }
  }

  lemma {:induction false} ChainAppend(mk: Marker, f: string, a: seq<Line>, g: string, b: seq<Line>, h: string)
    requires Chain(mk, f, a, g) && Chain(mk, g, b, h)
    ensures Chain(mk, f, a + b, h)
    decreases |a|
  {
    if a == [] {
      assert a + b == b;
    } else {
      assert (a + b)[0] == a[0] && (a + b)[1..] == a[1..] + b;
      ChainAppend(mk, mk.next(f, a[0].text), a[1..], g, b, h);
    }
  }

  lemma {:induction false} ChainSplit(mk: Marker, f: string, a: seq<Line>, b: seq<Line>, h: string) returns (g: string)
    requires Chain(mk, f, a + b, h)
    ensures Chain(mk, f, a, g) && Chain(mk, g, b, h)
    decreases |a|
  {
    if a == [] {
      assert a + b == b;
      g := f;
    } else {
      assert (a + b)[0] == a[0] && (a + b)[1..] == a[1..] + b;
      g := ChainSplit(mk, mk.next(f, a[0].text), a[1..], b, h);
    }
  }

  lemma {:induction false} DropChain(mk: Marker, f: string, zs: seq<Line>, g: string)
    requires Tame(mk) && Chain(mk, f, zs, g)
    ensures Chain(mk, f, DropPlaceholders(zs), g)
    decreases |zs|
  {
    if zs != [] {
      DropChain(mk, mk.next(f, zs[0].text), zs[1..], g);
      var rest := DropPlaceholders(zs[1..]);
      assert ([zs[0]] + rest)[1..] == rest;
    }
  }

  lemma {:induction false} SqueezeChain(mk: Marker, f: string, zs: seq<Line>, g: string, open: bool)
    requires Tame(mk) && Chain(mk, f, zs, g)
    ensures Chain(mk, f, Squeeze(zs, open), g)
    decreases |zs|
  {
    if zs != [] {
      var next := !zs[0].look.visible;
      SqueezeChain(mk, mk.next(f, zs[0].text), zs[1..], g, next);
      var rest := Squeeze(zs[1..], next);
      assert ([zs[0]] + rest)[1..] == rest;
    }
  }

  lemma {:induction false} BlankTailChain(mk: Marker, f: string, zs: seq<Line>, g: string)
    requires Tame(mk) && Chain(mk, f, zs, g)
    ensures Chain(mk, f, DropBlankTail(zs), g)
    decreases |zs|
  {
    if zs != [] && !zs[|zs| - 1].look.visible {
      var init, last := zs[..|zs| - 1], zs[|zs| - 1];
      assert zs == init + [last];
      var h := ChainSplit(mk, f, init, [last], g);
      assert [last][0] == last && [last][1..] == [];
      BlankTailChain(mk, f, init, g);
    }
  }

  /** What a seal keeps of a section is marked as before. */
  lemma MovedChain(mk: Marker, sec: seq<Line>)
    requires Tame(mk) && Chain(mk, "", sec, "")
    ensures Chain(mk, "", Moved(sec), "")
  {
    var at := UnstableAt(sec);
    if Cut(sec) != sec {
      assert sec == sec[..at] + sec[at..];
      var g := ChainSplit(mk, "", sec[..at], sec[at..], "");
      assert sec[at..][0] == sec[at];
    }
    DropChain(mk, "", Cut(sec), "");
    SqueezeChain(mk, "", DropPlaceholders(Cut(sec)), "", true);
    BlankTailChain(mk, "", Squeeze(DropPlaceholders(Cut(sec)), true), "");
  }

  // The page's own marking

  const PAGE := Marker(LookAt, NextFence)

  lemma PageIsTame()
    ensures Tame(PAGE)
  {
    forall f, text
      ensures PAGE.look(f, text).kind.Plain? ==> f == "" && PAGE.next(f, text) == ""
      ensures !PAGE.look(f, text).visible ==> PAGE.next(f, text) == f
    {
      PlainKeepsFence(f, text);
    }
  }

  lemma PlainKeepsFence(f: string, text: string)
    ensures KindOf(f, text).Plain? ==> f == "" && NextFence(f, text) == ""
    ensures TrimSpace(text) == "" ==> NextFence(f, text) == f
  {
  }

  lemma {:induction false} PageMarks(f: string, lines: seq<string>)
    ensures Mark(f, lines) == MarkWith(PAGE, f, lines) && FenceAfter(f, lines) == FenceWith(PAGE, f, lines)
    decreases |lines|
  {
    if lines != [] {
      var g := NextFence(f, lines[0]);
      assert PAGE.next(f, lines[0]) == g;
      PageMarks(g, lines[1..]);
    }
  }
}
