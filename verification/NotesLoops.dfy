/** The loops of cmd/terva-apidiff/notes.go that read a page and seal it. Each
    is proved to compute the function that specifies it. */
module NotesLoops {
  import opened Text
  import opened Notes
  import opened ScanLaws
  import opened Looks
  import opened Sealing

  // splitLines

  /** Splits a page into lines, each with its part in the code fences. */
  method SplitLines(page: string) returns (r: Result<seq<Line>, ParseError>)
    ensures r.Ok? <==> FenceAfter("", SplitPage(page)) == ""
    ensures r.Ok? ==> r.value == PageLines(page)
    ensures r.Err? ==> r.error == Unclosed(FenceAfter("", SplitPage(page)))
  {
    var lines := SplitPage(page);
    var marked: seq<Line> := [];
    var fence := "";
    for i := 0 to |lines|
      invariant marked == Mark("", lines[..i]) && fence == FenceAfter("", lines[..i])
    {
      MarkAppend("", lines[..i], [lines[i]]);
      assert lines[..i + 1] == lines[..i] + [lines[i]];
      assert Mark(fence, [lines[i]]) == [Line(lines[i], LookAt(fence, lines[i]))];
      marked := marked + [Line(lines[i], LookAt(fence, lines[i]))];
      fence := NextFence(fence, lines[i]);
    }
    assert lines[..|lines|] == lines;
    if fence != "" {
      return Err(Unclosed(fence));
    }
    return Ok(marked);
  }

  // parseNotes

  lemma FoldTakes(ref: Option<Version>, zs: seq<Line>, i: nat, s: State)
    requires i < |zs| && Fold(ref, 0, START, zs[..i]) == Ok(s)
    ensures Step(ref, i + 1, s, zs[i].look).Ok? ==>
              Fold(ref, 0, START, zs[..i + 1]) == Ok(Step(ref, i + 1, s, zs[i].look).value)
    ensures Step(ref, i + 1, s, zs[i].look).Err? ==>
              Fold(ref, 0, START, zs) == Err(Step(ref, i + 1, s, zs[i].look).error)
  {
    var k := zs[i].look;
    assert zs[..i + 1] == zs[..i] + [zs[i]];
    FoldAppend(ref, 0, START, zs[..i], [zs[i]]);
    assert zs == zs[..i] + zs[i..];
    FoldAppend(ref, 0, START, zs[..i], zs[i..]);
    assert zs[i..][0] == zs[i];
    match Step(ref, i + 1, s, k)
    case Err(_) =>
    case Ok(t) => assert Fold(ref, i + 1, t, []) == Ok(t) && [zs[i]][1..] == [];
  }

  /** Reads the Covers: paragraph that opens at line start, up to the line that
      ends it. s is the state before that line. */
  method ReadParagraph(zs: seq<Line>, ref: Option<Version>, start: nat, s: State)
    returns (r: Result<State, ParseError>, i: nat)
    requires start < |zs| && Fold(ref, 0, START, zs[..start]) == Ok(s) && !zs[start].look.EndsPara()
    requires Step(ref, start + 1, s, zs[start].look) ==
             ParaStep(start + 1, s.(para := Open(start + 1, 0)), zs[start].look)
    ensures r.Err? ==> Finish(Fold(ref, 0, START, zs)) == Err(r.error)
    ensures r.Ok? ==> start < i <= |zs| && (i < |zs| ==> zs[i].look.EndsPara())
    ensures r.Ok? ==>
              var t := r.value;
              t.para.Open? && t.para.names > 0 && Fold(ref, 0, START, zs[..i]) == Ok(t) &&
              t == s.(covers := t.covers, para := t.para)
  {
    var covers, names: nat := s.covers, 0;
    i := start;
    while i < |zs| && !zs[i].look.EndsPara()
      invariant start <= i <= |zs|
      invariant i == start ==> names == 0 && covers == s.covers
      invariant i > start ==>
                  Fold(ref, 0, START, zs[..i]) == Ok(s.(covers := covers, para := Open(start + 1, names)))
    {
      ghost var t := s.(covers := covers, para := Open(start + 1, names));
      FoldTakes(ref, zs, i, if i == start then s else t);
      assert Step(ref, i + 1, if i == start then s else t, zs[i].look) == ParaStep(i + 1, t, zs[i].look);
      match zs[i].look.names {
        case Err(e) =>
          return Err(BadName(i + 1, e)), i;
        case Ok(found) =>
          covers := covers + Covers(found, i + 1, ZoneClass(s.zone));
          names := names + |found|;
      }
      i := i + 1;
    }
    if names == 0 {
      if i < |zs| {
        FoldTakes(ref, zs, i, s.(covers := covers, para := Open(start + 1, names)));
      } else {
        assert zs[..i] == zs;
      }
      return Err(NamesNothing(start + 1)), i;
    }
    return Ok(s.(covers := covers, para := Open(start + 1, names))), i;
  }

  /** The state after the heading of a section, which may be one that is read. */
  method ReadTop(ref: Option<Version>, n: nat, before: State, what: What) returns (r: Scan)
    ensures r == TopStep(ref, n, before, what)
  {
    var s := before.(zone := Skip, note := 0, section := "");
    match what {
      case UnreleasedTop =>
        s := s.(unreleased := s.unreleased + 1, zone := InStable, section := UNRELEASED);
      case VersionTop(v, number) =>
        if ReadsVersion(ref, number) {
          if v in s.sealed {
            return Err(SecondVersion(n, v));
          }
          s := s.(sealed := s.sealed + [v], zone := InStable, section := v);
        }
      case _ =>
    }
    return Ok(s);
  }

  /** The Covers: names of the page, or what is wrong with it. */
  method ReadNotes(zs: seq<Line>, ref: Option<Version>) returns (r: Result<Doc, ParseError>)
    requires Marked(zs)
    ensures r == Finish(Fold(ref, 0, START, zs))
  {
    var s := START;
    var i: nat := 0;
    assert zs[..0] == [];
    while i < |zs|
      invariant i <= |zs|
      invariant Fold(ref, 0, START, zs[..i]) == Ok(s)
      invariant s.para.Open? ==> s.para.names > 0 && (i < |zs| ==> zs[i].look.EndsPara())
      decreases |zs| - i
    {
      var k := zs[i].look;
      assert zs[i] in zs;
      FoldTakes(ref, zs, i, s);
      ghost var before := s;
      s := s.(para := NoPara);
      assert Step(ref, i + 1, before, k) == BaseStep(ref, i + 1, s, k);
      match k.kind {
        case Fence =>
        case Code =>
          s := s.(guided := s.guided || (!s.zone.Skip? && s.note > 0 && k.visible));
        case Plain =>
          if k.IsTop() {
            var top := ReadTop(ref, i + 1, s, k.what);
            if top.Err? {
              return Err(top.error);
            }
            s := top.value;
          } else if !s.zone.Skip? {
            match k.what {
              case UnstableSub =>
                if s.zone.InUnstable? {
                  return Err(SecondUnstable(i + 1, s.section));
                }
                s := s.(zone := InUnstable, note := 0);
              case Sub3 =>
                if s.zone.InUnstable? {
                  return Err(AfterUnstable(i + 1));
                }
                s := NewNote(i + 1, s);
              case Sub4 =>
                if s.zone.InUnstable? {
                  s := NewNote(i + 1, s);
                }
              case CoversLine =>
                if s.note == 0 {
                  return Err(OutsideNote(i + 1, s.zone));
                }
                if !s.guided {
                  return Err(SaysNothing(i + 1, s.note));
                }
                assert before == s;
                var read, next := ReadParagraph(zs, ref, i, s);
                if read.Err? {
                  return Err(read.error);
                }
                s, i := read.value, next;
                continue;
              case _ =>
                s := s.(guided := s.guided || (s.note > 0 && k.visible && !k.hash));
            }
          }
      }
      i := i + 1;
    }
    assert zs[..i] == zs;
    if s.unreleased == 0 {
      return Err(NoUnreleased);
    }
    if s.unreleased > 1 {
      return Err(ManyUnreleased(s.unreleased));
    }
    return Ok(Doc(s.covers, s.sealed, s.pending));
  }

  method ParseNotes(page: string, ref: string) returns (r: Result<Doc, ParseError>)
    ensures r == Parse(page, ref)
  {
    var split := SplitLines(page);
    match split
    case Err(e) => return Err(e);
    case Ok(zs) =>
      MarkIsWell("", SplitPage(page));
      r := ReadNotes(zs, Semver(ref));
  }
}
