/** The text of a written page splits into the lines put together. */
module Written {
  import opened Text
  import opened Notes

  // Joining and splitting again

  predicate NoReturn(line: string) {
    line != "" ==> line[|line| - 1] != '\r'
  }

  /** Lines without line breaks. */
  predicate OneLined(lines: seq<string>) {
    forall i | 0 <= i < |lines| :: '\n' !in lines[i]
  }

  /** A line without its final carriage return: what is read of it once it has
      been written with its newline. */
  function Chomp(line: string): string {
    if line != "" && line[|line| - 1] == '\r' then line[..|line| - 1] else line
  }

  function Chomped(lines: seq<string>): (r: seq<string>)
    ensures |r| == |lines| && forall i | 0 <= i < |lines| :: r[i] == Chomp(lines[i])
  {
    if lines == [] then [] else [Chomp(lines[0])] + Chomped(lines[1..])
  }

  lemma ChompFirst(line: string)
    requires |line| > 1
    ensures Chomp(line) == [line[0]] + Chomp(line[1..])
  {
  }

  /** Before anything but the line end, a character stays. */
  lemma DropPasses(whole: string, rest: string)
    requires whole != "" && rest == whole[1..] && !("\r\n" <= whole)
    ensures DropCarriageReturns(whole) == [whole[0]] + DropCarriageReturns(rest)
  {
  }

  /** The line end drops its return. */
  lemma DropTakes(whole: string, rest: string)
    requires |whole| >= 2 && whole[0] == '\r' && whole[1] == '\n' && rest == whole[2..]
    ensures DropCarriageReturns(whole) == "\n" + DropCarriageReturns(rest)
  {
    assert "\r\n" <= whole;
  }

  lemma NoEndYet(line: string, whole: string)
    requires '\n' !in line && line != "" && line != "\r" && line <= whole && |whole| > |line|
    ensures !("\r\n" <= whole)
  {
    assert line[0] == whole[0];
    if |line| > 1 {
      assert line[1] == whole[1] && line[1] in line;
    }
  }

  lemma {:induction false} DropInLine(line: string, rest: string)
    requires '\n' !in line
    ensures DropCarriageReturns(line + ("\n" + rest)) == Chomp(line) + ("\n" + DropCarriageReturns(rest))
    decreases |line|
  {
    var end := "\n" + rest;
    var whole := line + end;
    if line == "" {
      assert whole == end && whole[1..] == rest;
      DropPasses(whole, rest);
    } else if line == "\r" {
      assert whole[2..] == rest;
      DropTakes(whole, rest);
    } else {
      NoEndYet(line, whole);
      if |line| > 1 {
        ChompFirst(line);
      }
      assert whole[1..] == line[1..] + end;
      DropPasses(whole, line[1..] + end);
      DropInLine(line[1..], rest);
    }
  }

  lemma {:induction false} TerminatedFirst(line: string, lines: seq<string>)
    ensures Terminated([line] + lines) == line + ("\n" + Terminated(lines))
  {
    if lines == [] {
      assert [line] + lines == [line] && [line][..0] == [];
    } else {
      var init, last := lines[..|lines| - 1], lines[|lines| - 1];
      TerminatedFirst(line, init);
      assert ([line] + lines)[..|lines|] == [line] + init;
    }
  }

  lemma {:induction false} DropInLines(lines: seq<string>)
    requires OneLined(lines)
    ensures DropCarriageReturns(Terminated(lines)) == Terminated(Chomped(lines))
  {
    if lines != [] {
      DropInLines(lines[1..]);
      DropFirst(lines[0], lines[1..], Chomped(lines[1..]));
      assert [lines[0]] + lines[1..] == lines;
    }
  }

  lemma DropFirst(first: string, rest: seq<string>, chomped: seq<string>)
    requires '\n' !in first && DropCarriageReturns(Terminated(rest)) == Terminated(chomped)
    ensures DropCarriageReturns(Terminated([first] + rest)) == Terminated([Chomp(first)] + chomped)
  {
    TerminatedFirst(first, rest);
    DropInLine(first, Terminated(rest));
    TerminatedFirst(Chomp(first), chomped);
  }

  lemma {:induction false} JoinTerminates(lines: seq<string>)
    requires lines != []
    ensures Join(lines, '\n') + "\n" == Terminated(lines)
  {
    var init, last := lines[..|lines| - 1], lines[|lines| - 1];
    assert lines == init + [last];
    if init == [] {
      assert lines == [last] && Terminated(init) == "";
    } else {
      JoinTerminates(init);
      JoinAppend(init, last, '\n');
    }
  }

  /** The lines without the empty ones at the end. */
  function DropEmptyTail(lines: seq<string>): seq<string> {
    if lines != [] && lines[|lines| - 1] == "" then DropEmptyTail(lines[..|lines| - 1]) else lines
  }

  lemma {:induction false} TrimJoin(lines: seq<string>)
    requires OneLined(lines) && DropEmptyTail(lines) != []
    ensures TrimNewlines(Join(lines, '\n')) == Join(DropEmptyTail(lines), '\n')
  {
    var init, last := lines[..|lines| - 1], lines[|lines| - 1];
    assert lines == init + [last];
    if last == "" {
      JoinAppend(init, "", '\n');
      var j := Join(init, '\n');
      assert Join(lines, '\n') == j + ['\n'];
      assert (j + ['\n'])[..|j|] == j;
      TrimJoin(init);
    } else {
      var j := Join(lines, '\n');
      if init != [] {
        JoinAppend(init, last, '\n');
      }
      assert j[|j| - 1] == last[|last| - 1];
      assert last[|last| - 1] in last;
    }
  }

  /** The written page splits into the lines put together, each without its
      final return, less the empty ones at the end, and one empty line. */
  lemma WrittenSplits(lines: seq<string>)
    requires OneLined(lines) && DropEmptyTail(lines) != []
    ensures SplitPage(TrimNewlines(Join(lines, '\n')) + "\n") == Chomped(DropEmptyTail(lines)) + [""]
  {
    var kept := DropEmptyTail(lines);
    TrimJoin(lines);
    DropEmptyTailPrefix(lines);
    assert OneLined(kept) && OneLined(Chomped(kept));
    JoinTerminates(kept);
    DropInLines(kept);
    TerminatedSplits(Chomped(kept), "");
    assert Terminated(Chomped(kept)) + "" == Terminated(Chomped(kept));
    assert Split("", '\n') == [""];
  }

  lemma {:induction false} DropEmptyTailPrefix(lines: seq<string>)
    ensures DropEmptyTail(lines) <= lines
    ensures forall i | |DropEmptyTail(lines)| <= i < |lines| :: lines[i] == ""
  {
    if lines != [] && lines[|lines| - 1] == "" {
      DropEmptyTailPrefix(lines[..|lines| - 1]);
    }
  }

  lemma {:induction false} DropEmptyTailKeeps(lines: seq<string>, i: nat)
    requires i < |lines| && lines[i] != ""
    ensures DropEmptyTail(lines) != []
  {
    if lines[|lines| - 1] == "" {
      DropEmptyTailKeeps(lines[..|lines| - 1], i);
    }
  }
}
