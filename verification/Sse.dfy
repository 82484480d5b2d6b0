/** Reading one JSON-RPC frame out of an event stream: readResponseFrame of
    cmd/terva-mcp-bridge/upstream.go, on lines as the framing reader gives them. */
module Sse {
  import opened Text

  /** A line, without its end. */
  datatype Line = Line(text: string, tooLong: bool)

  /** The lines of a response. The last one came with the end of the stream,
      which was clean or an error. */
  datatype Stream = Stream(lines: seq<Line>, tail: Line, clean: bool)

  datatype Problem = OverLimit | Broken | NoData

  /** The id a frame carries, "" for none. */
  datatype Ids = Ids(idOf: string -> string)

  predicate HasId(ids: Ids, frame: string, want: string) {
    want == "" || ids.idOf(frame) == want
  }

  function All(s: Stream): seq<Line> {
    s.lines + [s.tail]
  }

  // What a stream says

  const DATA := "data:"

  /** What a data line carries: one leading space is dropped. */
  function Payload(text: string): string
    requires HasPrefix(text, DATA)
  {
    var rest := text[|DATA|..];
    if HasPrefix(rest, " ") then rest[1..] else rest
  }

  /** The payloads since the last blank line. */
  function Pending(texts: seq<string>): seq<string> {
    if texts == [] then []
    else
      var text, before := texts[|texts| - 1], texts[..|texts| - 1];
      if text == "" then []
      else if HasPrefix(text, DATA) then Pending(before) + [Payload(text)]
      else Pending(before)
  }

  function DropEmpty(payloads: seq<string>): seq<string> {
    if payloads != [] && payloads[0] == "" then DropEmpty(payloads[1..]) else payloads
  }

  /** The event of some payloads: empty ones at the start add nothing. */
  function EventOf(payloads: seq<string>): string {
    Join(DropEmpty(payloads), '\n')
  }

  /** The event that the end of these lines leaves open, when it is not empty. */
  function Open(texts: seq<string>): seq<string> {
    var event := EventOf(Pending(texts));
    if event == "" then [] else [event]
  }

  /** The events that blank lines have closed. */
  function Events(texts: seq<string>): seq<string> {
    if texts == [] then []
    else
      var text, before := texts[|texts| - 1], texts[..|texts| - 1];
      Events(before) + if text == "" then Open(before) else []
  }

  /** The lines before the first one over the limit. */
  function Sound(lines: seq<Line>): seq<string> {
    if lines == [] || lines[0].tooLong then [] else [lines[0].text] + Sound(lines[1..])
  }

  /** The event at i is the first with the wanted id. */
  ghost predicate FirstAt(ids: Ids, events: seq<string>, want: string, i: nat) {
    i < |events| && HasId(ids, events[i], want) && forall j | 0 <= j < i :: !HasId(ids, events[j], want)
  }

  lemma FirstAtLater(ids: Ids, events: seq<string>, want: string, i: nat)
    requires events != [] && !HasId(ids, events[0], want) && FirstAt(ids, events[1..], want, i)
    ensures FirstAt(ids, events, want, i + 1) && events[i + 1] == events[1..][i]
  {
    forall j | 0 <= j < i + 1 ensures !HasId(ids, events[j], want) {
      if j > 0 {
        assert events[j] == events[1..][j - 1];
      }
    }
  }

  function FirstWith(ids: Ids, events: seq<string>, want: string): (r: Option<string>)
    ensures r.None? <==> forall i | 0 <= i < |events| :: !HasId(ids, events[i], want)
    ensures r.Some? ==> HasId(ids, r.value, want) && exists i: nat :: FirstAt(ids, events, want, i) && events[i] == r.value
  {
    if events == [] then None
    else if HasId(ids, events[0], want) then
      assert FirstAt(ids, events, want, 0);
      Some(events[0])
    else
      var r := FirstWith(ids, events[1..], want);
      assert r.Some? ==> exists i: nat :: FirstAt(ids, events, want, i) && events[i] == r.value by {
        if r.Some? {
          var i: nat :| FirstAt(ids, events[1..], want, i) && events[1..][i] == r.value;
          FirstAtLater(ids, events, want, i);
        }
      }
      assert r.None? ==> forall i | 0 <= i < |events| :: i > 0 ==> events[i] == events[1..][i - 1];
      r
  }

  /** The first closed event with the wanted id, if one comes before a line over
      the limit; otherwise the last event of a stream that ended cleanly. */
  function Response(ids: Ids, s: Stream, want: string): Result<string, Problem> {
    var texts := Sound(All(s));
    match FirstWith(ids, Events(texts), want)
    case Some(frame) => Ok(frame)
    case None =>
      if |texts| < |All(s)| then Err(OverLimit)
      else if !s.clean then Err(Broken)
      else
        var events := Events(texts) + Open(texts);
        if events == [] then Err(NoData) else Ok(events[|events| - 1])
  }

  // Joining one payload more

  lemma {:induction false} DropEmptySnoc(payloads: seq<string>, p: string)
    ensures DropEmpty(payloads + [p]) ==
      if DropEmpty(payloads) == [] && p == "" then [] else DropEmpty(payloads) + [p]
  {
    if payloads == [] {
      assert payloads + [p] == [p];
    } else if payloads[0] == "" {
      assert (payloads + [p])[1..] == payloads[1..] + [p];
      DropEmptySnoc(payloads[1..], p);
    }
  }

  lemma JoinedStartsFull(payloads: seq<string>)
    requires payloads != [] && payloads[0] != ""
    ensures Join(payloads, '\n') != ""
  {
  }

  lemma {:induction false} DropEmptyStarts(payloads: seq<string>)
    ensures DropEmpty(payloads) != [] ==> DropEmpty(payloads)[0] != ""
  {
    if payloads != [] && payloads[0] == "" {
      DropEmptyStarts(payloads[1..]);
    }
  }

  /** A newline goes in front of a payload only when there is something before it. */
  lemma EventGrows(payloads: seq<string>, p: string)
    ensures EventOf(payloads + [p]) == if EventOf(payloads) == "" then p else EventOf(payloads) + ['\n'] + p
  {
    DropEmptySnoc(payloads, p);
    DropEmptyStarts(payloads);
    var kept := DropEmpty(payloads);
    if kept != [] {
      JoinedStartsFull(kept);
      JoinAppend(kept, p, '\n');
    } else {
      assert kept + [p] == [p];
    }
  }

  // The reader

  lemma {:induction false} SoundPrefix(lines: seq<Line>, n: nat)
    requires n <= |lines| && forall i | 0 <= i < n :: !lines[i].tooLong
    ensures |Sound(lines)| >= n && Sound(lines)[..n] == Sound(lines[..n])
    ensures |Sound(lines)| <= |lines|
    ensures forall i | 0 <= i < n :: Sound(lines)[i] == lines[i].text
    ensures n < |lines| && lines[n].tooLong ==> |Sound(lines)| == n
    ensures n < |lines| && !lines[n].tooLong ==> |Sound(lines)| > n && Sound(lines)[n] == lines[n].text
  {
    if n > 0 {
      assert lines[1..][..n - 1] == lines[..n][1..];
      forall i | 0 <= i < n - 1 ensures !lines[1..][i].tooLong {
        assert lines[1..][i] == lines[i + 1];
      }
      SoundPrefix(lines[1..], n - 1);
    } else if lines != [] {
      SoundLength(lines);
    }
  }

  lemma {:induction false} SoundLength(lines: seq<Line>)
    ensures |Sound(lines)| <= |lines|
  {
    if lines != [] && !lines[0].tooLong {
      SoundLength(lines[1..]);
    }
  }

  lemma {:induction false} EventsGrow(texts: seq<string>, n: nat)
    requires n <= |texts|
    ensures Events(texts[..n]) <= Events(texts)
  {
    if n < |texts| {
      EventsGrow(texts[..|texts| - 1], n);
      assert texts[..|texts| - 1][..n] == texts[..n];
    } else {
      assert texts[..n] == texts;
    }
  }

  lemma {:induction false} FirstWithPrefix(ids: Ids, a: seq<string>, b: seq<string>, want: string)
    requires a <= b && FirstWith(ids, a, want).Some?
    ensures FirstWith(ids, b, want) == FirstWith(ids, a, want)
  {
    if !HasId(ids, a[0], want) {
      assert a[1..] <= b[1..];
      FirstWithPrefix(ids, a[1..], b[1..], want);
    }
  }

  lemma {:induction false} FirstWithLast(ids: Ids, events: seq<string>, e: string, want: string)
    requires FirstWith(ids, events, want).None? && HasId(ids, e, want)
    ensures FirstWith(ids, events + [e], want) == Some(e)
  {
    if events != [] {
      assert (events + [e])[1..] == events[1..] + [e];
      FirstWithLast(ids, events[1..], e, want);
    }
  }

  function LastOf(events: seq<string>): Option<string> {
    if events == [] then None else Some(events[|events| - 1])
  }

  /** What the reader holds after i lines. */
  ghost predicate At(ids: Ids, want: string, texts: seq<string>, i: nat, data: string, last: Option<string>) {
    i <= |texts| && data == EventOf(Pending(texts[..i])) && last == LastOf(Events(texts[..i])) &&
    FirstWith(ids, Events(texts[..i]), want).None?
  }

  lemma DataPending(texts: seq<string>, i: nat)
    requires i < |texts| && HasPrefix(texts[i], DATA)
    ensures Pending(texts[..i + 1]) == Pending(texts[..i]) + [Payload(texts[i])]
    ensures Events(texts[..i + 1]) == Events(texts[..i])
  {
    assert texts[..i + 1][..i] == texts[..i];
  }

  lemma DataRead(ids: Ids, want: string, texts: seq<string>, i: nat, data: string, last: Option<string>, p: string, grown: string)
    requires i < |texts| && HasPrefix(texts[i], DATA) && At(ids, want, texts, i, data, last)
    requires p == Payload(texts[i]) && grown == if data == "" then p else data + ['\n'] + p
    ensures At(ids, want, texts, i + 1, grown, last)
  {
    DataPending(texts, i);
    var pending := Pending(texts[..i]);
    EventGrows(pending, p);
    assert EventOf(pending + [p]) == grown;
  }

  lemma OtherRead(ids: Ids, want: string, texts: seq<string>, i: nat, data: string, last: Option<string>)
    requires i < |texts| && texts[i] != "" && !HasPrefix(texts[i], DATA) && At(ids, want, texts, i, data, last)
    ensures At(ids, want, texts, i + 1, data, last)
  {
    assert texts[..i + 1][..i] == texts[..i];
  }

  lemma BlankRead(ids: Ids, want: string, texts: seq<string>, i: nat, data: string, last: Option<string>, flushed: Option<string>)
    requires i < |texts| && texts[i] == "" && At(ids, want, texts, i, data, last)
    requires flushed == if data != "" then Some(data) else last
    ensures if flushed.Some? && HasId(ids, flushed.value, want) then FirstWith(ids, Events(texts), want) == flushed
      else At(ids, want, texts, i + 1, "", flushed)
  {
    assert texts[..i + 1][..i] == texts[..i];
    var events := Events(texts[..i]);
    assert Events(texts[..i + 1]) == events + Open(texts[..i]);
    if data == "" {
      assert events + Open(texts[..i]) == events;
    } else if HasId(ids, data, want) {
      FirstWithLast(ids, events, data, want);
      EventsGrow(texts, i + 1);
      FirstWithPrefix(ids, events + [data], Events(texts), want);
    } else {
      FirstWithNone(ids, events, data, want);
    }
  }

  lemma FirstWithNone(ids: Ids, events: seq<string>, e: string, want: string)
    requires FirstWith(ids, events, want).None? && !HasId(ids, e, want)
    ensures FirstWith(ids, events + [e], want).None?
  {
  }

  lemma EndRead(ids: Ids, want: string, s: Stream, texts: seq<string>, data: string, last: Option<string>)
    requires texts == Sound(All(s)) && |texts| == |All(s)| && At(ids, want, texts, |texts|, data, last)
    ensures Response(ids, s, want) ==
      if !s.clean then Err(Broken)
      else if data != "" then Ok(data)
      else if last.Some? then Ok(last.value) else Err(NoData)
  {
    assert texts[..|texts|] == texts;
  }

  lemma LimitMet(ids: Ids, want: string, s: Stream, texts: seq<string>, i: nat, data: string, last: Option<string>)
    requires texts == Sound(All(s)) && |texts| == i < |All(s)| && At(ids, want, texts, i, data, last)
    ensures Response(ids, s, want) == Err(OverLimit)
  {
    assert texts[..i] == texts;
  }

  /** readResponseFrame, past the test of the content type. */
  method ReadResponseFrame(ids: Ids, s: Stream, want: string) returns (r: Result<string, Problem>)
    ensures r == Response(ids, s, want)
  {
    var lines := All(s);
    ghost var texts := Sound(lines);
    var data, last := "", None;
    var i := 0;
    while true
      invariant i < |lines| && forall j | 0 <= j < i :: !lines[j].tooLong
      invariant At(ids, want, texts, i, data, last)
      decreases |lines| - i
    {
      var line := lines[i];
      SoundPrefix(lines, i);
      if line.tooLong {
        LimitMet(ids, want, s, texts, i, data, last);
        return Err(OverLimit);
      }
      if line.text == "" {
        var flushed := if data != "" then Some(data) else last;
        BlankRead(ids, want, texts, i, data, last, flushed);
        data, last := "", flushed;
        if last.Some? && HasId(ids, last.value, want) {
          return Ok(last.value);
        }
      } else if HasPrefix(line.text, DATA) {
        var payload := Payload(line.text);
        var grown := if data == "" then payload else data + ['\n'] + payload;
        DataRead(ids, want, texts, i, data, last, payload, grown);
        data := grown;
      } else {
        OtherRead(ids, want, texts, i, data, last);
      }
      i := i + 1;
      if i == |lines| {
        SoundLength(lines);
        EndRead(ids, want, s, texts, data, last);
        if !s.clean {
          return Err(Broken);
        }
        break;
      }
    }
    if data != "" {
      last := Some(data);
    }
    if last.None? {
      return Err(NoData);
    }
    return Ok(last.value);
  }

  // What a caller can rely on

  /** A frame that is returned carries the wanted id and is the first closed
      event that does, or no closed event does and it is the last event of a
      stream that ended cleanly with no line over the limit. */
  lemma FrameIsTheReply(ids: Ids, s: Stream, want: string, events: seq<string>, frame: string)
    requires events == Events(Sound(All(s))) && Response(ids, s, want) == Ok(frame)
    ensures FirstWith(ids, events, want).Some? ==>
      exists i: nat :: FirstAt(ids, events, want, i) && events[i] == frame
    ensures FirstWith(ids, events, want).None? ==>
      s.clean && (forall i | 0 <= i < |All(s)| :: !All(s)[i].tooLong) &&
      Some(frame) == LastOf(events + Open(Sound(All(s))))
  {
    SoundLength(All(s));
    if |Sound(All(s))| == |All(s)| {
      AllSound(All(s));
    }
  }

  lemma {:induction false} AllSound(lines: seq<Line>)
    requires |Sound(lines)| == |lines|
    ensures forall i | 0 <= i < |lines| :: !lines[i].tooLong
  {
    if lines != [] {
      AllSound(lines[1..]);
      assert forall i | 0 < i < |lines| :: lines[i] == lines[1..][i - 1];
    }
  }

  /** A line over the limit is an error, unless the reply was closed before it. */
  lemma OverLimitIsError(ids: Ids, s: Stream, want: string, k: nat)
    requires k < |All(s)| && All(s)[k].tooLong && forall i | 0 <= i < k :: !All(s)[i].tooLong
    ensures Response(ids, s, want).Err? <==> FirstWith(ids, Events(Sound(All(s)[..k])), want).None?
    ensures Response(ids, s, want).Err? ==> Response(ids, s, want).error.OverLimit?
  {
    SoundPrefix(All(s), k);
    assert Sound(All(s))[..k] == Sound(All(s));
  }

  // What a line can say

  /** What is held of some lines. */
  function Held(): seq<string> -> (seq<string>, seq<string>) {
    (texts: seq<string>) => (Pending(texts), Events(texts))
  }

  lemma HeldByFront()
    ensures ByFront(Held())
  {
    forall a, b, x: string | Held()(a) == Held()(b) ensures Held()(a + [x]) == Held()(b + [x]) {
      assert (a + [x])[..|a|] == a && (b + [x])[..|b|] == b;
    }
  }

  lemma SameAfter(a: seq<string>, b: seq<string>, more: seq<string>)
    requires Pending(a) == Pending(b) && Events(a) == Events(b)
    ensures Pending(a + more) == Pending(b + more) && Events(a + more) == Events(b + more)
  {
    HeldByFront();
    SameOn(Held(), a, b, more);
    assert Held()(a + more) == Held()(b + more);
  }

  /** A line that is neither blank nor data says nothing, wherever it stands. */
  lemma OtherLinesSayNothing(a: seq<string>, line: string, b: seq<string>)
    requires line != "" && !("data:" <= line)
    ensures Events(a + [line] + b) == Events(a + b) && Pending(a + [line] + b) == Pending(a + b)
  {
    assert (a + [line])[..|a|] == a;
    SameAfter(a + [line], a, b);
  }

  /** The space behind the label is not part of the data. */
  lemma SpaceSaysNothing(a: seq<string>, text: string, b: seq<string>)
    requires !(" " <= text)
    ensures Events(a + ["data:" + text] + b) == Events(a + ["data: " + text] + b)
  {
    LabelRead(a, "data:" + text, text);
    LabelRead(a, "data: " + text, " " + text);
    SameAfter(a + ["data:" + text], a + ["data: " + text], b);
  }

  lemma LabelRead(a: seq<string>, line: string, rest: string)
    requires line == "data:" + rest
    ensures Events(a + [line]) == Events(a)
    ensures Pending(a + [line]) == Pending(a) + [if " " <= rest then rest[1..] else rest]
  {
    assert (a + [line])[..|a|] == a && line[|DATA|..] == rest;
  }

  // Events that are written are read back

  function DataLines(parts: seq<string>): seq<string> {
    if parts == [] then [] else DataLines(parts[..|parts| - 1]) + ["data: " + parts[|parts| - 1]]
  }

  /** An event as a server writes it: its lines, then a blank one. */
  function Encoded(event: string): seq<string> {
    DataLines(Split(event, '\n')) + [""]
  }

  function EncodedAll(events: seq<string>): seq<string> {
    if events == [] then [] else EncodedAll(events[..|events| - 1]) + Encoded(events[|events| - 1])
  }

  lemma DataLineRead(before: seq<string>, last: string, line: string)
    requires line == "data: " + last
    ensures Pending(before + [line]) == Pending(before) + [last]
    ensures Events(before + [line]) == Events(before)
  {
    assert DATA <= line && Payload(line) == last by {
      assert line[|DATA|..] == " " + last;
    }
    assert (before + [line])[..|before|] == before;
  }

  lemma ConcatSnoc<T>(a: seq<T>, b: seq<T>, x: T)
    ensures a + (b + [x]) == (a + b) + [x]
  {
  }

  lemma {:induction false} DataLinesRead(before: seq<string>, parts: seq<string>)
    ensures Pending(before + DataLines(parts)) == Pending(before) + parts
    ensures Events(before + DataLines(parts)) == Events(before)
  {
    if parts == [] {
      assert before + DataLines(parts) == before;
    } else {
      var init, last := parts[..|parts| - 1], parts[|parts| - 1];
      var line := "data: " + last;
      DataLinesRead(before, init);
      DataLineRead(before + DataLines(init), last, line);
      ConcatSnoc(before, DataLines(init), line);
      ConcatSnoc(Pending(before), init, last);
      assert init + [last] == parts;
    }
  }

  /** An event that is written after others is the next one read. */
  lemma {:induction false} EventRead(before: seq<string>, event: string)
    requires Pending(before) == [] && event != "" && event[0] != '\n'
    ensures Events(before + Encoded(event)) == Events(before) + [event]
    ensures Pending(before + Encoded(event)) == []
  {
    var parts := Split(event, '\n');
    DataLinesRead(before, parts);
    var texts := before + DataLines(parts);
    assert before + Encoded(event) == texts + [""];
    assert (texts + [""])[..|texts|] == texts;
    JoinSplit(event, '\n');
    assert parts[0] != "" && DropEmpty(parts) == parts;
    assert [] + parts == parts;
  }

  /** Any list of events that are not empty and start on their first line is
      read back as it was written. */
  lemma {:induction false} EventsRoundTrip(events: seq<string>)
    requires forall i | 0 <= i < |events| :: events[i] != "" && events[i][0] != '\n'
    ensures Events(EncodedAll(events)) == events && Pending(EncodedAll(events)) == []
  {
    if events != [] {
      var init, event := events[..|events| - 1], events[|events| - 1];
      EventsRoundTrip(init);
      assert events == init + [event];
      NextEventRead(EncodedAll(init), event, Encoded(event), EncodedAll(events));
    }
  }

  lemma NextEventRead(before: seq<string>, event: string, encoded: seq<string>, texts: seq<string>)
    requires Pending(before) == [] && event != "" && event[0] != '\n'
    requires encoded == Encoded(event) && texts == before + encoded
    ensures Events(texts) == Events(before) + [event] && Pending(texts) == []
  {
    EventRead(before, event);
  }
}
