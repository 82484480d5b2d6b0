/** What a sync writes in the block of a provider: a row for each served model
    with a context window, in the order of the ids, and what each row says. */
module Catalog {
  import opened Text
  import opened Sorting
  import opened Spelling
  import opened ModelsSync

  // The steps of a model

  /** A size that is one more than a round number starts at that number. */
  predicate StartsAt(size: int, above: int) {
    above == if size > 0 && ((size - 1) % 1000 == 0 || (size - 1) % 1024 == 0) then size - 1 else size
  }

  ghost predicate IsStep(raw: RawTier) {
    raw.kind == "context" && exists above :: StartsAt(raw.size, above) && above > 0
  }

  predicate Increasing(places: seq<nat>) {
    forall i, j | 0 <= i < j < |places| :: places[i] < places[j]
  }

  /** The steps are those of the raw tiers that are steps, ascending. */
  ghost predicate AreSteps(raw: seq<RawTier>, steps: seq<Tier>) {
    Ascending(steps) &&
    exists found :: multiset(found) == multiset(steps) && AreFound(raw, found)
  }

  /** One for each raw tier that is a step, in their order. */
  ghost predicate AreFound(raw: seq<RawTier>, found: seq<Tier>)
    decreases |raw|
  {
    if raw == [] then found == []
    else
      var init, last := raw[..|raw| - 1], raw[|raw| - 1];
      if IsStep(last) then
        found != [] && StartsAt(last.size, found[|found| - 1].above) && found[|found| - 1].prices == last.prices &&
        AreFound(init, found[..|found| - 1])
      else AreFound(init, found)
  }

  lemma StartIs(size: int)
    ensures StartsAt(size, StepAbove(size)) && forall above | StartsAt(size, above) :: above == StepAbove(size)
  {
    OneOver(size);
  }

  lemma OneOver(size: int)
    ensures size > 0 ==> (size % 1000 == 1 <==> (size - 1) % 1000 == 0)
    ensures size > 0 ==> (size % 1024 == 1 <==> (size - 1) % 1024 == 0)
  {
    if size > 0 {
      OneMore(size, 1000);
      OneMore(size - 1, 1000);
      OneMore(size, 1024);
      OneMore(size - 1, 1024);
    }
  }

  lemma {:induction false} StepsAre(raw: seq<RawTier>)
    ensures AreFound(raw, StepsOf(raw))
  {
    if raw != [] {
      var init, last := raw[..|raw| - 1], raw[|raw| - 1];
      StepsAre(init);
      StartIs(last.size);
      var before := StepsOf(init);
      if IsStep(last) {
        var t := Tier(StepAbove(last.size), last.prices);
        assert StepsOf(raw) == before + [t] && (before + [t])[..|before|] == before;
      } else {
        assert StepsOf(raw) == before + [] == before;
      }
    }
  }

  // The entry of a served model

  /** What is known of a served model: what models.dev says of it, with the name
      and the window of the catalog where it gives none; otherwise what the
      catalog says; otherwise nothing but its id. */
  ghost predicate IsMerged(md: Models, baked: Entries, id: string, e: Entry) {
    if id in md then
      var m := md[id];
      e.id == id && e.reasoning == m.reasoning && e.prices == m.prices && AreSteps(m.tiers, e.tiers) &&
      (m.name != "" ==> e.name == m.name) &&
      (m.name == "" && id in baked && baked[id].name != "" ==> e.name == baked[id].name) &&
      (m.name == "" && (id !in baked || baked[id].name == "") ==> e.name == id) &&
      (m.context != 0 || id !in baked ==> e.context == m.context && e.maxOutput == m.output) &&
      (m.context == 0 && id in baked ==> e.context == baked[id].context && e.maxOutput == baked[id].maxOutput)
    else if id in baked then e == baked[id]
    else e.id == id && e.name == id && e.context == 0
  }

  lemma MergedIs(md: Models, baked: Entries, id: string)
    ensures IsMerged(md, baked, id, Merge(md, baked, id))
  {
    if id in md {
      StepsAre(md[id].tiers);
      assert multiset(StepsOf(md[id].tiers)) == multiset(Merge(md, baked, id).tiers);
    }
  }

  // The row of an entry

  predicate IsRate(x: Float, text: Option<string>) {
    text == if Positive(x) then Some(Num(x)) else None
  }

  predicate IsTierText(t: Tier, text: TierText) {
    text.above == t.above && IsRate(t.prices.input, text.input) && IsRate(t.prices.output, text.output) &&
    IsRate(t.prices.cacheRead, text.cacheRead) && IsRate(t.prices.cacheWrite, text.cacheWrite)
  }

  /** The row says what the entry holds, and its first step is the surcharge. */
  predicate IsRowOf(u: Unicode, t: Target, e: Entry, row: Row) {
    row.provider == t.provider && row.base == t.base &&
    row.id == Quote(u, e.id) && row.name == Quote(u, if e.name == "" then e.id else e.name) &&
    row.context == e.context && row.maxOutput == e.maxOutput && row.reasoning == e.reasoning &&
    row.input == Num(e.prices.input) && row.output == Num(e.prices.output) && row.cacheRead == Num(e.prices.cacheRead) &&
    IsRate(e.prices.cacheWrite, row.cacheWrite) &&
    row.surcharge == (if e.tiers == [] then None else Some(e.tiers[0].above)) &&
    |row.tiers| == |e.tiers| && forall i | 0 <= i < |e.tiers| :: IsTierText(e.tiers[i], row.tiers[i])
  }

  lemma RowIs(u: Unicode, t: Target, e: Entry)
    ensures IsRowOf(u, t, e, RowOf(u, t, e))
  {
  }

  /** A row for each entry with a context window, in their order, that says what
      it should. */
  ghost predicate AreRows(says: (Entry, Row) -> bool, es: seq<Entry>, places: seq<nat>, rows: seq<Line>) {
    Increasing(places) && (forall k: nat :: k in places <==> k < |es| && es[k].context != 0) && |rows| == |places| &&
    forall j | 0 <= j < |rows| :: places[j] < |es| && rows[j].Written? && says(es[places[j]], rows[j].row)
  }

  function Says(u: Unicode, t: Target): (Entry, Row) -> bool {
    (e: Entry, row: Row) => IsRowOf(u, t, e, row)
  }

  lemma LastRow(u: Unicode, t: Target, init: seq<Entry>, e: Entry)
    ensures RowsFor(u, t, init + [e]) == RowsFor(u, t, init) + if e.context == 0 then [] else [Written(RowOf(u, t, e))]
  {
    assert (init + [e])[..|init|] == init;
  }

  lemma {:induction false} RowsAre(u: Unicode, t: Target, es: seq<Entry>) returns (places: seq<nat>)
    ensures AreRows(Says(u, t), es, places, RowsFor(u, t, es))
  {
    if es == [] {
      places := [];
    } else {
      var n := |es| - 1;
      var init, e := es[..n], es[n];
      assert es == init + [e];
      var before := RowsAre(u, t, init);
      places := WithRow(u, t, init, e, before, RowsFor(u, t, init));
      LastRow(u, t, init, e);
    }
  }

  lemma WithRow(u: Unicode, t: Target, init: seq<Entry>, e: Entry, before: seq<nat>, rows: seq<Line>) returns (places: seq<nat>)
    requires AreRows(Says(u, t), init, before, rows)
    ensures AreRows(Says(u, t), init + [e], places, rows + if e.context == 0 then [] else [Written(RowOf(u, t, e))])
  {
    if e.context == 0 {
      places := before;
      NoRowMore(Says(u, t), init, e, before, rows);
      assert rows + [] == rows;
    } else {
      places := before + [|init|];
      RowIs(u, t, e);
      OneRowMore(Says(u, t), init, e, before, rows, RowOf(u, t, e));
    }
  }

  lemma NoRowMore(says: (Entry, Row) -> bool, init: seq<Entry>, e: Entry, places: seq<nat>, rows: seq<Line>)
    requires AreRows(says, init, places, rows) && e.context == 0
    ensures AreRows(says, init + [e], places, rows)
  {
  }

  lemma OneRowMore(says: (Entry, Row) -> bool, init: seq<Entry>, e: Entry, places: seq<nat>, rows: seq<Line>, row: Row)
    requires AreRows(says, init, places, rows) && e.context != 0 && says(e, row)
    ensures AreRows(says, init + [e], places + [|init|], rows + [Written(row)])
  {
    assert forall i | 0 <= i < |places| :: places[i] in places;
  }

  // The block

  /** A sync replaces the lines of the provider's block: the served models, each
      merged from what is known of it, in the order of their ids, with a row for
      each that has a context window. */
  lemma SyncedHolds(u: Unicode, t: Target, md: Models, served: seq<string>, lines: seq<Line>)
    returns (s: Span, all: seq<Entry>, es: seq<Entry>, places: seq<nat>, rows: seq<Line>)
    requires Synced(u, t, md, served, lines).Some?
    ensures IsBlock(lines, t.provider, s)
    ensures |all| == |served| && forall i | 0 <= i < |served| :: IsMerged(md, Baked(lines, t.provider), served[i], all[i])
    ensures multiset(es) == multiset(all) && forall i, j | 0 <= i < j < |es| :: Leq(es[i].id, es[j].id)
    ensures AreRows(Says(u, t), es, places, rows)
    ensures Synced(u, t, md, served, lines).value ==
      lines[..s.first] + (if rows == [] then [Other("")] else rows) + lines[s.end..]
  {
    var baked := Baked(lines, t.provider);
    s := Locate(lines, t.provider).value;
    all := MergeAll(md, baked, served);
    es := Reconciled(md, baked, served);
    forall i | 0 <= i < |served| ensures IsMerged(md, baked, served[i], all[i]) {
      MergedIs(md, baked, served[i]);
    }
    SortedById(es);
    places := RowsAre(u, t, es);
    rows := RowsFor(u, t, es);
  }

  lemma SortedById(es: seq<Entry>)
    requires SortedBy((e: Entry) => e.id, es)
    ensures forall i, j | 0 <= i < j < |es| :: Leq(es[i].id, es[j].id)
  {
    var key := (e: Entry) => e.id;
    forall i, j | 0 <= i < j < |es| ensures Leq(es[i].id, es[j].id) {
      assert Leq(key(es[i]), key(es[j]));
    }
  }

  /** No provider's banner, and there is nothing to replace. */
  lemma NothingToSync(u: Unicode, t: Target, md: Models, served: seq<string>, lines: seq<Line>)
    ensures Synced(u, t, md, served, lines).None? <==> Banner(t.provider) !in lines
  {
    if Banner(t.provider) in lines {
      var i :| 0 <= i < |lines| && lines[i] == Banner(t.provider);
    }
  }

  /** Line i has the id, and none after it has. */
  ghost predicate IsLast(lines: seq<Line>, id: string, e: ReadEntry, i: nat) {
    i < |lines| && ReadLine(lines[i]) == Some(e) && e.id == id &&
    forall j | i < j < |lines| && ReadLine(lines[j]).Some? :: ReadLine(lines[j]).value.id != id
  }

  lemma LastMore(init: seq<Line>, line: Line, id: string, e: ReadEntry, i: nat)
    requires i < |init|
    ensures IsLast(init + [line], id, e, i) <==>
            IsLast(init, id, e, i) && !(ReadLine(line).Some? && ReadLine(line).value.id == id)
  {
    var lines := init + [line];
    assert forall j | 0 <= j < |init| :: lines[j] == init[j];
    assert lines[|init|] == line;
  }

  /** What is read of a block: for each id, the last line of it that has it. */
  lemma {:induction false} LastLineReads(lines: seq<Line>, id: string, e: ReadEntry)
    ensures id in Parsed(lines) && Parsed(lines)[id] == e <==> exists i :: IsLast(lines, id, e, i)
  {
    if lines != [] {
      var n := |lines| - 1;
      var init, line := lines[..n], lines[n];
      assert lines == init + [line];
      LastLineReads(init, id, e);
      forall i: nat | i < n ensures IsLast(lines, id, e, i) <==> IsLast(init, id, e, i) && !(ReadLine(line).Some? && ReadLine(line).value.id == id) {
        LastMore(init, line, id, e, i);
      }
      assert IsLast(lines, id, e, n) <==> ReadLine(line) == Some(e) && e.id == id;
    }
  }
}
