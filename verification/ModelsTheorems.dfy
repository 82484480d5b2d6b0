/** What a sync of the catalog keeps: the lines outside the block, every known
    context window, and on a second sync everything. */
module ModelsTheorems {
  import opened Text
  import opened Sorting
  import opened Spelling
  import opened ModelsSync

  // Sorting what is shown of entries

  lemma ImageSnoc<T, U>(v: T -> U, xs: seq<T>, x: T)
    ensures Image(v, xs + [x]) == Image(v, xs) + [v(x)]
  {
  }

  lemma {:induction false} InsertImage<T, U>(key: T -> string, k: U -> string, v: T -> U, x: T, xs: seq<T>)
    requires forall y :: key(y) == k(v(y))
    requires SortedBy(key, xs) && SortedBy(k, Image(v, xs))
    ensures Image(v, InsertBy(key, x, xs)) == InsertBy(k, v(x), Image(v, xs))
  {
    if xs != [] {
      var init, last := xs[..|xs| - 1], xs[|xs| - 1];
      assert xs == init + [last];
      ImageSnoc(v, init, last);
      assert Image(v, xs)[..|xs| - 1] == Image(v, init);
      if Leq(key(last), key(x)) {
        ImageSnoc(v, xs, x);
      } else {
        InsertImage(key, k, v, x, init);
        ImageSnoc(v, InsertBy(key, x, init), last);
      }
    } else {
      ImageSnoc(v, xs, x);
    }
  }

  /** Sorting sees only the key: what is shown of the sorted list is the sorted
      list of what is shown. */
  lemma {:induction false} SortImage<T, U>(key: T -> string, k: U -> string, v: T -> U, xs: seq<T>)
    requires forall y :: key(y) == k(v(y))
    ensures Image(v, SortBy(key, xs)) == SortBy(k, Image(v, xs))
  {
    if xs != [] {
      var init, last := xs[..|xs| - 1], xs[|xs| - 1];
      SortImage(key, k, v, init);
      assert Image(v, xs)[..|xs| - 1] == Image(v, init);
      InsertImage(key, k, v, last, SortBy(key, init));
    }
  }

  /** What the catalog shows of an entry. */
  datatype Shown = Shown(id: string, lines: seq<Line>)

  function Show(u: Unicode, t: Target, e: Entry): Shown {
    Shown(e.id, LinesFor(u, t, e))
  }

  function Lines(shown: seq<Shown>): seq<Line> {
    if shown == [] then [] else Lines(shown[..|shown| - 1]) + shown[|shown| - 1].lines
  }

  lemma {:induction false} RowsAreShown(u: Unicode, t: Target, es: seq<Entry>)
    ensures RowsFor(u, t, es) == Lines(Image((e: Entry) => Show(u, t, e), es))
  {
    if es != [] {
      var v := (e: Entry) => Show(u, t, e);
      RowsAreShown(u, t, es[..|es| - 1]);
      assert Image(v, es)[..|es| - 1] == Image(v, es[..|es| - 1]);
    }
  }

  /** Two lists that show the same are written the same. */
  lemma SameRows(u: Unicode, t: Target, a: seq<Entry>, b: seq<Entry>)
    requires |a| == |b| && forall i | 0 <= i < |a| :: Show(u, t, a[i]) == Show(u, t, b[i])
    ensures RowsFor(u, t, SortBy((e: Entry) => e.id, a)) == RowsFor(u, t, SortBy((e: Entry) => e.id, b))
  {
    var key, k, v := (e: Entry) => e.id, (s: Shown) => s.id, (e: Entry) => Show(u, t, e);
    SortImage(key, k, v, a);
    SortImage(key, k, v, b);
    assert Image(v, a) == Image(v, b);
    RowsAreShown(u, t, SortBy(key, a));
    RowsAreShown(u, t, SortBy(key, b));
  }

  // Reading written rows

  predicate PlainPrices(p: Prices) {
    IsPlainPrice(p.input) && IsPlainPrice(p.output) && IsPlainPrice(p.cacheRead) && IsPlainPrice(p.cacheWrite)
  }

  predicate PlainTiers(ts: seq<Tier>) {
    forall i | 0 <= i < |ts| :: PlainPrices(ts[i].prices)
  }

  function ShownName(e: Entry): string {
    FirstNonEmpty(e.name, e.id)
  }

  /** An entry that a row can carry: its numbers are not negative, its prices are
      plain decimals, and its names print, without quotes and backslashes. */
  predicate Carried(u: Unicode, e: Entry) {
    e.context >= 0 && e.maxOutput >= 0 && PlainPrices(e.prices) && PlainTiers(e.tiers) &&
    IsPlainName(u, e.id) && IsPlainName(u, ShownName(e))
  }

  /** A rate that is left out reads as zero. */
  lemma RateReads(r: Float)
    ensures ReadRate(Rate(r)) == r <==> IsPlainPrice(r)
  {
    PriceReadsBack(r);
  }

  lemma TierReads(t: Tier)
    ensures ReadTiers(TierTexts([t])) == [t] <==> PlainPrices(t.prices)
  {
    RateReads(t.prices.input);
    RateReads(t.prices.output);
    RateReads(t.prices.cacheRead);
    RateReads(t.prices.cacheWrite);
    assert ReadTiers(TierTexts([t]))[0].above == t.above;
  }

  lemma TiersRead(ts: seq<Tier>)
    ensures ReadTiers(TierTexts(ts)) == ts <==> PlainTiers(ts)
  {
    forall i | 0 <= i < |ts| ensures ReadTiers(TierTexts(ts))[i] == ts[i] <==> PlainPrices(ts[i].prices) {
      TierReads(ts[i]);
      assert ReadTiers(TierTexts(ts))[i] == ReadTiers(TierTexts([ts[i]]))[0];
    }
  }

  lemma PricesRead(u: Unicode, t: Target, e: Entry)
    ensures ReadRow(RowOf(u, t, e)).prices == e.prices <==> PlainPrices(e.prices)
  {
    PriceReadsBack(e.prices.input);
    PriceReadsBack(e.prices.output);
    PriceReadsBack(e.prices.cacheRead);
    RateReads(e.prices.cacheWrite);
  }

  /** A row reads back as its entry, under the name it shows, exactly when it can
      carry the entry. */
  lemma RowReadsBack(u: Unicode, t: Target, e: Entry)
    ensures ReadRow(RowOf(u, t, e)) == e.(name := ShownName(e)) <==> Carried(u, e)
  {
    PricesRead(u, t, e);
    TiersRead(e.tiers);
    NameReadsBack(u, e.id);
    NameReadsBack(u, ShownName(e));
  }

  /** A carried entry, read back and written again, gives the same row. */
  lemma RowSettles(u: Unicode, t: Target, e: Entry)
    requires Carried(u, e)
    ensures Show(u, t, ReadRow(RowOf(u, t, e))) == Show(u, t, e)
  {
    RowReadsBack(u, t, e);
  }

  // The block that was written

  /** Some entries, each the one that m gives for its id. */
  ghost predicate AllFrom(u: Unicode, es: seq<Entry>, m: map<string, Entry>) {
    forall i | 0 <= i < |es| :: es[i].id in m && m[es[i].id] == es[i] && es[i].id != "" && IsPlainName(u, es[i].id)
  }

  predicate HasRow(e: Entry) {
    e.context != 0
  }

  lemma RowParsed(u: Unicode, t: Target, before: seq<Line>, e: Entry)
    requires e.id != "" && IsPlainName(u, e.id)
    ensures Parsed(before + LinesFor(u, t, e)) ==
      if HasRow(e) then Parsed(before)[e.id := ReadRow(RowOf(u, t, e))] else Parsed(before)
  {
    if HasRow(e) {
      NameReadsBack(u, e.id);
      var lines := before + LinesFor(u, t, e);
      assert lines[..|lines| - 1] == before;
    } else {
      assert before + LinesFor(u, t, e) == before;
    }
  }

  lemma AllFromParts(u: Unicode, init: seq<Entry>, e: Entry, m: map<string, Entry>)
    requires AllFrom(u, init + [e], m)
    ensures AllFrom(u, init, m) && e.id in m && m[e.id] == e && e.id != "" && IsPlainName(u, e.id)
  {
    assert (init + [e])[|init|] == e;
    assert forall i | 0 <= i < |init| :: (init + [e])[i] == init[i];
  }

  /** One entry more leaves for an id what it had, or gives it its own. */
  lemma EntryJoins(u: Unicode, t: Target, before: Entries, after: Entries, init: seq<Entry>, e: Entry, mine: Entry, id: string)
    requires after == if HasRow(e) then before[e.id := ReadRow(RowOf(u, t, e))] else before
    requires mine.id == id && (e.id == id ==> e == mine)
    requires BakedAs(before, id, if mine in init then After(u, t, mine) else None)
    ensures BakedAs(after, id, if mine in init + [e] then After(u, t, mine) else None)
  {
    assert mine in init + [e] <==> mine in init || e == mine;
  }

  /** What the rows of some entries hold for one id. */
  lemma {:induction false} RowsParsed(u: Unicode, t: Target, es: seq<Entry>, m: map<string, Entry>, id: string)
    requires AllFrom(u, es, m) && id in m && m[id].id == id
    ensures BakedAs(Parsed(RowsFor(u, t, es)), id, if m[id] in es then After(u, t, m[id]) else None)
  {
    if es != [] {
      var init, e := es[..|es| - 1], es[|es| - 1];
      assert es == init + [e];
      AllFromParts(u, init, e, m);
      RowsParsed(u, t, init, m, id);
      RowParsed(u, t, RowsFor(u, t, init), e);
      EntryJoins(u, t, Parsed(RowsFor(u, t, init)), Parsed(RowsFor(u, t, es)), init, e, m[id], id);
    }
  }

  /** What the catalog has for an id after a sync. */
  function After(u: Unicode, t: Target, e: Entry): Option<ReadEntry> {
    if HasRow(e) then Some(ReadRow(RowOf(u, t, e))) else None
  }

  ghost predicate BakedAs(baked: Entries, id: string, after: Option<ReadEntry>) {
    if after.Some? then id in baked && baked[id] == after.value else id !in baked
  }

  lemma {:induction false} RowsAreNoBanners(u: Unicode, t: Target, es: seq<Entry>)
    ensures forall i | 0 <= i < |RowsFor(u, t, es)| :: !RowsFor(u, t, es)[i].Banner?
  {
    if es != [] {
      RowsAreNoBanners(u, t, es[..|es| - 1]);
    }
  }

  /** The new block stands where the old one stood. */
  lemma BlockStays(lines: seq<Line>, provider: string, s: Span, body: seq<Line>)
    requires IsBlock(lines, provider, s) && forall i | 0 <= i < |body| :: !body[i].Banner?
    ensures var next := lines[..s.first] + body + lines[s.end..];
      Locate(next, provider) == Some(Span(s.first, s.first + |body|)) && next[s.first..s.first + |body|] == body
  {
    var next := lines[..s.first] + body + lines[s.end..];
    assert forall i | 0 <= i < s.first :: next[i] == lines[i];
    assert forall i | s.first <= i < s.first + |body| :: next[i] == body[i - s.first];
    assert s.end < |lines| ==> next[s.first + |body|] == lines[s.end];
    BlockIsLocated(next, provider, Span(s.first, s.first + |body|));
  }

  lemma BodyParsed(u: Unicode, rows: seq<Line>)
    ensures Parsed(Body(rows)) == Parsed(rows)
  {
    if rows == [] {
      assert Body(rows)[..0] == [];
    }
  }

  lemma BlockParsed(u: Unicode, lines: seq<Line>, provider: string, s: Span, block: seq<Line>)
    requires Locate(lines, provider) == Some(s) && block == lines[s.first..s.end]
    ensures Baked(lines, provider) == Parsed(block)
  {
  }

  /** What the catalog holds after a sync. */
  lemma BakedAfter(u: Unicode, t: Target, lines: seq<Line>, s: Span, es: seq<Entry>, rows: seq<Line>, next: seq<Line>)
    requires Locate(lines, t.provider) == Some(s) && rows == RowsFor(u, t, es)
    requires next == lines[..s.first] + Body(rows) + lines[s.end..]
    ensures Baked(next, t.provider) == Parsed(rows)
    ensures Locate(next, t.provider) == Some(Span(s.first, s.first + |Body(rows)|))
  {
    RowsAreNoBanners(u, t, es);
    BlockStays(lines, t.provider, s, Body(rows));
    BlockParsed(u, next, t.provider, Span(s.first, s.first + |Body(rows)|), Body(rows));
    BodyParsed(u, rows);
  }

  // Merging again

  ghost predicate WellKeyed(baked: Entries) {
    forall id | id in baked :: baked[id].id == id
  }

  lemma {:induction false} ParsedIsKeyed(u: Unicode, lines: seq<Line>)
    ensures WellKeyed(Parsed(lines))
  {
    if lines != [] {
      ParsedIsKeyed(u, lines[..|lines| - 1]);
    }
  }

  lemma BakedIsKeyed(u: Unicode, lines: seq<Line>, provider: string)
    ensures WellKeyed(Baked(lines, provider))
  {
    var s := Locate(lines, provider);
    if s.Some? {
      ParsedIsKeyed(u, lines[s.value.first..s.value.end]);
    }
  }

  lemma MergeKeyed(md: Models, baked: Entries, id: string)
    requires WellKeyed(baked)
    ensures Merge(md, baked, id).id == id
  {
  }

  /** The hypotheses on one served id: it prints, without quotes and backslashes,
      and so does its shown name when the community gives it none; and what is
      only baked can be carried by a row. */
  predicate Clean(u: Unicode, md: Models, baked: Entries, id: string) {
    id != "" && IsPlainName(u, id) &&
    (id in md && md[id].name == "" ==> IsPlainName(u, ShownName(Merge(md, baked, id)))) &&
    (id !in md && id in baked ==> Carried(u, baked[id]))
  }

  /** Merging an id again shows the same. */
  lemma MergeSettles(u: Unicode, t: Target, md: Models, baked: Entries, again: Entries, id: string)
    requires WellKeyed(baked) && Clean(u, md, baked, id)
    requires BakedAs(again, id, After(u, t, Merge(md, baked, id)))
    ensures Show(u, t, Merge(md, again, id)) == Show(u, t, Merge(md, baked, id))
  {
    var e := Merge(md, baked, id);
    MergeKeyed(md, baked, id);
    if id in md {
      MergeSettlesKnown(u, t, md, baked, again, id);
    } else if id in baked && HasRow(e) {
      RowSettles(u, t, e);
    }
  }

  lemma MergeSettlesKnown(u: Unicode, t: Target, md: Models, baked: Entries, again: Entries, id: string)
    requires id in md && WellKeyed(baked) && Clean(u, md, baked, id)
    requires BakedAs(again, id, After(u, t, Merge(md, baked, id)))
    ensures Show(u, t, Merge(md, again, id)) == Show(u, t, Merge(md, baked, id))
  {
    var e, m := Merge(md, baked, id), md[id];
    if HasRow(e) {
      var back := ReadRow(RowOf(u, t, e));
      NameReadsBack(u, ShownName(e));
      assert back.context == ReadInt(e.context) && back.maxOutput == ReadInt(e.maxOutput);
      assert m.name == "" ==> back.name == e.name;
    }
  }

  // The main results

  /** Every served id meets the hypotheses. */
  ghost predicate AllClean(u: Unicode, md: Models, baked: Entries, served: seq<string>) {
    forall i | 0 <= i < |served| :: Clean(u, md, baked, served[i])
  }

  lemma ServedAfter(u: Unicode, t: Target, md: Models, baked: Entries, served: seq<string>, es: seq<Entry>, i: nat)
    requires WellKeyed(baked) && AllClean(u, md, baked, served) && es == Reconciled(md, baked, served) && i < |served|
    ensures BakedAs(Parsed(RowsFor(u, t, es)), served[i], After(u, t, Merge(md, baked, served[i])))
  {
    var all := MergeAll(md, baked, served);
    var m := map id | id in served :: Merge(md, baked, id);
    forall j | 0 <= j < |es| ensures es[j].id in m && m[es[j].id] == es[j] && es[j].id != "" && IsPlainName(u, es[j].id) {
      assert es[j] in multiset(all);
      var k :| 0 <= k < |all| && all[k] == es[j];
      MergeKeyed(md, baked, served[k]);
      assert Clean(u, md, baked, served[k]);
    }
    MergeKeyed(md, baked, served[i]);
    RowsParsed(u, t, es, m, served[i]);
    assert all[i] in multiset(es);
  }

  /** A second sync on the same inputs changes nothing. */
  lemma SecondSyncChangesNothing(u: Unicode, t: Target, md: Models, served: seq<string>, lines: seq<Line>)
    requires Synced(u, t, md, served, lines).Some?
    requires AllClean(u, md, Baked(lines, t.provider), served)
    ensures Synced(u, t, md, served, Synced(u, t, md, served, lines).value) == Synced(u, t, md, served, lines)
  {
    var s := Locate(lines, t.provider).value;
    var baked := Baked(lines, t.provider);
    var es := Reconciled(md, baked, served);
    var next := Synced(u, t, md, served, lines).value;
    BakedIsKeyed(u, lines, t.provider);
    BakedAfter(u, t, lines, s, es, RowsFor(u, t, es), next);
    var again := Baked(next, t.provider);
    forall i | 0 <= i < |served|
      ensures Show(u, t, MergeAll(md, again, served)[i]) == Show(u, t, MergeAll(md, baked, served)[i])
    {
      ServedAfter(u, t, md, baked, served, es, i);
      MergeSettles(u, t, md, baked, again, served[i]);
    }
    SameRows(u, t, MergeAll(md, again, served), MergeAll(md, baked, served));
    SameBlock(lines, s, Body(RowsFor(u, t, es)), next);
  }

  lemma SameBlock(lines: seq<Line>, s: Span, body: seq<Line>, next: seq<Line>)
    requires s.first <= s.end <= |lines| && next == lines[..s.first] + body + lines[s.end..]
    ensures next[..s.first] + body + next[s.first + |body|..] == next
  {
  }

  /** The lines outside the block are kept, and the block stays where it is. */
  lemma OutsideIsKept(u: Unicode, t: Target, md: Models, served: seq<string>, lines: seq<Line>)
    requires Synced(u, t, md, served, lines).Some?
    ensures var s, next := Locate(lines, t.provider), Synced(u, t, md, served, lines).value;
      s.Some? && Locate(next, t.provider).Some? && Locate(next, t.provider).value.first == s.value.first &&
      next[..s.value.first] == lines[..s.value.first] &&
      next[Locate(next, t.provider).value.end..] == lines[s.value.end..]
  {
    var s := Locate(lines, t.provider).value;
    var es := Reconciled(md, Baked(lines, t.provider), served);
    BakedAfter(u, t, lines, s, es, RowsFor(u, t, es), Synced(u, t, md, served, lines).value);
  }

  /** A known context window of a served model never becomes zero: after the sync
      it is the community's where that is known, and the same otherwise. */
  lemma KnownContextStays(u: Unicode, t: Target, md: Models, served: seq<string>, lines: seq<Line>, id: string)
    requires Synced(u, t, md, served, lines).Some?
    requires AllClean(u, md, Baked(lines, t.provider), served)
    requires id in served && id in Baked(lines, t.provider) && Baked(lines, t.provider)[id].context > 0
    requires id in md ==> md[id].context >= 0
    ensures var after := Baked(Synced(u, t, md, served, lines).value, t.provider);
      id in after && after[id].context ==
        (if id in md && md[id].context > 0 then md[id].context else Baked(lines, t.provider)[id].context)
  {
    var s := Locate(lines, t.provider).value;
    var baked := Baked(lines, t.provider);
    var es := Reconciled(md, baked, served);
    BakedIsKeyed(u, lines, t.provider);
    BakedAfter(u, t, lines, s, es, RowsFor(u, t, es), Synced(u, t, md, served, lines).value);
    var i :| 0 <= i < |served| && served[i] == id;
    ServedAfter(u, t, md, baked, served, es, i);
  }
}
