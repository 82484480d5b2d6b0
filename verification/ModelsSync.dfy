/** Reconciling the built-in model catalog: cmd/terva-models-sync/main.go. A line
    of the catalog is a banner, a row as the tool writes it, a row written by
    hand, of which only what the tool reads is known, or anything else. */
module ModelsSync {
  import opened Text
  import opened Sorting
  import opened Spelling

  // Entries

  datatype Prices = Prices(input: Float, output: Float, cacheRead: Float, cacheWrite: Float)

  datatype Tier = Tier(above: nat, prices: Prices)

  datatype Entry = Entry(
    id: string, name: string, context: int, maxOutput: int, reasoning: bool, prices: Prices, tiers: seq<Tier>)

  const FREE: Prices := Prices(ZERO, ZERO, ZERO, ZERO)

  /** What is read of a row is never negative. */
  type ReadEntry = e: Entry | e.context >= 0 && e.maxOutput >= 0 witness Entry("", "", 0, 0, false, FREE, [])

  // The community catalog

  datatype RawTier = RawTier(kind: string, size: int, prices: Prices)

  datatype Model = Model(name: string, context: int, output: int, reasoning: bool, prices: Prices, tiers: seq<RawTier>)

  /** Where a step starts: a round number plus one is the step written as "from".
      Go's remainder of a negative number is never one. */
  function StepAbove(size: int): int {
    if size > 0 && (size % 1000 == 1 || size % 1024 == 1) then size - 1 else size
  }

  /** Only the context tiers above zero are steps. */
  function StepsOf(raw: seq<RawTier>): seq<Tier> {
    if raw == [] then []
    else
      var t := raw[|raw| - 1];
      StepsOf(raw[..|raw| - 1]) +
      if t.kind == "context" && StepAbove(t.size) > 0 then [Tier(StepAbove(t.size), t.prices)] else []
  }

  function InsertTier(t: Tier, ts: seq<Tier>): (r: seq<Tier>)
    requires Ascending(ts)
    ensures multiset(r) == multiset(ts) + multiset{t} && Ascending(r)
  {
    if ts == [] then [t]
    else
      var init, last := ts[..|ts| - 1], ts[|ts| - 1];
      assert ts == init + [last];
      if last.above <= t.above then ts + [t]
      else
        var r := InsertTier(t, init);
        LastInserted(t, init, r, last);
        r + [last]
  }

  lemma LastInserted(t: Tier, ts: seq<Tier>, r: seq<Tier>, last: Tier)
    requires multiset(r) == multiset(ts) + multiset{t} && t.above <= last.above
    requires forall i | 0 <= i < |ts| :: ts[i].above <= last.above
    ensures forall i | 0 <= i < |r| :: r[i].above <= last.above
  {
    forall i | 0 <= i < |r| ensures r[i].above <= last.above {
      assert r[i] in multiset(r);
      assert r[i] == t || r[i] in ts;
    }
  }

  predicate Ascending(ts: seq<Tier>) {
    forall i, j | 0 <= i < j < |ts| :: ts[i].above <= ts[j].above
  }

  function SortTiers(ts: seq<Tier>): (r: seq<Tier>)
    ensures multiset(r) == multiset(ts) && Ascending(r)
  {
    if ts == [] then []
    else
      assert ts == ts[..|ts| - 1] + [ts[|ts| - 1]];
      InsertTier(ts[|ts| - 1], SortTiers(ts[..|ts| - 1]))
  }

  method TiersFrom(raw: seq<RawTier>) returns (ts: seq<Tier>)
    ensures ts == SortTiers(StepsOf(raw)) && Ascending(ts)
    ensures forall t | t in ts :: t.above > 0 && exists r :: r in raw && r.kind == "context" && r.prices == t.prices && t.above == StepAbove(r.size)
  {
    var out := [];
    for i := 0 to |raw|
      invariant out == StepsOf(raw[..i])
      invariant forall t | t in out :: t.above > 0 && exists r :: r in raw && r.kind == "context" && r.prices == t.prices && t.above == StepAbove(r.size)
    {
      assert raw[..i + 1][..i] == raw[..i];
      var t := raw[i];
      assert t in raw;
      if t.kind != "context" {
        continue;
      }
      var above := StepAbove(t.size);
      if above <= 0 {
        continue;
      }
      out := out + [Tier(above, t.prices)];
    }
    assert raw[..|raw|] == raw;
    ts := SortTiers(out);
    assert forall t | t in ts :: t in multiset(ts);
  }

  lemma EvenSize(q: nat)
    ensures (2 * q) % 1000 != 1 && (2 * q) % 1024 != 1
  {
    var a, b := (2 * q) / 1000, (2 * q) / 1024;
    assert 2 * q == 1000 * a + (2 * q) % 1000;
    assert 2 * q == 1024 * b + (2 * q) % 1024;
  }

  lemma RoundIsKept(size: nat)
    requires size % 1000 == 0 || size % 1024 == 0
    ensures StepAbove(size) == size
  {
    if size % 1000 == 0 {
      assert size == 2 * (500 * (size / 1000));
      EvenSize(500 * (size / 1000));
    } else {
      assert size == 2 * (512 * (size / 1024));
      EvenSize(512 * (size / 1024));
    }
  }

  lemma OneMore(size: nat, d: nat)
    requires d == 1000 || d == 1024
    ensures size > 0 && size % d == 1 ==> (size - 1) % d == 0
    ensures size % d == 0 ==> (size + 1) % d == 1
  {
  }

  /** Both spellings of a round step are one. */
  lemma StepAboveFolds(size: nat)
    requires size > 0 && (size % 1000 == 0 || size % 1024 == 0)
    ensures StepAbove(size + 1) == StepAbove(size) == size
  {
    RoundIsKept(size);
    OneMore(size, 1000);
    OneMore(size, 1024);
  }

  // Rows

  datatype TierText = TierText(above: nat, input: Option<string>, output: Option<string>, cacheRead: Option<string>, cacheWrite: Option<string>)

  /** A row as the tool writes it, field by field. */
  datatype Row = Row(
    provider: string, id: string, name: string, context: int, surcharge: Option<nat>, maxOutput: int, reasoning: bool,
    input: string, output: string, cacheRead: string, cacheWrite: Option<string>, tiers: seq<TierText>, base: string)

  datatype Line = Banner(name: string) | Written(row: Row) | ByHand(entry: ReadEntry) | Other(text: string)

  datatype Target = Target(provider: string, base: string)

  function FirstNonEmpty(a: string, b: string): string {
    if a != "" then a else b
  }

  function Rate(r: Float): Option<string> {
    if Positive(r) then Some(Num(r)) else None
  }

  function TierTextOf(t: Tier): TierText {
    TierText(t.above, Rate(t.prices.input), Rate(t.prices.output), Rate(t.prices.cacheRead), Rate(t.prices.cacheWrite))
  }

  function TierTexts(ts: seq<Tier>): seq<TierText> {
    seq(|ts|, i requires 0 <= i < |ts| => TierTextOf(ts[i]))
  }

  function RowOf(u: Unicode, t: Target, e: Entry): Row {
    Row(t.provider, Quote(u, e.id), Quote(u, FirstNonEmpty(e.name, e.id)), e.context,
        if e.tiers != [] then Some(e.tiers[0].above) else None, e.maxOutput, e.reasoning,
        Num(e.prices.input), Num(e.prices.output), Num(e.prices.cacheRead), Rate(e.prices.cacheWrite),
        TierTexts(e.tiers), t.base)
  }

  /** A model with no context window gets no row. */
  function LinesFor(u: Unicode, t: Target, e: Entry): seq<Line> {
    if e.context == 0 then [] else [Written(RowOf(u, t, e))]
  }

  /** A number that is not a run of digits reads as zero. */
  function ReadInt(n: int): nat {
    if n < 0 then 0 else n
  }

  function ReadRate(s: Option<string>): Float {
    if s.Some? then ReadFloat(s.value) else ZERO
  }

  function ReadTiers(ts: seq<TierText>): seq<Tier> {
    seq(|ts|, i requires 0 <= i < |ts| =>
      Tier(ts[i].above, Prices(ReadRate(ts[i].input), ReadRate(ts[i].output), ReadRate(ts[i].cacheRead), ReadRate(ts[i].cacheWrite))))
  }

  function ReadRow(r: Row): ReadEntry {
    Entry(Cut(r.id), Cut(r.name), ReadInt(r.context), ReadInt(r.maxOutput), r.reasoning,
          Prices(ReadFloat(r.input), ReadFloat(r.output), ReadFloat(r.cacheRead), ReadRate(r.cacheWrite)), ReadTiers(r.tiers))
  }

  /** What the tool reads of a line, when it finds an id on it. */
  function ReadLine(line: Line): Option<ReadEntry> {
    match line
    case Written(row) => if Cut(row.id) == "" then None else Some(ReadRow(row))
    case ByHand(e) => if e.id == "" then None else Some(e)
    case _ => None
  }

  // The block of a provider

  /** The first line from i on that is the provider's banner. */
  function BannerAt(lines: seq<Line>, provider: string, i: nat): nat
    requires i <= |lines|
    ensures i <= BannerAt(lines, provider, i) <= |lines|
    ensures BannerAt(lines, provider, i) < |lines| ==> lines[BannerAt(lines, provider, i)] == Banner(provider)
    ensures forall j | i <= j < BannerAt(lines, provider, i) :: lines[j] != Banner(provider)
    decreases |lines| - i
  {
    if i == |lines| || lines[i] == Banner(provider) then i else BannerAt(lines, provider, i + 1)
  }

  /** The first banner from i on. */
  function NextBanner(lines: seq<Line>, i: nat): nat
    requires i <= |lines|
    ensures i <= NextBanner(lines, i) <= |lines|
    ensures NextBanner(lines, i) < |lines| ==> lines[NextBanner(lines, i)].Banner?
    ensures forall j | i <= j < NextBanner(lines, i) :: !lines[j].Banner?
    decreases |lines| - i
  {
    if i == |lines| || lines[i].Banner? then i else NextBanner(lines, i + 1)
  }

  /** Where a provider's entries stand, the banners excluded. */
  datatype Span = Span(first: nat, end: nat)

  /** The lines from first to end follow the provider's first banner, and run to
      the next banner or the end. */
  ghost predicate IsBlock(lines: seq<Line>, provider: string, s: Span) {
    0 < s.first <= s.end <= |lines| && lines[s.first - 1] == Banner(provider) &&
    (forall i | 0 <= i < s.first - 1 :: lines[i] != Banner(provider)) &&
    (forall i | s.first <= i < s.end :: !lines[i].Banner?) && (s.end < |lines| ==> lines[s.end].Banner?)
  }

  function Locate(lines: seq<Line>, provider: string): (r: Option<Span>)
    ensures r.Some? ==> IsBlock(lines, provider, r.value)
    ensures r.None? ==> forall i | 0 <= i < |lines| :: lines[i] != Banner(provider)
  {
    var i := BannerAt(lines, provider, 0);
    if i == |lines| then None else Some(Span(i + 1, NextBanner(lines, i + 1)))
  }

  lemma BlockIsLocated(lines: seq<Line>, provider: string, s: Span)
    requires IsBlock(lines, provider, s)
    ensures Locate(lines, provider) == Some(s)
  {
    assert BannerAt(lines, provider, 0) == s.first - 1;
  }

  method LocateBlock(lines: seq<Line>, provider: string) returns (r: Option<Span>)
    ensures r == Locate(lines, provider)
  {
    for i := 0 to |lines|
      invariant forall k | 0 <= k < i :: lines[k] != Banner(provider)
    {
      if lines[i] != Banner(provider) {
        continue;
      }
      var first := i + 1;
      for j := first to |lines|
        invariant forall k | first <= k < j :: !lines[k].Banner?
      {
        if lines[j].Banner? {
          BlockIsLocated(lines, provider, Span(first, j));
          return Some(Span(first, j));
        }
      }
      BlockIsLocated(lines, provider, Span(first, |lines|));
      return Some(Span(first, |lines|));
    }
    return None;
  }

  type Entries = map<string, ReadEntry>

  /** The entries of some lines; a later line of an id replaces an earlier one. */
  function Parsed(lines: seq<Line>): Entries {
    if lines == [] then map[]
    else
      var before := Parsed(lines[..|lines| - 1]);
      match ReadLine(lines[|lines| - 1])
      case None => before
      case Some(e) => before[e.id := e]
  }

  function Baked(lines: seq<Line>, provider: string): Entries {
    match Locate(lines, provider)
    case None => map[]
    case Some(s) => Parsed(lines[s.first..s.end])
  }

  method ParseBaked(lines: seq<Line>, provider: string) returns (out: Entries)
    ensures out == Baked(lines, provider)
  {
    var s := LocateBlock(lines, provider);
    if s.None? {
      return map[];
    }
    out := ParseBlock(lines[s.value.first..s.value.end]);
  }

  method ParseBlock(block: seq<Line>) returns (out: Entries)
    ensures out == Parsed(block)
  {
    out := map[];
    for i := 0 to |block|
      invariant out == Parsed(block[..i])
    {
      assert block[..i + 1][..i] == block[..i];
      var e := ReadLine(block[i]);
      if e.Some? {
        out := out[e.value.id := e.value];
      }
    }
    assert block[..|block|] == block;
  }

  // Merging

  type Models = map<string, Model>

  /** One served model: the community's numbers, the baked ones where those are
      missing, and nothing but its id when neither knows it. */
  function Merge(md: Models, baked: Entries, id: string): Entry {
    if id in md then
      var m := md[id];
      var known := m.context == 0 && id in baked;
      Entry(id, FirstNonEmpty(m.name, FirstNonEmpty(if id in baked then baked[id].name else "", id)),
            if known then baked[id].context else m.context, if known then baked[id].maxOutput else m.output,
            m.reasoning, m.prices, SortTiers(StepsOf(m.tiers)))
    else if id in baked then baked[id]
    else Entry(id, id, 0, 0, false, FREE, [])
  }

  function MergeAll(md: Models, baked: Entries, served: seq<string>): seq<Entry> {
    seq(|served|, i requires 0 <= i < |served| => Merge(md, baked, served[i]))
  }

  function Reconciled(md: Models, baked: Entries, served: seq<string>): seq<Entry> {
    SortBy((e: Entry) => e.id, MergeAll(md, baked, served))
  }

  method Reconcile(md: Models, baked: Entries, served: seq<string>) returns (out: seq<Entry>)
    ensures out == Reconciled(md, baked, served)
  {
    var all := MergeServed(md, baked, served);
    out := SortBy((e: Entry) => e.id, all);
  }

  method MergeServed(md: Models, baked: Entries, served: seq<string>) returns (all: seq<Entry>)
    ensures all == MergeAll(md, baked, served)
  {
    all := [];
    for i := 0 to |served|
      invariant all == MergeAll(md, baked, served[..i])
    {
      var e := MergeOne(md, baked, served[i]);
      MergedMore(md, baked, served, i);
      all := all + [e];
    }
    assert served[..|served|] == served;
  }

  lemma MergedMore(md: Models, baked: Entries, served: seq<string>, i: nat)
    requires i < |served|
    ensures MergeAll(md, baked, served[..i + 1]) == MergeAll(md, baked, served[..i]) + [Merge(md, baked, served[i])]
  {
  }

  method MergeOne(md: Models, baked: Entries, id: string) returns (e: Entry)
    ensures e == Merge(md, baked, id)
  {
    if id in md {
      var m := md[id];
      var tiers := TiersFrom(m.tiers);
      e := Entry(id, FirstNonEmpty(m.name, FirstNonEmpty(if id in baked then baked[id].name else "", id)),
        m.context, m.output, m.reasoning, m.prices, tiers);
      if e.context == 0 && id in baked {
        e := e.(context := baked[id].context, maxOutput := baked[id].maxOutput);
      }
    } else if id in baked {
      e := baked[id];
    } else {
      e := Entry(id, id, 0, 0, false, FREE, []);
    }
  }

  // Writing the block

  function RowsFor(u: Unicode, t: Target, es: seq<Entry>): seq<Line> {
    if es == [] then [] else RowsFor(u, t, es[..|es| - 1]) + LinesFor(u, t, es[|es| - 1])
  }

  method Render(u: Unicode, t: Target, es: seq<Entry>) returns (rows: seq<Line>)
    ensures rows == RowsFor(u, t, es)
  {
    rows := [];
    for i := 0 to |es|
      invariant rows == RowsFor(u, t, es[..i])
    {
      assert es[..i + 1][..i] == es[..i];
      if es[i].context == 0 {
        continue;
      }
      rows := rows + [Written(RowOf(u, t, es[i]))];
    }
    assert es[..|es|] == es;
  }

  /** The lines of a block: splitting no rows gives one empty line. */
  function Body(rows: seq<Line>): seq<Line> {
    if rows == [] then [Other("")] else rows
  }

  /** replaceBlock, None when the provider has no banner. */
  method ReplaceBlock(lines: seq<Line>, provider: string, rows: seq<Line>) returns (next: Option<seq<Line>>)
    ensures match Locate(lines, provider)
      case None => next.None?
      case Some(s) => next == Some(lines[..s.first] + Body(rows) + lines[s.end..])
  {
    var s := LocateBlock(lines, provider);
    if s.None? {
      return None;
    }
    var body := if |rows| == 0 then [Other("")] else rows;
    return Some(lines[..s.value.first] + body + lines[s.value.end..]);
  }

  /** The catalog after one sync, None when the block is not found. */
  function Synced(u: Unicode, t: Target, md: Models, served: seq<string>, lines: seq<Line>): Option<seq<Line>> {
    match Locate(lines, t.provider)
    case None => None
    case Some(s) =>
      var rows := RowsFor(u, t, Reconciled(md, Baked(lines, t.provider), served));
      Some(lines[..s.first] + Body(rows) + lines[s.end..])
  }

  /** One target of the main loop: its block is replaced, and changed says
      whether anything differs. */
  method SyncTarget(u: Unicode, t: Target, md: Models, served: seq<string>, lines: seq<Line>)
    returns (next: Option<seq<Line>>, changed: bool)
    ensures next == Synced(u, t, md, served, lines)
    ensures changed <==> next.Some? && next.value != lines
  {
    var baked := ParseBaked(lines, t.provider);
    var merged := Reconcile(md, baked, served);
    var rows := Render(u, t, merged);
    next := ReplaceBlock(lines, t.provider, rows);
    changed := next.Some? && next.value != lines;
  }
}
