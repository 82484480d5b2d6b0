/** Sealing and the verdict together: a page that passes before its notes are
    sealed passes as that release's page after. */
module SealVerdict {
  import opened Text
  import opened Notes
  import opened SealOpening
  import opened SealTheorem
  import opened SealResult
  import opened Sealing
  import opened SealingTheorems
  import opened Tally
  import opened Verdict
  import SealLoops

  // The sentence is a plain line

  lemma DigitsHaveNoBreaks(n: nat)
    ensures '\n' !in Decimal(n)
  {
    DecimalReads(n);
    assert !IsDigit('\n');
  }

  lemma SinceHasNoBreaks(ref: string)
    requires '\n' !in ref
    ensures '\n' !in SinceName(ref)
  {
    var v := Semver(ref);
    if v.Some? {
      DigitsHaveNoBreaks(v.value.major);
      DigitsHaveNoBreaks(v.value.minor);
      DigitsHaveNoBreaks(v.value.patch);
    }
  }

  lemma SentencePlain(since: string, middle: string, text: string)
    requires text == "Since " + since + middle && '\n' !in since && '\n' !in middle
    requires middle != "" && middle[|middle| - 1] == '.'
    ensures PlainCount(text)
  {
    assert "Since " <= text;
    assert text[|text| - 1] == '.';
    assert '\n' !in "Since ";
  }

  lemma PiecesHaveNoBreaks()
    ensures '\n' !in NO_BREAK && '\n' !in UNSTABLES && '\n' !in STABLES && '\n' !in REMOVED && '\n' !in NOTED
    ensures '\n' !in ": " && UNSTABLES != "" && UNSTABLES[|UNSTABLES| - 1] == '.'
  {
    PieceHasNoBreaks();
  }

  lemma PieceHasNoBreaks()
    ensures '\n' !in NOTED
  {
  }

  lemma EndsInStop(front: string, back: string)
    requires '\n' !in front && '\n' !in back && back != "" && back[|back| - 1] == '.'
    ensures '\n' !in front + back && front + back != "" && (front + back)[|front + back| - 1] == '.'
  {
  }

  lemma ShortEnds(a: string, b: string, end: string)
    requires '\n' !in a && '\n' !in b && '\n' !in end && end != "" && end[|end| - 1] == '.'
    ensures var s := a + (b + end);
      '\n' !in s && s != "" && s[|s| - 1] == '.'
  {
    EndsInStop(b, end);
    EndsInStop(a, b + end);
  }

  lemma LongEnds(a: string, b: string, c: string, d: string, e: string, f: string, g: string, h: string, end: string)
    requires '\n' !in a && '\n' !in b && '\n' !in c && '\n' !in d && '\n' !in e && '\n' !in f && '\n' !in g && '\n' !in h
    requires '\n' !in end && end != "" && end[|end| - 1] == '.'
    ensures var s := a + (b + (c + (d + (e + (f + (g + (h + end)))))));
      '\n' !in s && s != "" && s[|s| - 1] == '.'
  {
    ShortEnds(g, h, end);
    ShortEnds(e, f, g + (h + end));
    ShortEnds(c, d, e + (f + (g + (h + end))));
    ShortEnds(a, b, c + (d + (e + (f + (g + (h + end))))));
  }

  /** The sentence that breakCount writes reads as nothing but text. */
  lemma SentenceIsPlain(spell: nat -> string, c: Counts, since: string)
    requires '\n' !in since && forall n :: '\n' !in spell(n)
    ensures PlainCount(Sentence(spell, c, since))
  {
    PiecesHaveNoBreaks();
    if c.removed + c.changed == 0 {
      ShortEnds(NO_BREAK, spell(c.unstable), UNSTABLES);
    } else {
      LongEnds(": ", spell(c.removed + c.changed), STABLES, spell(c.removed), REMOVED,
        spell(c.changed), NOTED, spell(c.unstable), UNSTABLES);
    }
    SentencePlain(since, Middle(spell, c), Sentence(spell, c, since));
  }

  // The verdict before and after

  lemma SameNotes(a: seq<Cover>, b: seq<Cover>, breaks: seq<Breakage>, i: nat)
    requires SameCovers(a, b)
    ensures i < |a| ==> (IsUsed(breaks, a[i]) <==> IsUsed(breaks, b[i]))
    ensures i < |breaks| ==> (IsNoted(a, breaks[i]) <==> IsNoted(b, breaks[i]))
  {
    forall j, k | 0 <= j < |a| && 0 <= k < |breaks|
      ensures NotesBreak(a[j], breaks[k]) <==> NotesBreak(b[j], breaks[k])
    {
      assert a[j].(line := 0) == b[j].(line := 0);
    }
  }

  /** Two pages with the same covers find the same breaks without a note, and
      the same names without a break. */
  lemma SameFindings(a: Doc, b: Doc, breaks: seq<Breakage>)
    requires SameCovers(a.covers, b.covers)
    ensures Passes(Judge(a, breaks, "")) <==> Passes(Judge(b, breaks, ""))
  {
    VerdictIsExact(a, breaks, "");
    VerdictIsExact(b, breaks, "");
    forall i: nat
      ensures i < |a.covers| ==> (IsUsed(breaks, a.covers[i]) <==> IsUsed(breaks, b.covers[i]))
      ensures i < |breaks| ==> (IsNoted(a.covers, breaks[i]) <==> IsNoted(b.covers, breaks[i]))
    {
      SameNotes(a.covers, b.covers, breaks, i);
    }
  }

  lemma ReleaseFindings(doc: Doc, breaks: seq<Breakage>, release: string)
    requires release != "" && doc.pending == 0
    ensures Passes(Judge(doc, breaks, release)) <==>
      Passes(Judge(doc, breaks, "")) && forall i | 0 <= i < |doc.sealed| :: doc.sealed[i] == release
  {
    NoOtherSection(doc.sealed, release);
  }

  /** A page whose notes pass the check against the ref passes it as the page of
      the release once they are sealed, with the sentence that counts the breaks
      at the top, if and only if no other version's section is unpublished. */
  lemma SealedPagePasses(page: string, version: string, ref: string, breaks: seq<Breakage>, count: string, sealed: string)
    requires count == CountsText(CountsOfBreaks(breaks), SinceName(ref)) && '\n' !in ref
    requires SealPage(page, version, count).Ok? && SealPage(page, version, count).value.moved > 0
    requires sealed == SealPage(page, version, count).value.page
    requires Parse(page, ref).Ok? && ReadsVersion(Semver(ref), HeadingVersion(version))
    requires SteadyPage(page) && PlaceholderFree(page)
    ensures Parse(sealed, ref).Ok?
    ensures Passes(Judge(Parse(sealed, ref).value, breaks, version)) <==>
      Passes(Judge(Parse(page, ref).value, breaks, "")) &&
      forall i | 0 <= i < |Parse(page, ref).value.sealed| :: Parse(page, ref).value.sealed[i] == version
  {
    SinceHasNoBreaks(ref);
    forall n: nat ensures '\n' !in Decimal(n) {
      DigitsHaveNoBreaks(n);
    }
    SentenceIsPlain(Decimal, CountsOfBreaks(breaks), SinceName(ref));
    SealPreservesCoverage(page, version, count, ref);
    KeptPasses(Parse(page, ref).value, Parse(sealed, ref).value, SectionsBefore(page, ref), version,
      SectionsAfter(page, ref), breaks);
  }

  lemma KeptPasses(doc: Doc, after: Doc, before: seq<string>, version: string, later: seq<string>, breaks: seq<Breakage>)
    requires Kept(doc, after, before, version, later) && version != ""
    ensures Passes(Judge(after, breaks, version)) <==>
      Passes(Judge(doc, breaks, "")) && forall i | 0 <= i < |doc.sealed| :: doc.sealed[i] == version
  {
    SealedPasses(after, breaks, version, Passes(Judge(doc, breaks, "")), doc.sealed, before, later) by {
      SameFindings(doc, after, breaks);
    }
  }

  lemma SealedPasses(after: Doc, breaks: seq<Breakage>, version: string, passed: bool, sealed: seq<string>, before: seq<string>, later: seq<string>)
    requires version != "" && after.pending == 0 && passed == Passes(Judge(after, breaks, ""))
    requires sealed == before + later && after.sealed == before + [version] + later
    ensures Passes(Judge(after, breaks, version)) <==> passed && forall i | 0 <= i < |sealed| :: sealed[i] == version
  {
    ReleaseFindings(after, breaks, version);
    OneMore(before, version, later, sealed, after.sealed);
  }

  lemma OneMore<T>(before: seq<T>, x: T, later: seq<T>, xs: seq<T>, more: seq<T>)
    requires xs == before + later && more == before + [x] + later
    ensures (forall i | 0 <= i < |more| :: more[i] == x) <==> (forall i | 0 <= i < |xs| :: xs[i] == x)
  {
    var n := |before|;
    forall i | 0 <= i < |xs| ensures xs[i] == more[if i < n then i else i + 1] {
    }
    forall i | 0 <= i < |more| && i != n ensures more[i] == xs[if i < n then i else i - 1] {
    }
  }

  // The command

  lemma NothingMoved(page: string, version: string, count: string)
    requires SealPage(page, version, count).Ok? && SealPage(page, version, count).value.moved == 0
    ensures SealPage(page, version, count).value.page == page
  {
  }

  /** The notes pass the check that is made before a seal. */
  predicate Sealable(page: string, ref: string, breaks: seq<Breakage>) {
    Parse(page, ref).Ok? && Passes(Judge(Parse(page, ref).value, breaks, ""))
  }

  /** sealMain: the notes are checked, then sealed under a count of the breaks. It
      exits with 1 when the check fails and with 2 on an error, and then, or when
      there is nothing to seal, the page is as it was. */
  method SealMain(page: string, pkgs: seq<SincePkg>, ref: string, version: string) returns (code: nat, out: string)
    ensures code == 1 <==> Parse(page, ref).Ok? && !Sealable(page, ref, BreaksSince(pkgs))
    ensures var count := CountsText(CountsOfBreaks(BreaksSince(pkgs)), SinceName(ref));
      (code == 0 <==> Sealable(page, ref, BreaksSince(pkgs)) && SealPage(page, version, count).Ok?) &&
      out == if code == 0 then SealPage(page, version, count).value.page else page
  {
    var r, ok := NotesReport(page, pkgs, ref, "");
    assert ok <==> Sealable(page, ref, BreaksSince(pkgs));
    if r.Err? {
      return 2, page;
    }
    if !ok {
      return 1, page;
    }
    var breaks := ListBreaks(pkgs);
    var count := BreakCount(breaks, ref);
    code, out := SealWith(page, version, count);
  }

  method SealWith(page: string, version: string, count: string) returns (code: nat, out: string)
    ensures code == 2 || code == 0
    ensures code == 0 <==> SealPage(page, version, count).Ok?
    ensures out == if code == 0 then SealPage(page, version, count).value.page else page
  {
    var sealed := SealLoops.SealNotes(page, version, count);
    if sealed.Err? {
      return 2, page;
    }
    if sealed.value.moved == 0 {
      NothingMoved(page, version, count);
      return 0, page;
    }
    return 0, sealed.value.page;
  }
}
