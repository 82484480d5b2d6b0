/** How the lines a seal writes are seen on a page. */
module OpeningText {
  import opened Text
  import opened Notes
  import opened ScanLaws
  import opened Marking
  import opened Looks
  import opened Written
  import opened SealOpening

  lemma OpensNoFence(text: string)
    requires text != "" && !IsSpace(text[0]) && text[0] != '`' && text[0] != '~'
    ensures KindOf("", text).Plain?
  {
    TrimSpaceKeepsFirst(text);
  }

  lemma TailStays(text: string)
    requires text != "" && text[|text| - 1] != ' ' && text[|text| - 1] != '\t'
    ensures TrimTail(text) == text
  {
  }

  lemma BlankLook()
    ensures Quiet(LookAt("", ""))
  {
  }

  lemma WhatOfPlaceholder()
    ensures WhatOf(PLACEHOLDER).PlaceholderLine?
  {
    TailStays(PLACEHOLDER);
    TrimmedPlaceholder();
    assert PLACEHOLDER[0] == 'N';
  }

  lemma PlaceholderIsQuiet()
    ensures Quiet(LookAt("", PLACEHOLDER))
  {
    OpensNoFence(PLACEHOLDER);
    WhatOfPlaceholder();
  }

  lemma UnreleasedLook()
    ensures KindOf("", UNRELEASED_HEADING).Plain? && WhatOf(UNRELEASED_HEADING).UnreleasedTop?
  {
    OpensNoFence(UNRELEASED_HEADING);
    TailStays(UNRELEASED_HEADING);
  }

  lemma WhatOfUnstable()
    ensures WhatOf(UNSTABLE_HEADING).UnstableSub?
  {
    TailStays(UNSTABLE_HEADING);
    assert UNSTABLE_HEADING[2] == '#';
  }

  lemma UnstableLook()
    ensures KindOf("", UNSTABLE_HEADING).Plain? && WhatOf(UNSTABLE_HEADING).UnstableSub?
  {
    OpensNoFence(UNSTABLE_HEADING);
    WhatOfUnstable();
  }

  /** A version ends in a digit, so trimming leaves its heading alone. */
  lemma VersionEnds(version: string)
    requires IsVersion(version)
    ensures IsDigit(version[|version| - 1])
  {
    var parts := Split(version[1..], '.');
    JoinSplit(version[1..], '.');
    JoinAppend(parts[..2], parts[2], '.');
    assert parts == parts[..2] + [parts[2]];
    assert version[|version| - 1] == parts[2][|parts[2]| - 1];
  }

  lemma {:induction false} JoinHolds(parts: seq<string>, sep: char, c: char)
    requires c != sep && forall i | 0 <= i < |parts| :: c !in parts[i]
    ensures c !in Join(parts, sep)
  {
    if |parts| > 1 {
      JoinHolds(parts[1..], sep, c);
    }
  }

  lemma VersionIsOneLine(version: string)
    requires IsVersion(version)
    ensures '\n' !in "## " + version && NoReturn("## " + version)
  {
    VersionEnds(version);
    var parts := Split(version[1..], '.');
    JoinSplit(version[1..], '.');
    forall i | 0 <= i < |parts| ensures '\n' !in parts[i] {
      assert AllDigits(parts[i]);
    }
    JoinHolds(parts, '.', '\n');
    assert version == [version[0]] + version[1..];
  }

  lemma VersionLook(version: string)
    requires IsVersion(version)
    ensures KindOf("", "## " + version).Plain?
    ensures WhatOf("## " + version) == VersionTop(version, HeadingVersion(version))
  {
    var line := "## " + version;
    VersionEnds(version);
    assert line[|line| - 1] == version[|version| - 1];
    OpensNoFence(line);
    TailStays(line);
    assert line[3] == 'v' && UNRELEASED_HEADING[3] == 'U';
    assert line[3..] == version;
  }

  lemma WhatOfProse(text: string)
    requires TrimTail(text) != "" && TrimTail(text)[0] == 'S'
    requires TrimSpace(TrimTail(text)) != "" && TrimSpace(TrimTail(text))[0] == 'S'
    ensures WhatOf(text).Prose?
  {
    assert COVERS_LABEL[0] == 'C' && PLACEHOLDER[0] == 'N';
  }

  lemma {:induction false} TrimTailKeepsFirst(s: string)
    requires s != "" && !IsSpace(s[0])
    ensures TrimTail(s) != "" && TrimTail(s)[0] == s[0]
  {
    if s[|s| - 1] == ' ' || s[|s| - 1] == '\t' {
      TrimTailKeepsFirst(s[..|s| - 1]);
    }
  }

  lemma CountLook(count: string)
    requires count != "" && PlainCount(count)
    ensures KindOf("", count).Plain? && WhatOf(count).Prose?
  {
    assert count[0] == 'S';
    OpensNoFence(count);
    TrimTailKeepsFirst(count);
    TrimSpaceKeepsFirst(TrimTail(count));
    WhatOfProse(count);
  }

  // The page's own marking is faithful

  lemma PageSeesWell()
    ensures SeesWell(PAGE)
  {
    forall f, text ensures WellLooked(PAGE.look(f, text)) {
      LookIsWell(f, text);
    }
  }

  lemma PageSeesUnreleased()
    ensures SeesUnreleased(PAGE)
  {
    UnreleasedLook();
  }

  lemma PageSeesUnstable()
    ensures SeesUnstable(PAGE)
  {
    UnstableLook();
  }

  lemma PageSeesVersion(version: string)
    requires IsVersion(version)
    ensures SeesVersion(PAGE, version)
  {
    VersionLook(version);
  }

  lemma PageSeesBlank()
    ensures SeesQuiet(PAGE, "")
  {
    BlankLook();
  }

  lemma PageSeesNothing()
    ensures SeesBlank(PAGE)
  {
  }

  lemma PageSeesPlaceholder()
    ensures SeesQuiet(PAGE, PLACEHOLDER)
  {
    PlaceholderIsQuiet();
  }

  lemma PageSeesCount(count: string)
    requires count != "" && PlainCount(count)
    ensures SeesQuiet(PAGE, count)
  {
    CountLook(count);
  }

  lemma PageIsFaithful(version: string, count: string)
    requires IsVersion(version) && PlainCount(count)
    ensures Faithful(PAGE, version, count)
  {
    PageIsTame();
    PageSeesWell();
    PageSeesUnreleased();
    PageSeesUnstable();
    PageSeesVersion(version);
    PageSeesBlank();
    PageSeesNothing();
    PageSeesPlaceholder();
    if count != "" {
      PageSeesCount(count);
    }
  }
}
