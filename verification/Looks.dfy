/** Every line of a page looks well formed. */
module Looks {
  import opened Text
  import opened Notes
  import opened ScanLaws

  lemma HashOf(text: string)
    requires HasPrefix(TrimTail(text), "#")
    ensures TrimSpace(text) != "" && HasPrefix(TrimSpace(text), "#")
  {
    HeadingSurvivesTrim(text);
  }

  lemma TrimmedPlaceholder()
    ensures TrimSpace(PLACEHOLDER) == PLACEHOLDER
  {
    assert !IsSpace(PLACEHOLDER[0]) && !IsSpace(PLACEHOLDER[|PLACEHOLDER| - 1]);
  }

  lemma PlaceholderNamesNothing()
    ensures ParseNames(Backquoted(PLACEHOLDER)) == Ok([])
  {
    assert '`' !in PLACEHOLDER;
  }

  lemma PlaceholderLook(text: string)
    requires TrimTail(text) == PLACEHOLDER
    ensures TrimSpace(text) == PLACEHOLDER
  {
    TrimSpaceOfTail(text);
    TrimmedPlaceholder();
  }

  lemma WhatShowsHash(text: string)
    ensures !WhatOf(text).CoversLine? && !WhatOf(text).PlaceholderLine? && !WhatOf(text).Prose? ==>
              HasPrefix(TrimTail(text), "#")
    ensures WhatOf(text).CoversLine? ==> HasPrefix(TrimSpace(TrimTail(text)), COVERS_LABEL)
    ensures WhatOf(text).PlaceholderLine? ==> TrimTail(text) == PLACEHOLDER
    ensures WhatOf(text).VersionTop? ==> IsVersion(WhatOf(text).version)
  {
  }

  lemma LookIsWell(fence: string, text: string)
    ensures WellLooked(LookAt(fence, text))
  {
    WhatShowsHash(text);
    TrimSpaceOfTail(text);
    if HasPrefix(TrimTail(text), "#") {
      HashOf(text);
    }
    if WhatOf(text).PlaceholderLine? {
      PlaceholderLook(text);
      PlaceholderNamesNothing();
    }
    assert COVERS_LABEL[0] == 'C' && UNRELEASED[0] == 'U';
  }

  lemma {:induction false} MarkIsWell(fence: string, lines: seq<string>)
    ensures Marked(Mark(fence, lines))
    decreases |lines|
  {
    if lines != [] {
      LookIsWell(fence, lines[0]);
      MarkIsWell(NextFence(fence, lines[0]), lines[1..]);
    }
  }
}
