/** The lines a seal puts together: sealNotes of cmd/terva-apidiff/notes.go
    moves the section under the Unreleased heading to one for a version. */
module Seal {
  import opened Notes

  predicate IsUnreleased(k: Look) {
    k.kind.Plain? && k.what.UnreleasedTop?
  }

  predicate IsUnstableSub(k: Look) {
    k.kind.Plain? && k.what.UnstableSub?
  }

  predicate IsUnstableNote(k: Look) {
    k.kind.Plain? && k.what.Sub4?
  }

  predicate NamesVersion(k: Look, version: string) {
    k.kind.Plain? && k.what.VersionTop? && k.what.version == version
  }

  /** The index of the first line that is the Unreleased heading, or |zs|. */
  function UnreleasedAt(zs: seq<Line>): (i: nat)
    ensures i <= |zs|
    ensures forall j | 0 <= j < i :: !IsUnreleased(zs[j].look)
    ensures i < |zs| ==> IsUnreleased(zs[i].look)
  {
    if zs == [] || IsUnreleased(zs[0].look) then 0 else 1 + UnreleasedAt(zs[1..])
  }

  function TopAt(zs: seq<Line>): (i: nat)
    ensures i <= |zs|
    ensures forall j | 0 <= j < i :: !zs[j].look.IsTop()
    ensures i < |zs| ==> zs[i].look.IsTop()
  {
    if zs == [] || zs[0].look.IsTop() then 0 else 1 + TopAt(zs[1..])
  }

  function UnstableAt(zs: seq<Line>): (i: nat)
    ensures i <= |zs|
    ensures forall j | 0 <= j < i :: !IsUnstableSub(zs[j].look)
    ensures i < |zs| ==> IsUnstableSub(zs[i].look)
  {
    if zs == [] || IsUnstableSub(zs[0].look) then 0 else 1 + UnstableAt(zs[1..])
  }

  function VersionAt(zs: seq<Line>, version: string): (i: nat)
    ensures i <= |zs|
    ensures forall j | 0 <= j < i :: !NamesVersion(zs[j].look, version)
    ensures i < |zs| ==> NamesVersion(zs[i].look, version)
  {
    if zs == [] || NamesVersion(zs[0].look, version) then 0 else 1 + VersionAt(zs[1..], version)
  }

  /** An unstable subsection that holds no note is left behind. */
  function Cut(sec: seq<Line>): seq<Line> {
    var at := UnstableAt(sec);
    if at < |sec| && (forall j | at <= j < |sec| :: !IsUnstableNote(sec[j].look)) then sec[..at] else sec
  }

  function DropPlaceholders(zs: seq<Line>): seq<Line> {
    if zs == [] then []
    else if zs[0].look.IsPlaceholder() then DropPlaceholders(zs[1..])
    else [zs[0]] + DropPlaceholders(zs[1..])
  }

  /** Drops a blank line after another, or after nothing when open is true. */
  function Squeeze(zs: seq<Line>, open: bool): seq<Line> {
    if zs == [] then []
    else if !zs[0].look.visible && open then Squeeze(zs[1..], true)
    else [zs[0]] + Squeeze(zs[1..], !zs[0].look.visible)
  }

  function DropBlankTail(zs: seq<Line>): seq<Line> {
    if zs != [] && !zs[|zs| - 1].look.visible then DropBlankTail(zs[..|zs| - 1]) else zs
  }

  /** One blank line between blocks, none at either end. */
  function Tidy(zs: seq<Line>): seq<Line> {
    DropBlankTail(Squeeze(zs, true))
  }

  function Texts(zs: seq<Line>): (lines: seq<string>)
    ensures |lines| == |zs|
    ensures forall i | 0 <= i < |zs| :: lines[i] == zs[i].text
  {
    if zs == [] then [] else [zs[0].text] + Texts(zs[1..])
  }

  /** The lines a seal puts in front of the notes it moves. */
  function Opening(version: string, count: string): seq<string> {
    [UNRELEASED_HEADING, "", PLACEHOLDER, "", UNSTABLE_HEADING, "", PLACEHOLDER, "", "## " + version, ""] +
    (if count != "" then [count, ""] else [])
  }

  /** The lines around the Unreleased heading: before it, its section, after. */
  function Before(zs: seq<Line>): seq<Line> {
    zs[..UnreleasedAt(zs)]
  }

  function Section(zs: seq<Line>): seq<Line>
    requires UnreleasedAt(zs) < |zs|
  {
    var rest := zs[UnreleasedAt(zs) + 1..];
    rest[..TopAt(rest)]
  }

  function After(zs: seq<Line>): seq<Line>
    requires UnreleasedAt(zs) < |zs|
  {
    var rest := zs[UnreleasedAt(zs) + 1..];
    rest[TopAt(rest)..]
  }

  function Moved(sec: seq<Line>): seq<Line> {
    Tidy(DropPlaceholders(Cut(sec)))
  }

  function SealedLines(zs: seq<Line>, version: string, count: string): seq<string>
    requires UnreleasedAt(zs) < |zs|
  {
    Texts(Before(zs)) + Opening(version, count) + Texts(Moved(Section(zs))) +
    (if After(zs) != [] then [""] else []) + Texts(After(zs))
  }
}
