# Verified models of terva's tools

This project models five parts of terva in Dafny and proves what they are for.

- The API promise, `cmd/terva-apidiff`. Census and closure (`Hidden`, `Closure`, `Leaks`, `Promise`), diffs
  of censuses and of trees (`Diff`, `TreeDiff`), their printed record (`Snapshot`), the two counts of breaks
  (`Tally`, `Breaks`), the migration notes with the check on them (`Notes`, `NotesLoops`, `NotesMeaning`,
  `NotesReadable`, `Versions`, `CoverTexts`, `CoverMatches`, `Verdict`), and their sealing (`Seal`,
  `ScanLaws`, `SealSection`, `Marking`, `Looks`, `Written`, `SealOpening`, `OpeningText`, `SealTheorem`,
  `SealResult`, `Sealing`, `SealingTheorems`, `SealLoops`, `SealedPage`, `SealVerdict`), with the pages that
  it breaks (`Returns`, `SealFails`).
- The structure-only view of a JSON reply and the selection of paths from it, `packages/agent/ctlshape.go`
  (`Json`, `Shape`, `ShapeLines`, `Addresses`, `ShapeTheorems`, `ShapeTexts`, `Select`, `Selections`).
- The MCP relay, `cmd/terva-mcp-bridge`: its handlers as interleaved steps (`Relay`, `RelaySafety`,
  `RelayTheorems`), the credential and the upstream calls as classes (`Credential`, `Upstream`), the event
  stream reader (`Sse`), and the token file under crashes (`TokenFile`).
- The data migration, `packages/agent/migrate.go` and `migratecmd.go` (`Migrate`, `MigrateLinks`,
  `MigrateSafety`, `MigrateCounts`, `MigrateRun`), and the endpoint rename of
  `packages/agent/modelsync.go` (`Endpoints`).
- Text and constants: quoted spans and words (`Quotes`, `Words`) and constant resolution (`Consts`,
  `ConstTexts`) of `cmd/terva-ste-lint`, and the catalog rewrite of `cmd/terva-models-sync` (`ModelsSync`,
  `ModelsTheorems`, `Catalog`) with its spelling of names and prices (`Spelling`).

`Text` holds the string operations the Go code takes from its library, `Sorting` sorted lists, and `Api`
the entities of the API tools. `dafny verify dfyconfig.toml` checks the whole project.

Where Go works step by step, a method with the same loops is proved against a specification function, and
the laws are lemmas about that function. What a result holds is said once more without it, on the
lines, paths, addresses and texts themselves. Where Go ranges over a map, the method takes its keys in
any order. What the environment decides (failures, answers, clocks, interleavings) is a parameter or a free
choice of a step.

Some promises do not hold on every input. For these the project gives the exact condition or an input that
shows the failure, and where it can both.

- A note that only says `No notes yet.` loses it when sealed. The sealed page can be read if and only if no
  note does (`SealPreservesCoverage`); a page that fails is in `PlaceholderLosesGuidance`.
- A line that still ends in a carriage return after line ends are read can become another line when the
  page is written back. Written lines say what they said if and only if none does (`WrittenLooks`), and
  sealing is proved under that condition. An Unreleased heading hidden in this way makes every sealed page
  unreadable (`HiddenHeadingLoses`, `ReturnLosesCoverage`).
- A deleted package that no manifest line claims has no class, and the report crashes on it: it has totals
  if and only if every package has one (`SinceTotals`, `CountedWhenOwned`). A manifest line for the root
  claims nothing (`RootLineNeverMatches`, `RootLinesCountNothing`).
- A clean copy loses files if and only if the old directory is itself a file or a link, or one of its files
  or links has no entry and stands below a link of the new tree (`CleanCopyLosesNothing`,
  `LinkedDirectoryLoses`). A relative old directory redirects no links (`LinksLeaveTheOldTree`).
- The token file is always whole if and only if no temporary name is taken again too early
  (`WholeExactlyWhenFresh`).
- Values at different addresses of a reply can share a printed path, through keys with dots or empty ones
  (`KeysShareAPath`). Keys without dots and brackets share one if and only if they lead the same way, empty
  keys at their start aside (`SpellTells`).
- Rows selected from an array hold what was asked if and only if the path goes on below the array
  (`RowsAlign`).
- A catalog row reads back if and only if its names and prices are plain (`RowReadsBack`).
- Two passes do not settle a constant three deep; the comment there says that no schema has one
  (`LongerChainsDepend`).
- When the config file cannot be written, the credentials of its endpoints are moved all the same
  (`KeyFollowsEndpoint`).

## Model

| member | source | states |
|---|---|---|
| `SealingTheorems.SealPreservesCoverage` | cmd/terva-apidiff/notes.go:332-407 | checked against a ref older than the version, the sealed page can be read if and only if no note is guided by the placeholder alone, and then it lists the same covers in the same order, nothing pending, and the version between the sections around it |
| `SealingTheorems.SecondSealChangesNothing` | cmd/terva-apidiff/notes.go:342-346 | sealing a sealed page again, with any version and count, gives the page back with nothing moved |
| `SealVerdict.SealedPagePasses` | cmd/terva-apidiff/notes.go:441-559 | a page that passes the check passes as the release page once sealed, if and only if no other version section is unpublished |
| `SealVerdict.SealMain` | cmd/terva-apidiff/main.go:253-289 | the page changes only when its notes pass the check and the seal succeeds; the exit codes tell the other cases apart |
| `SealVerdict.SentenceIsPlain` | cmd/terva-apidiff/notes.go:411-432 | however its numbers are spelled, the counting sentence is one line that the parser takes for text, so it cannot disturb the section it opens |
| `NotesLoops.SplitLines` | cmd/terva-apidiff/notes.go:143-162 | the loop over lines and fences marks each line as the specification does, and refuses an unclosed fence |
| `NotesLoops.ReadNotes` | cmd/terva-apidiff/notes.go:185-288 | the nested loops of the line state machine compute the fold of its steps, errors included |
| `NotesLoops.ParseNotes` | cmd/terva-apidiff/notes.go:175-289 | reading a page against a ref gives the covers, the sealed versions and the pending count, or the first error |
| `NotesReadable.PageReads` | cmd/terva-apidiff/notes.go:143-289 | a page can be read if and only if its fences are closed, no line refuses it for one of the reasons listed, its last paragraph names something and it has one Unreleased heading; then the covers are the names of its Covers: paragraphs in the sections that are read, in order, with line and class, the versions those of the sections, and the pending notes those under Unreleased |
| `CoverTexts.ReadAsName` | cmd/terva-apidiff/notes.go:294-330 | a backquoted text is read as a name if and only if it is a package, a package with the tree suffix, or a package and a symbol, without empty segments, and then as that |
| `Versions.VersionIs` | cmd/terva-apidiff/notes.go:48-50 | a version is a v and three numbers between dots |
| `Versions.EndIsRead` | cmd/terva-apidiff/notes.go:54-68 | the numbers of a version at the end of any text are read, when they are in range |
| `Versions.ReadHasEnd` | cmd/terva-apidiff/notes.go:54-68 | and only a text that ends in a version has one |
| `Versions.NewerOrders` | cmd/terva-apidiff/notes.go:70-77 | newer is a strict order of all versions in which the first number that differs decides |
| `SealLoops.FindSection` | cmd/terva-apidiff/notes.go:351-365 | one pass finds the Unreleased section, or the line at which the version is already sealed |
| `SealLoops.MoveBody` | cmd/terva-apidiff/notes.go:366-384 | the moved body loses placeholders and an unstable subsection without notes, and nothing else |
| `SealLoops.TidyBody` | cmd/terva-apidiff/notes.go:385-395 | one blank line between blocks and none at either end |
| `SealLoops.SealNotes` | cmd/terva-apidiff/notes.go:332-407 | the whole seal in place computes the specified page, or the specified error |
| `SealedPage.SealedPageHolds` | cmd/terva-apidiff/notes.go:366-407 | the lines of the sealed page, written out: those before and after the old section as they were, a fresh Unreleased section, the heading of the version with the count as its first paragraph, and the lines of the old section that move, in their order |
| `SealedPage.MovedIs` | cmd/terva-apidiff/notes.go:366-395 | the lines that move are those that say something, placeholders aside and short of an unstable part without notes, and the first blank line between two of them |
| `Returns.WrittenLooks` | cmd/terva-apidiff/notes.go:143-145 | written lines, read again, say what they said, line by line, if and only if none of them outside a fence becomes something else when its final carriage return is dropped |
| `SealFails.HiddenHeadingLoses` | cmd/terva-apidiff/notes.go:332-407 | for every page that seals: when a carriage return hides another Unreleased heading in it, the sealed page cannot be read against any ref |
| `SealFails.ReturnLosesCoverage` | cmd/terva-apidiff/notes.go:332-407 | a page of three lines that can be read and sealed and whose sealed form cannot be read, because of one carriage return |
| `SealFails.PlaceholderLosesGuidance` | cmd/terva-apidiff/notes.go:366-384 | a page that can be read and sealed and whose sealed form cannot be read, because the only guidance of its note is the placeholder |
| `Verdict.VerdictIsExact` | cmd/terva-apidiff/notes.go:459-549 | the check passes exactly when every stable break has a stable cover, every cover names a break of its class and, for a release, nothing is pending and no other version is sealed |
| `Verdict.MatchBreak` | cmd/terva-apidiff/notes.go:462-468 | one break against every cover: whether it is noted, and which covers are used so far |
| `CoverMatches.MatchReads` | cmd/terva-apidiff/notes.go:93-102 | a cover matches a break if and only if its text is the package of the break, the break in it, a type the break is a member of, or the package or a directory above it with the tree suffix |
| `Verdict.JudgeNotes` | cmd/terva-apidiff/notes.go:459-549 | the loops over breaks and covers, with the row of used marks, give the specified findings and verdict |
| `Verdict.NotesReport` | cmd/terva-apidiff/notes.go:441-559 | a bad release or page is an error; otherwise the findings on the breaks of all packages, and whether they pass |
| `Verdict.BreakCount` | cmd/terva-apidiff/notes.go:411-432 | the sentence spells the counts of the breaks and the version of the ref |
| `Text.DecimalReads` | cmd/terva-apidiff/notes.go:428-431 | a printed count reads back as the count |
| `Tally.TalliesAgree` | cmd/terva-apidiff/snapshot.go:551-645 | the counts of the page equal the totals of the report, class by class, whenever the report gives any |
| `Tally.SinceTotals` | cmd/terva-apidiff/snapshot.go:551-645 | the report has totals if and only if every package has a class to count in, and they are the sums over the packages; without a class it crashes on a nil entry |
| `Tally.Totals.CountPackage` | cmd/terva-apidiff/snapshot.go:563-590 | one package adds its removals, changes and additions to the classes they break in, and counts once in each class it touches |
| `Tally.ListBreaks` | cmd/terva-apidiff/notes.go:110-121 | the breaks of all packages, removals before changes, each in the class it breaks in |
| `Breaks.BreaksAre` | cmd/terva-apidiff/notes.go:110-121 | each removed and each changed symbol is one break, in the class of its package at the ref, or unstable when it was marked there |
| `Breaks.TotalsAre` | cmd/terva-apidiff/snapshot.go:551-645 | the totals of a class are the numbers of its removed, changed and added symbols and of the packages that count in it |
| `Tally.SentenceReads` | cmd/terva-apidiff/notes.go:411-432 | the words of the counting sentence around the numbers |
| `Tally.CountBreaks` | cmd/terva-apidiff/notes.go:411-422 | removed, changed and unstable breaks are counted apart |
| `Tally.ClassAt` | cmd/terva-apidiff/snapshot.go:721-732 | a package has the class of its own line, or else that of the line for the nearest directory above it, short of the root, or none |
| `Tally.ClassIsNearest` | cmd/terva-apidiff/snapshot.go:721-732 | the same said on the path: the line that decides is for the path or a directory above it, and none stands nearer |
| `Tally.NearestUnique` | cmd/terva-apidiff/snapshot.go:721-732 | there is only one such class |
| `Tally.RootLineNeverMatches` | cmd/terva-apidiff/snapshot.go:721-732 | manifest lines for the root change no class: they never match |
| `Tally.CountedWhenOwned` | cmd/terva-apidiff/snapshot.go:488-532 | a package listed now can always be counted, and one gone since the ref if and only if a manifest line claims it or a directory above it short of the root |
| `Tally.RootLinesCountNothing` | cmd/terva-apidiff/snapshot.go:676-718 | with lines for the root alone no gone package can be counted, so the report crashes on the first |
| `Hidden.ExpandIsReachability` | cmd/terva-apidiff/main.go:565-596 | a hidden reference is replaced by the visible references of exactly the hidden types reachable from it, each type once, with the root as their origin, on any graph |
| `Hidden.ExpandMembers` | cmd/terva-apidiff/main.go:570-596 | membership form: what is shown comes from a reachable hidden type, and everything such a type shows is there |
| `Hidden.ThroughHiddenIdempotent` | cmd/terva-apidiff/main.go:570-596 | replacing hidden references a second time changes nothing |
| `Hidden.FollowInto` | cmd/terva-apidiff/main.go:573-586 | the depth-first walk with its set of seen types ends on cyclic graphs and collects what the specification says |
| `Hidden.ReplaceHidden` | cmd/terva-apidiff/main.go:570-596 | the loop over a signature replaces each hidden reference in place and keeps the others |
| `Closure.MarkMembers` | cmd/terva-apidiff/main.go:549-553 | ranging over the map while it changes marks each member of a marked type, in any order |
| `Closure.TakeCensus` | cmd/terva-apidiff/main.go:520-563 | both passes give the specified census |
| `Closure.CheckClosure` | cmd/terva-apidiff/closure.go:55-80 | the loops compute the specified report |
| `Leaks.ReportIsExact` | cmd/terva-apidiff/closure.go:55-128 | the references followed are those of unmarked symbols of stable packages whose import path is empty, the module or below it, by line, name and place, and the leaks are those of them that break the promise, in that order |
| `Leaks.LeakIsReported` | cmd/terva-apidiff/closure.go:85-128 | a leak is reported if and only if such a reference, judged on the text of its path, has no import for its qualifier, or names a package that is unlisted or listed unstable, or a name that package does not export or has marked |
| `Closure.CleanEntries` | cmd/terva-apidiff/closure.go:55-128 | no leak is reported if and only if no reference of an unmarked symbol of a stable package breaks the promise |
| `Promise.CleanReportIsPromise` | cmd/terva-apidiff/closure.go:55-128 | the check is clean if and only if no run of references from a promised symbol, through any chain of unexported types, reaches a marked, unlisted, unstable or unexported name; what a reference names is said on the text of its import path |
| `Promise.LeakLeaves` | cmd/terva-apidiff/closure.go:85-128 | each leak gives such a run |
| `Diff.DiffSymbols` | cmd/terva-apidiff/snapshot.go:243-263 | in any map order each added, removed and changed symbol is listed once, by name |
| `Diff.ReportNames` | cmd/terva-apidiff/snapshot.go:243-263 | the three lists hold the names of exactly the symbols that differ in each way, whatever the keys are, and those are disjoint |
| `Diff.ReportHolds` | cmd/terva-apidiff/snapshot.go:243-263 | each list holds exactly the symbols it should: those of one side alone as they are there, and those that differ with what they were and whether they were marked at the base |
| `Diff.DiffApplies` | cmd/terva-apidiff/snapshot.go:243-263 | applying a diff to the base gives the kinds and signatures of the head |
| `Diff.EmptyDiffAgrees` | cmd/terva-apidiff/snapshot.go:243-263 | a diff is empty exactly when the two agree, for any two censuses |
| `Diff.KnownBefore` | cmd/terva-apidiff/snapshot.go:650-659 | filtering in place drops the vars whose type became visible and keeps the rest in order |
| `TreeDiff.TreeReportIsSum` | cmd/terva-apidiff/main.go:377-411 | the report on two trees lists what the reports on their directories list, tagged with the directory, each as often: added, removed and changed |
| `TreeDiff.CensusTree` | cmd/terva-apidiff/main.go:377-411 | each symbol stands under the key of its own directory, in any order, and no two share one |
| `TreeDiff.TreeDiffIsPerDirectory` | cmd/terva-apidiff/main.go:377-411 | a symbol is in the diff of two trees exactly when it is in the diff of its own directory |
| `TreeDiff.TreeDiffHasDirectory` | cmd/terva-apidiff/main.go:377-411 | every key in the diff of two trees is that of a symbol of a directory that one of the trees has |
| `Snapshot.SnapshotRoundTrip` | cmd/terva-apidiff/snapshot.go:192-231 | parsing a formatted snapshot gives the same symbols and markers if and only if no name reads as a comment and no unmarked kind as a marked one |
| `Snapshot.EqualBytesMeanEqualSymbols` | cmd/terva-apidiff/snapshot.go:378-420 | under one header equal bytes mean equal symbols, and equal symbols give equal bytes |
| `Snapshot.FormatSnapshot` | cmd/terva-apidiff/snapshot.go:192-208 | the loops write the specified lines, whatever order the map is ranged over in |
| `Snapshot.SortedSymbols` | cmd/terva-apidiff/snapshot.go:233-240 | sorting by name gives one list, whatever order the map is ranged over in |
| `Snapshot.ParseSnapshot` | cmd/terva-apidiff/snapshot.go:211-231 | the symbols of the lines, or the number of the first bad line |
| `ShapeLines.ShapeHidesValues` | packages/agent/ctlshape.go:35-152 | two replies that differ only in numbers, booleans and strings of the same length give the same lines |
| `ShapeLines.ShowShape` | packages/agent/ctlshape.go:35-54 | walking and printing in any order of the keys gives the specified lines |
| `ShapeTheorems.LinesTell` | packages/agent/ctlshape.go:35-152 | the lines show, sorted, the paths that the addresses of the values spell, each with the kinds, the number, the least and greatest size and the sum of the sizes of the values whose address spells it |
| `Addresses.SpellTells` | packages/agent/ctlshape.go:113-152 | two addresses whose keys hold no dot and no bracket have one path if and only if they lead the same way, whichever the items, empty keys at their start aside |
| `Addresses.KeysShareAPath` | packages/agent/ctlshape.go:141-147 | a key with a dot has the path of two keys, and an empty key that of the reply itself |
| `ShapeTexts.DescribeTells` | packages/agent/ctlshape.go:86-111 | the text for a path determines the kinds, the number of values, and their least, greatest and average size, and nothing else |
| `ShapeLines.StatsAreExact` | packages/agent/ctlshape.go:67-84 | the kinds, the least and greatest size, the number of observations and the sum of their sizes are those of the path, so the printed average is the true one |
| `ShapeLines.AverageBetween` | packages/agent/ctlshape.go:86-111 | the printed average lies between the printed least and greatest size |
| `Shape.Accumulator.ObserveAt` | packages/agent/ctlshape.go:67-84 | one observation updates the node of its path and no other |
| `Shape.WalkShape` | packages/agent/ctlshape.go:113-152 | the walk records what a reply holds as a multiset of observations, so the order of the keys does not matter |
| `Shape.RecordBoth` | packages/agent/ctlshape.go:113-152 | recording two batches is recording their union |
| `Select.RowsAlign` | packages/agent/ctlshape.go:203-244 | a path below an array gives one row per element in order; the rows hold exactly what the elements resolve if and only if the path goes on below the array, and a path that ends at it gives the fields with the empty name |
| `Selections.RowReads` | packages/agent/ctlshape.go:187-228 | a path whose keys lead to an array stands for its rows, under the part of the path that names the array, and is missing exactly when no element has a value at the rest of it |
| `Selections.ScalarReads` | packages/agent/ctlshape.go:191-201 | a path that leads to no array stands for the value at its keys, and is missing when there is none |
| `Selections.PluckLeads` | packages/agent/ctlshape.go:275-298 | a path resolves in a value if and only if some address in it goes by the keys of the path, and by items before them |
| `Selections.PluckMaps` | packages/agent/ctlshape.go:283-294 | an array is plucked item by item, in order, without those that lack the path |
| `Select.SelectPaths` | packages/agent/ctlshape.go:179-245 | the loops give a selection of the asked paths, or name a path that resolves nothing, or say that none was asked |
| `Select.SelectionUnique` | packages/agent/ctlshape.go:179-245 | a selection is determined by the reply and the asked paths |
| `Select.ScalarIsNoRowKey` | packages/agent/ctlshape.go:203-222 | the key of a scalar is never the key of rows |
| `RelayTheorems.OneReplyEach` | cmd/terva-mcp-bridge/stdioserver.go:95-167 | when serve has returned, the output splits into whole lines, one for each request read and none for anything else |
| `RelayTheorems.CallsRetryOnce` | cmd/terva-mcp-bridge/stdioserver.go:131-161 | in every reachable state a call has made at most two POSTs and one reauth; its reply is what the last POST was answered with, or an error when no POST was answered, and the other requests have their own replies without any POST |
| `RelayTheorems.CredentialKept` | cmd/terva-mcp-bridge/auth.go:59-89 | in every reachable state the client is the registered one, the refresh token is the newest issued, and at most one handler is renewing |
| `RelayTheorems.NoDeadlock` | cmd/terva-mcp-bridge/stdioserver.go:95-167 | until serve returns some step is open |
| `RelaySafety.StepKeeps` | cmd/terva-mcp-bridge/stdioserver.go:95-167 | every step of every handler and of the reader keeps the invariant, whatever the interleaving |
| `RelaySafety.OutputKept` | cmd/terva-mcp-bridge/stdioserver.go:163-167 | the output with what its writer still holds is whole lines, in the order the writes began |
| `RelaySafety.TokensKept` | cmd/terva-mcp-bridge/auth.go:79-89 | only the handler that holds the lock changes the tokens, and keeps what they promise |
| `Credential.OAuthSource.RefreshLocked` | cmd/terva-mcp-bridge/auth.go:79-89 | the tokens and the error after a refresh, for every answer |
| `Credential.OAuthSource.Header` | cmd/terva-mcp-bridge/auth.go:59-71 | the tokens and the header, with the refresh that an expiring token needs |
| `Credential.OAuthSource.Reauth` | cmd/terva-mcp-bridge/auth.go:73-77 | a reauth is one refresh |
| `Credential.HeaderIsLive` | cmd/terva-mcp-bridge/auth.go:59-71 | a header carries a token with thirty seconds left, or one the server issued just now, and the tokens change only when the one held has less |
| `Credential.PostToken` | cmd/terva-mcp-bridge/oauth.go:295-336 | tokens come only from a 2xx answer that parses and has an access token, for the same client |
| `Credential.RenewedKeeps` | cmd/terva-mcp-bridge/oauth.go:273-336 | a refresh keeps the client, never loses a refresh token, and changes one only to the one the server issued |
| `Credential.RenewedIsSteps` | cmd/terva-mcp-bridge/auth.go:79-89 | a refresh of the class is a run of the relay steps under the lock |
| `Credential.HeadedIsSteps` | cmd/terva-mcp-bridge/auth.go:59-71 | and so is a header |
| `Upstream.Upstream.Do` | cmd/terva-mcp-bridge/upstream.go:144-192 | one POST: when it is made, the session it leaves, and each status |
| `Upstream.Upstream.DoWithReauth` | cmd/terva-mcp-bridge/upstream.go:94-103 | at most two POSTs and one reauth; the status is that of the deciding POST |
| `Upstream.Upstream.Call` | cmd/terva-mcp-bridge/upstream.go:48-64 | a result if and only if the deciding POST was answered with one |
| `Sse.ReadResponseFrame` | cmd/terva-mcp-bridge/upstream.go:198-253 | the loop computes the first closed event with the wanted id, or the last event of a clean stream, or the error |
| `Sse.FrameIsTheReply` | cmd/terva-mcp-bridge/upstream.go:198-260 | a returned frame is the first event with the wanted id, or the last one of a stream that ended cleanly under the limit |
| `Sse.OtherLinesSayNothing` | cmd/terva-mcp-bridge/upstream.go:226-237 | a line that is neither blank nor data changes no event, wherever it stands |
| `Sse.SpaceSaysNothing` | cmd/terva-mcp-bridge/upstream.go:231-235 | one space behind the label is not part of the data |
| `Sse.OverLimitIsError` | cmd/terva-mcp-bridge/upstream.go:223-226 | a line over the limit is an error unless the reply was closed before it |
| `Sse.EventsRoundTrip` | cmd/terva-mcp-bridge/upstream.go:205-237 | events written as data lines are read back as they were |
| `TokenFile.TokensNeverTorn` | cmd/terva-mcp-bridge/tokenstore.go:138-185 | with any number of savers and crashes the file holds its first content or one whole payload, that of the last rename; success means the rename went through |
| `TokenFile.WholeExactlyWhenFresh` | cmd/terva-mcp-bridge/tokenstore.go:138-185 | in every run the file holds its first content or one whole payload, if and only if no temporary name is taken again before its deferred removal |
| `TokenFile.ReuseTears` | cmd/terva-mcp-bridge/tokenstore.go:162-185 | wherever the file is, a name taken again puts half a payload in its place |
| `TokenFile.ReplaceFile` | cmd/terva-mcp-bridge/tokenstore.go:205-215 | at most eight attempts, only refusals are tried again, and it succeeds exactly when the attempt that ended it renamed |
| `MigrateRun.RemovalIsSafe` | packages/agent/migratecmd.go:138-149 | when a run removes the old directory, nothing was altered, what was added mirrors the old tree whole, and every file and link in it has an entry at its path if and only if the old tree fits |
| `MigrateRun.CleanCopyLosesNothing` | packages/agent/migrate.go:158-243 | a clean copy leaves no file or link behind, if and only if each has an entry at its path already or stands below the root and below no link of the new tree |
| `MigrateRun.NothingAltered` | packages/agent/migrate.go:158-266 | whatever fails, what was in the new tree is as it was, and what is new mirrors the old tree: the bytes of a file, and for a link the same place in the new directory or its own target |
| `MigrateRun.LinkedDirectoryLoses` | packages/agent/migrate.go:188-201 | an old tree that does not fit, since the new one has a link for a directory, and whose clean copy loses a file |
| `MigrateRun.Migration.RunMigrate` | packages/agent/migratecmd.go:76-168 | under any options, answers and failures: exactly when the tree is copied, the old directory touched, removed in part or renamed, and the marker set |
| `MigrateRun.Migration.RunMigrateCommand` | packages/agent/migratecmd.go:18-44 | clashing flags change nothing; otherwise the old directory is touched only as a removal asks, and then the new tree keeps what it had and has all files and links if and only if the old tree fits |
| `MigrateRun.Migration.RemoveOldUserDir` | packages/agent/migrate.go:271-282 | removal is refused after errors and for one and the same directory |
| `MigrateSafety.WalkStep` | packages/agent/migrate.go:158-243 | each part of the walk alters nothing, adds a mirror of the old tree, and without errors places everything below it |
| `MigrateLinks.LinksLeaveTheOldTree` | packages/agent/migrate.go:211-220 | no link that leads alike points into the old directory, if and only if that directory is given by an absolute path |
| `MigrateLinks.RedirectLeadsAlike` | packages/agent/migrate.go:211-214 | a link to a place in the old directory leads to the same place in the new one, and any other target is kept |
| `MigrateLinks.DotsResolve` | packages/agent/migrate.go:211-214 | what resolving a path means: empty names and dots say nothing, a name and the parent behind it cancel, the root is its own parent, and a plain path stays |
| `MigrateCounts.EverythingCounted` | packages/agent/migrate.go:158-243 | a copy without errors counts every file and link of the old tree once, as copied or as skipped |
| `Migrate.Copier.Visit` | packages/agent/migrate.go:160-238 | the walk in place gives the specified tree and report |
| `Migrate.Copier.CopyFileNoClobber` | packages/agent/migrate.go:245-266 | a file is created only where nothing was; a failed copy leaves a part of it |
| `Migrate.Copier.CopySymlink` | packages/agent/migrate.go:202-221 | a link is recreated where nothing was, redirected when it pointed into the old directory |
| `Quotes.BlankSingleQuoted` | cmd/terva-ste-lint/rules.go:87-109 | the bytes blanked are the leftmost disjoint quoted spans and nothing else |
| `Quotes.ClosingQuote` | cmd/terva-ste-lint/rules.go:118-131 | the first quote that closes on the line, or none |
| `Quotes.BlankingUnique` | cmd/terva-ste-lint/rules.go:87-109 | there is one way to blank a text |
| `Quotes.LeftmostUnique` | cmd/terva-ste-lint/rules.go:87-109 | there is only one list of leftmost disjoint spans |
| `Quotes.NewlinesKept` | cmd/terva-ste-lint/rules.go:87-131 | newlines stay where they were |
| `Quotes.PossessiveIsProse` | cmd/terva-ste-lint/rules.go:111-138 | an apostrophe inside a word ends no span |
| `Quotes.BlankingIsIdempotent` | cmd/terva-ste-lint/rules.go:87-109 | blanking again changes nothing |
| `Words.ContainsWord` | cmd/terva-ste-lint/rules.go:275-293 | found exactly when the term stands somewhere between word boundaries |
| `Consts.ResolveConstants` | cmd/terva-ste-lint/extract.go:75-82 | the nested passes over the declarations, in the orders their ranges take |
| `Consts.ChainsSettle` | cmd/terva-ste-lint/extract.go:75-82 | n passes in any orders give each constant with chains shorter than n its one value, or none when it has none |
| `Consts.OrdersDoNotMatter` | cmd/terva-ste-lint/extract.go:75-82 | so such a constant does not show the orders |
| `Consts.LongerChainsDepend` | cmd/terva-ste-lint/extract.go:44-53 | with two passes a constant built from a built constant can come out differently in two orders |
| `Consts.FlattenMonotone` | cmd/terva-ste-lint/extract.go:205-255 | knowing more constants never makes an expression unknown |
| `ConstTexts.ValueReads` | cmd/terva-ste-lint/extract.go:205-255 | an expression has a value if and only if one of its operands is known, and the value is its operands from left to right with one placeholder for each part of which nothing is known |
| `ConstTexts.MeaningReads` | cmd/terva-ste-lint/extract.go:75-82 | what a constant stands for is the value of its expression with the names replaced by their own |
| `ModelsTheorems.SecondSyncChangesNothing` | cmd/terva-models-sync/main.go:233-497 | a second sync on the same inputs changes nothing |
| `ModelsTheorems.OutsideIsKept` | cmd/terva-models-sync/main.go:483-497 | the lines outside the block are kept and the block stays in its place |
| `Catalog.SyncedHolds` | cmd/terva-models-sync/main.go:233-497 | the block after a sync: each served model merged from the two sources field by field, in the order of the ids, with a row for each that has a context window and what each row says |
| `Catalog.LastLineReads` | cmd/terva-models-sync/main.go:368-401 | what is read of a block is, for each id, the last line of it that has it |
| `ModelsTheorems.KnownContextStays` | cmd/terva-models-sync/main.go:233-273 | a served model whose context window the catalog knows keeps it, or takes the one models.dev gives above zero |
| `ModelsTheorems.RowReadsBack` | cmd/terva-models-sync/main.go:368-481 | a rendered row reads back as its entry if and only if its numbers are not negative, its prices plain decimals and its names printed as they are |
| `Spelling.NameReadsBack` | cmd/terva-models-sync/main.go:368-401 | a name quoted by %q and cut at the next quote is the name again, if and only if it holds no quote or backslash and only printable characters |
| `Spelling.PriceReadsBack` | cmd/terva-models-sync/main.go:582-603 | a price printed by %g and read from its leading digits and dots is the price again, if and only if it is not negative and printed without an exponent |
| `ModelsSync.TiersFrom` | cmd/terva-models-sync/main.go:120-140 | the steps are context tiers above zero, folded, in ascending order |
| `ModelsSync.StepAboveFolds` | cmd/terva-models-sync/main.go:126-131 | a round step and the one after it are one step |
| `ModelsSync.LocateBlock` | cmd/terva-models-sync/main.go:351-366 | the block runs from the first banner of the provider to the next banner |
| `ModelsSync.ParseBaked` | cmd/terva-models-sync/main.go:368-401 | the entries of the block, a later line of an id winning |
| `ModelsSync.Reconcile` | cmd/terva-models-sync/main.go:233-303 | the served models in order of id, each merged from the two sources |
| `ModelsSync.SyncTarget` | cmd/terva-models-sync/main.go:190-209 | one target of the main loop: the new catalog, and whether it differs |
| `Endpoints.EndpointsAreKept` | packages/agent/modelsync.go:286-307 | in any order every endpoint keeps one id of its own, the values are the same ones, and the pin moves with its endpoint |
| `Endpoints.OnlyCollidingIdsRemain` | packages/agent/modelsync.go:290-306 | an id is left as it was exactly when its canonical form is taken |
| `Endpoints.CredentialsAreKept` | packages/agent/modelsync.go:403-441 | no credential is lost or overwritten, whichever moves could be saved |
| `Endpoints.KeyFollowsEndpoint` | packages/agent/modelsync.go:286-313 | the key of a renamed endpoint is under the id the config file gives it if and only if that file was written |
| `Endpoints.Repair.RenameEndpoints` | packages/agent/modelsync.go:289-307 | changing the map while ranging over it computes the visits of some order that meets every key |
| `Endpoints.Repair.MoveEndpointCredential` | packages/agent/modelsync.go:403-441 | a credential moves unless the new name is taken, and then both stay |
| `Endpoints.Repair.NormalizeIds` | packages/agent/modelsync.go:284-313 | the rename and then the credentials, also when the config file could not be written |

## Left out

- SealingTheorems.SealPreservesCoverage: asks for a page on which no line outside a fence becomes another when its final carriage return is dropped, and a count that reads as plain text; the second is proved of every count the tool writes, and pages that break the first are shown to fail (SealFails).
- SealVerdict.SealedPagePasses: asks for the same of the page and the count, and for a ref without a line break, which Git does not allow.
- SealVerdict.SealMain: does not model a page that cannot be read from or written to disk.
- Verdict.NotesReport: gives the findings, not the words of the printed report.
- Tally.SinceTotals: does not model the printed lines and the counts of marked symbols beside the totals.
- CoverMatches.MatchReads: asks for a package whose last directory has no dot, since no cover can name another (ReadAsName), and for a symbol as the census names it.
- Versions.EndIsRead: the digits are those of ASCII, as in the regular expression.
- Closure.TakeCensus: starts from symbols, references and unexported types; parsing Go, printing signatures, and finding the `Unstable:` paragraph in a comment are not modelled.
- Diff.DiffSymbols: which of several symbols with one printed name comes first, because Go's sort is not stable there.
- TreeDiff.CensusTree: starts from the censuses of the directories, named by their paths under the root.
- Snapshot.SnapshotRoundTrip: asks for names and kinds without tabs or line breaks, as Go's printer gives them.
- ShapeLines.ShowShape: a length is counted in UTF-8 bytes of the characters; strings that are not UTF-8 are not modelled.
- RelayTheorems.OneReplyEach: cancelled contexts and a reader that fails part way count as the end of the input; a line over the limit counts as one that is no frame.
- RelayTheorems.CredentialKept: the expiry test is a free choice of a step here; Credential models it.
- Upstream.Upstream.Call: other request headers, and bodies longer than the limit, are not modelled.
- Sse.ReadResponseFrame: lines are taken as framed; a body that is no event stream is passed on whole and not modelled.
- TokenFile.TokensNeverTorn: what a power cut does to unsynced data, encryption and JSON are not modelled.
- MigrateRun.RemovalIsSafe: the two trees are separate, and nobody else writes during the run. File modes are not modelled.
- MigrateRun.Migration.RunMigrate: the plan is given; the inspection of environment and directories that makes it is not modelled.
- Consts.ResolveConstants: what the resolved constants are then searched for is not modelled.
- ModelsTheorems.SecondSyncChangesNothing: asks of the names and prices that the second sync reads from the catalog that they be plain. The regular expressions are modelled by what they read from each kind of line; which characters Go's quoting takes as printable is a parameter, and a decimal with more digits than a float holds is not rounded.
- ModelsSync.Reconcile: the printed report of drifts, kept and retired models is not modelled.
- Endpoints.KeyFollowsEndpoint: the later repair of provider and model, and other writers of the config file, are not modelled.
- Git subprocesses, directory walks, HTTP, OAuth discovery and login, age encryption and flag parsing: given as inputs or free choices.
- The prose rules of the lint other than quotes and words, the CLI router, TUI, extensions, desktop and connector modes: easy members, or wiring of packages that are not modelled.
