# DevHotel core: verified models

Dafny models of the parts of `packages/core` whose correctness is hardest to see by
reading one function: the bounded output engine that decides what a caller sees of a
run, the canonical printer behind sealed reports, retention and volume collection, and
the durable protocols that must survive crashes, other processes and outside actors.
`dafny verify dfyconfig.toml` checks everything.

Each part is modelled in the form it has in the source. Buffers, matchers, windows,
sinks and the operation tracker are classes whose methods update fields and arrays in
place, each method tied to a function of what was fed to it. Pure code (the JSON
printer, UTF-8 shapes, volume classification) is functions and lemmas. The protocols
are step functions over nested state values: `Apply(s, e)` is one atomic step,
`Leads(s, events, t)` a run, `Inv` what every step keeps, and the theorems speak about
every state any run can reach.

| file | what it models |
|---|---|
| `Wrappers.dfy`, `Bytes.dfy`, `Utf8.dfy` | the option type; byte sequences, newlines, code point shapes (section 3 of RFC 3629), the edges text may be cut at |
| `LiteralMatcher.dfy` | the streaming literal matcher with its failure table |
| `ByteBuffers.dfy` | the capped capture buffer and the ring that drops whole lines |
| `WindowSpec.dfy`, `WindowEnds.dfy` | what a window shows of an input, independent of chunks; longest suffix and prefix of raw or ASCII bytes |
| `WindowText.dfy`, `TextGaps.dfy`, `HeadText.dfy` | the same for text in whole code points, with exactly the inputs that leave a gap or a cut letter |
| `OutputWindow.dfy`, `RunSink.dfy` | the window and the retained copy behind it, proved against that specification |
| `PagingSpec.dfy`, `TextPages.dfy`, `RetainedReads.dfy` | one page of a retained file, where a text page may end, the scanner, and a reader that follows every resume offset |
| `Retention.dfy` | which retained runs survive a prune |
| `CanonicalJson.dfy`, `TextOrder.dfy` | canonical JSON (escaping of section 7 of RFC 8259, key order of section 3.2.3 of RFC 8785) and seals |
| `VolumeGc.dfy`, `VolumeGcPass.dfy` | volume classification, the report, and the bounded deletion pass |
| `WorkspaceDrift.dfy`, `HostResync.dfy` | snapshot comparison, and Host resync with collection, edits, failures and crashes |
| `LocaleMatrix.dfy` | the Android locale matrix with its staged recovery intent |
| `ProofGate.dfy` | physical proof gates against writer intents, over processes and their deaths |
| `ArtifactExport.dfy` | artifact export with its intent, fences, containment, crashes and startup recovery |
| `OperationTracker.dfy` | long operations: joins, replays, progress, failed saves, restarts |

## What does not hold of the code

Where a promise is false on some inputs, the model keeps the code as it is and says
exactly when it holds.

- A ring append reports every lost byte if and only if the chunk fits the ring
  (`ByteRing.append`); the window always stays within that.
- In text mode a tail window can keep a selection with a gap: a line too long for the
  window, whose kept end starts inside a code point, frees room that the end of an older
  line fills (`WindowEnds.TailGapInput`). One line leaves no gap if and only if it fits
  the window, or its kept end starts on a code point, or nothing older is held, or one
  line is all the window keeps (`WindowText.AddTextGaps`); a run has no gap at any point
  if and only if that holds of every passing line (`WindowText.GapsExactly`). What was
  behind the last such line can still be pushed out by later ones: a gap remains if and
  only if the kept end of that line and everything after it stay below the byte budget
  and the lines after it leave room for another (`TextGaps.NextGap`), and the final
  selection is the longest text that fits if and only if none remains
  (`TextGaps.LongestExactly`).
- A head window cuts its only line at the bare byte budget, even inside a code point, if
  and only if that line is flushed at the end of the input and a code point straddles
  the budget (`HeadText.HeadTextIsLongest`). So a text page of a retained file resumes at
  the edge of a code point if and only if it does not end in such a last line of a
  filtered read (`RetainedReads.ReadHeadPage`, `TextPages.SplitsLastLine`);
  `RetainedReads.ReadCutPage` reads a file where it does.
- A filtered head read is refused if and only if the line holding its offset is longer
  than one scan (`RetainedReads.ReadHeadPage`), and a reader of all pages if and only if
  the file has such a line (`RetainedReads.ReadAllPages`).
- Workspace generation numbers are fresh if and only if the recorded mark is a safe
  integer (`HostResync.NextIsFresh`); `HostResync.NumbersRunOut` is a run in which the
  counter starts over at a number whose volume exists.
- A second prune removes nothing more, however the runs are listed then, unless two of
  them tie; with a tie it can (`Retention.PassTwiceIsOnce`, `Retention.TiedPassPrunesMore`).
- The locale setter can overwrite an outside actor's locale: exactly when that actor
  wrote between the setter's last look and its landing, in time or late
  (`LocaleMatrix.OverwritesAreExplained`, `LocaleMatrix.RaceOverwrites`).
- A locale setter whose call times out may still land. Its marked list is then on no
  record if the matrix has read the original back and let go
  (`LocaleMatrix.LateSetterLosesTheWay`). While every caller waits for its setter, a
  marked list can be lost if and only if a setter of one, whose caller had gone on
  before, is still out (`LocaleMatrix.OnlyStraysLose`), and likewise for any list on a
  device without an intent (`LocaleMatrix.OnlyStraysStain`).
- Such a setter can also land between the look that finds an outsider's locale and the
  decision to abandon, which then releases a record while the device shows what DevHotel
  wrote (`LocaleMatrix.LateSetterIsAbandoned`). It can come to that if and only if a
  setter whose caller had gone on before is still out (`LocaleMatrix.OnlyStraysAbandonOwn`).
- Where the mark of an ambiguous Room fails in containment, the kept intent is all that
  guards the Room, whose row is still the one the export started from
  (`ArtifactExport.UnmarkedKeepsIntent`). A startup that drops an intent leaves no helper
  and no paused runtime, unless a live process was at work on that export after this
  startup had removed the jobs; then a helper can remain
  (`ArtifactExport.RacedStartupLeavesHelper`).
- An operation id without a request key can start twice: it runs and finishes, fifty
  newer rows prune its own, and a caller presents it again
  (`OperationTracking.StartAgain`). A start is a second one if and only if a caller
  passed the id in after the row of an earlier start was lost
  (`OperationTracking.OperationTracker.SecondStartsAreLosses`).
- An operation that outlives its Room can take the key and the place of a later one with
  its id when it ends (`OperationTracking.FinishForgotten`): two unsettled operations
  share an id only if its Room was forgotten under the first
  (`OperationTracking.OperationTracker.SharedIdsWereForgotten`).
- After two failed terminal saves, or one that failed after writing and one that did
  not write, table and memory disagree about a finished operation; and its row stays if
  and only if it is client-addressed, among the newest, or was never saved
  (`OperationTracking.TerminalRowAgrees`).

## Model

| member | source | states |
|---|---|---|
| LiteralMatching.FailureStep | packages/core/src/runOutput.ts:132-145 | following a failure link lands on the next shorter overlap and skips no candidate |
| LiteralMatching.NextOverlap | packages/core/src/runOutput.ts:132-145 | when the search stops, the longest overlap of the extended text is known |
| LiteralMatching.Advance | packages/core/src/runOutput.ts:118-145 | one byte of the automaton yields the longest overlap, and link steps plus progress never exceed progress plus one |
| LiteralMatching.LiteralMatcher.constructor | packages/core/src/runOutput.ts:118-130 | the failure table is the table of longest proper borders of the folded needle |
| LiteralMatching.LiteralMatcher.push | packages/core/src/runOutput.ts:132-145 | for every chunking, matched holds exactly when the folded concatenation contains the needle; link steps never exceed bytes fed |
| LiteralMatching.LiteralMatcher.reset | packages/core/src/runOutput.ts:147-150 | forgets everything fed |
| LiteralMatching.MatchedMeansOccurs | packages/core/src/runOutput.ts:112-151 | in every reachable matcher, matched is occurrence in all bytes fed since reset |
| Utf8.Utf8SafeHeadLength | packages/core/src/runOutput.ts:327-333 | the backward loop computes the safe length, which cuts off at most three bytes |
| Utf8.SafeCutIsBoundary | packages/core/src/runOutput.ts:318-333 | cutting well-shaped text at its safe length leaves two well-shaped halves |
| Utf8.AsciiIsSafe | packages/core/src/runOutput.ts:327-333 | ASCII is never shortened |
| Utf8.SafeIsLastEdge | packages/core/src/runOutput.ts:327-333 | the safe length is the last place within the cut where the text may be divided |
| Utf8.SuffixIsTextual | packages/core/src/runOutput.ts:269-276 | any suffix of well-shaped text is whole code points behind at most three strays |
| Utf8.EdgesAreBoundaries | packages/core/src/runOutput.ts:318-333 | text may be divided into two well-shaped halves exactly in front of a byte that is no continuation |
| ByteBuffers.RingAppend | packages/core/src/runOutput.ts:242-261 | the modular split write appends to the ring's contents in order |
| ByteBuffers.RingDrop | packages/core/src/runOutput.ts:291-300 | moving the start modulo the capacity drops exactly a prefix |
| ByteBuffers.AppendLatest | packages/core/src/runOutput.ts:179-205 | a ring keeps the last capacity bytes of what it held and got |
| ByteBuffers.BoundedByteBuffer.push | packages/core/src/runOutput.ts:179-205 | head keeps the first bytes and tail the last bytes of everything fed, for every chunking |
| ByteBuffers.BoundedByteBuffer.bytes | packages/core/src/runOutput.ts:207-214 | reads back those bytes in order across the wrap |
| ByteBuffers.ByteRing.append | packages/core/src/runOutput.ts:242-261 | keeps the latest bytes and counts dropped newlines; accounts for every byte if and only if the chunk fits |
| ByteBuffers.ByteRing.dropFirstLine | packages/core/src/runOutput.ts:263-267 | drops exactly the first line, complete or partial |
| ByteBuffers.ByteRing.trimLeadingContinuation | packages/core/src/runOutput.ts:269-276 | drops up to three leading continuation bytes and nothing else |
| ByteBuffers.ByteRing.dropPrefix | packages/core/src/runOutput.ts:291-300 | drops a clamped prefix and counts its newlines |
| ByteBuffers.ByteRing.indexOf | packages/core/src/runOutput.ts:302-307 | finds the first occurrence, or proves there is none |
| WindowSpec.ThroughFragment | packages/core/src/runOutput.ts:413-424 | bytes without a newline only extend the pending line, whatever the chunking |
| WindowSpec.ThroughAccounted | packages/core/src/runOutput.ts:435-488 | matched plus dropped lines are all lines; completed plus pending bytes are all bytes |
| WindowSpec.TailNeverFull | packages/core/src/runOutput.ts:541-608 | a tail window never refuses input |
| WindowSpec.TailKeptOffset | packages/core/src/runOutput.ts:541-608 | an unfiltered tail window has a kept offset covering everything completed |
| WindowSpec.AddHonest | packages/core/src/runOutput.ts:541-608 | one added line keeps truncation equivalent to a missing passing byte, and the budget |
| WindowSpec.ThroughHonest | packages/core/src/runOutput.ts:541-608 | over any input, truncation is claimed exactly when passing bytes are missing |
| WindowSpec.PassedFits | packages/core/src/runOutput.ts:511-539 | with no line dropped the passing bytes are the complete lines; otherwise they are strictly fewer |
| WindowSpec.WithheldIsHonest | packages/core/src/runOutput.ts:435-467 | after the end, nothing is withheld exactly when the selection is the whole input, in both modes with any filter |
| WindowEnds.TailIsLongestSuffix | packages/core/src/runOutput.ts:541-608 | tail mode holds the longest suffix of the passing lines within both budgets, with an exact line count |
| WindowEnds.HeadIsLongestPrefix | packages/core/src/runOutput.ts:541-608 | unfiltered head mode holds the longest prefix within both budgets, with an exact line count |
| WindowText.AddTextGaps | packages/core/src/runOutput.ts:581-608 | one more line of text leaves no gap if and only if it fits, or its kept end starts on a code point, or nothing older is held, or one line is the budget |
| WindowText.GapsExactly | packages/core/src/runOutput.ts:581-608 | over any text the selection is the end of the passing lines at every point if and only if every passing line is such a line |
| WindowText.TailTextIsLongest | packages/core/src/runOutput.ts:581-608 | a text tail keeps whole code points within both budgets with an exact line count, gaps or not, and where no passing line leaves a gap the longest such end of the passing lines |
| TextGaps.AddKeepsGap | packages/core/src/runOutput.ts:581-608 | a gap opens, stays or closes with one more passing line exactly as the bytes and lines kept behind it leave room |
| TextGaps.LongestExactly | packages/core/src/runOutput.ts:581-608 | the final selection of a text tail is the longest end of the passing lines in whole code points within both budgets if and only if no gap is left, and any end of them only then |
| HeadText.HeadTextIsLongest | packages/core/src/runOutput.ts:541-580 | an unfiltered text head is the longest start in whole code points within both budgets, with an exact line count, if and only if its only line is not flushed with a code point across the budget |
| WindowEnds.TailGapInput | packages/core/src/runOutput.ts:581-598 | a concrete family of inputs whose kept bytes are no suffix of the input at all |
| OutputWindows.AddToHead | packages/core/src/runOutput.ts:541-580 | the head branches on the ring compute the specified selection, counters and fate |
| OutputWindows.AddToTail | packages/core/src/runOutput.ts:581-608 | the tail branches on the ring compute the specified selection, counters and fate |
| OutputWindows.AppendAndTrim | packages/core/src/runOutput.ts:581-608 | appending, dropping excess lines and trimming continuations keep the specified bytes |
| OutputWindows.DropExcessLines | packages/core/src/runOutput.ts:581-608 | drops oldest lines until the line budget holds, and reports whether it did |
| OutputWindows.OutputWindow.pushRaw | packages/core/src/runOutput.ts:413-424 | the chunk loop leaves the window exactly at the specified view of everything fed |
| OutputWindows.OutputWindow.pushLineBytes | packages/core/src/runOutput.ts:505-509 | completes one line of the specified view |
| OutputWindows.OutputWindow.finishLine | packages/core/src/runOutput.ts:511-539 | filters, keeps or drops one line as specified and resets the capture |
| OutputWindows.OutputWindow.add | packages/core/src/runOutput.ts:541-608 | adds one line as specified to the fields and the ring |
| OutputWindows.OutputWindow.end | packages/core/src/runOutput.ts:435-440 | flushes a trailing line once; a second end changes nothing |
| OutputWindows.OutputWindow.rawBytes | packages/core/src/runOutput.ts:447-450 | returns exactly the selection of the specified view |
| RunSinks.RunSink.push | packages/core/src/runOutput.ts:627-654 | the window gets every byte whatever happens to the file; an error is sticky |
| RunSinks.RunSink.finish | packages/core/src/runOutput.ts:656-687 | a retained copy is the whole stream; without write errors the copy goes exactly when the window holds every byte and nobody forces it |
| RunSinks.WithheldMeansMissing | packages/core/src/runOutput.ts:465-468 | the window's own flag is true exactly when its bytes are not the stream |
| PagingSpec.MatchedIsPassingLines | packages/core/src/runOutput.ts:954-1020 | the selected positions of a file from any line start on are its passing lines |
| PagingSpec.ThroughOnPage | packages/core/src/runOutput.ts:1370-1428 | while scanning, the window holds exactly the selected bytes from the page's offset to the last finished line or cut |
| PagingSpec.EndedOnPage | packages/core/src/runOutput.ts:1370-1428 | flushing a partial page keeps that |
| PagingSpec.FlushFills | packages/core/src/runOutput.ts:483-488 | a page is flushed mid-line only when that fills it |
| PagingSpec.PageIsExact | packages/core/src/runOutput.ts:1370-1428 | the resume offset loses and repeats no selected byte, and moves on unless the file is exhausted |
| TextPages.AddHeadEdge | packages/core/src/runOutput.ts:541-580 | what an added line leaves ends at an edge of a code point, unless it is flushed into an empty page and straddles the budget |
| TextPages.ThroughEdges | packages/core/src/runOutput.ts:1370-1428 | while scanning, filtered or not, what a text page keeps ends at an edge |
| TextPages.EndedEdges | packages/core/src/runOutput.ts:1370-1428 | flushing keeps that if and only if the last line is not cut |
| TextPages.EndCutsIs | packages/core/src/runOutput.ts:1370-1428 | the cut, read off the file: its last line has no newline, passes, is the first to pass, and straddles the budget |
| TextPages.LetterIsCut | packages/core/src/runOutput.ts:549-575 | a family of well-shaped files whose filtered first page has that cut |
| RetainedReads.ReadCutPage | packages/core/src/runOutput.ts:954-1020 | reading the first page of such a file resumes inside a letter |
| RetainedReads.FindFilteredLineStart | packages/core/src/runOutput.ts:1336-1368 | finds the start of the line holding the offset, or reports a line start at least one scan away |
| RetainedReads.ScanChunks | packages/core/src/runOutput.ts:1370-1428 | the loop feeds the file from the base until the page is full or one scan is spent |
| RetainedReads.ScanFile | packages/core/src/runOutput.ts:1370-1428 | one page is exact; a filter gives up if and only if the first line exceeds one scan |
| RetainedReads.Request.Normalize | packages/core/src/runOutput.ts:335-354 | accepted selections satisfy every budget bound and keep their filters |
| RetainedReads.ReadHeadPage | packages/core/src/runOutput.ts:954-1020 | a head page is exact from any offset; refusal if and only if the offset's line exceeds one scan; a text page resumes at an edge if and only if it does not cut the last line |
| RetainedReads.ReadTailPage | packages/core/src/runOutput.ts:954-1020 | a tail read is the longest suffix of raw or ASCII bytes within the budgets; of text, whole code points within them, and the longest such end if and only if no gap is left; it reaches the end |
| RetainedReads.Read | packages/core/src/runOutput.ts:954-1020 | every branch of a read: missing file, past the end, refused selections, tail and head pages with their bytes |
| RetainedReads.ReadAllPages | packages/core/src/runOutput.ts:954-1020 | following the offsets terminates and returns exactly the passing lines; it is refused if and only if a filter meets a file with a line longer than one scan; without a filter, exactly the file |
| RetainedReads.ReadTextPages | packages/core/src/runOutput.ts:327-333 | text pages of well-shaped UTF-8 are each well shaped and concatenate to the file |
| Retention.NewestFirstSorts | packages/core/src/runOutput.ts:1168-1173 | the order is a permutation, newest first, with the protected run in front |
| Retention.Prune | packages/core/src/runOutput.ts:1174-1209 | the loop keeps and deletes exactly the specified runs, each run once |
| Retention.NothingLost | packages/core/src/runOutput.ts:1174-1209 | every run is kept or pruned, and pins are never pruned |
| Retention.PrunedIsSuffix | packages/core/src/runOutput.ts:1192-1209 | after the first unpinned run pruned, every unpinned run is |
| Retention.KeptFits | packages/core/src/runOutput.ts:1190-1206 | a kept run that is neither first nor pinned fits both budgets with all kept before it |
| Retention.FirstPrunedDidNotFit | packages/core/src/runOutput.ts:1190-1206 | the newest pruned run did not fit |
| Retention.ProtectedSurvive | packages/core/src/runOutput.ts:1178-1193 | the first run and the pinned runs survive |
| Retention.PruneIsIdempotent | packages/core/src/runOutput.ts:1174-1209 | the loop over what it kept, in the same order, removes nothing |
| Retention.PassTwiceIsOnce | packages/core/src/runOutput.ts:1164-1209 | sorting and pruning again what a pass kept, in whatever order it is listed then, gives the same runs, unless two of them tie |
| Retention.TiedPassPrunesMore | packages/core/src/runOutput.ts:1168-1173 | with a tie the listing order decides whether an unpinned run goes |
| CanonicalJson.QuoteUnique | packages/core/src/androidAcceptanceReport.ts:16 | escaped strings are self-delimiting: no two strings print alike, whatever follows |
| CanonicalJson.InsertSorts | packages/core/src/androidAcceptanceReport.ts:23-26 | ordering by keys keeps the keys and sorts them |
| CanonicalJson.CanonicalIsPrint | packages/core/src/androidAcceptanceReport.ts:14-30 | the printer throws exactly on unprintable values and otherwise prints the sorted, filtered tree |
| CanonicalJson.PrintUnique | packages/core/src/androidAcceptanceReport.ts:14-30 | a printed tree can be read back from any text that may follow it |
| CanonicalJson.SortedTreeUnique | packages/core/src/androidAcceptanceReport.ts:22-28 | a value has one sorted tree |
| CanonicalJson.CanonicalIsExact | packages/core/src/androidAcceptanceReport.ts:14-30 | two values print the same text if and only if they are equal as JSON values, entry order and absent fields aside |
| CanonicalJson.SealBindsValue | packages/core/src/androidAcceptanceReport.ts:36-74 | a seal verifies a report if and only if that parses to the sealed value, is small enough, and redaction leaves its value alone |
| CanonicalJson.SealRefuses | packages/core/src/androidAcceptanceReport.ts:36-49 | sealing fails exactly if the schema refuses the redacted value, it is unprintable, or the report is too large |
| VolumeGc.LiveUndoReferences | packages/core/src/volumeGc.ts:340-364 | the merge loop skips superseded installs and unions everything else |
| VolumeGc.ReferencesAreNamed | packages/core/src/volumeGc.ts:301-364 | a merged reference is made by some single live row, and every such reference is merged |
| VolumeGc.InstallRetains | packages/core/src/volumeGc.ts:280-327 | a live install retains both sides of its swap, workspace and dependencies, a superseded one nothing |
| VolumeGc.RetainsWhileItGoesBack | packages/core/src/changes/definitions/packageInstall.ts:299-331 | at its own Node major and with its dependencies published, an install's row retains anything exactly while its undo would go back |
| VolumeGc.InstallCanBeUndone | packages/core/src/changes/definitions/packageInstall.ts:299-331 | while the undo of a live install would be accepted, the workspace and the dependencies it comes back to are never offered |
| VolumeGc.SafeInRoom | packages/core/src/volumeGc.ts:452-623 | within an existing quiet Room, a volume is offered exactly when owned, detached, sized and unneeded |
| VolumeGc.SafeIsUnneeded | packages/core/src/volumeGc.ts:388-623 | a volume is offered for deletion if and only if it is provably unneeded, over every branch of the classification |
| VolumeGc.NeededIsKept | packages/core/src/volumeGc.ts:452-623 | current, retained, staged, cache, declared service data and undo targets are never offered |
| VolumeGc.UndoTargetsAreKept | packages/core/src/volumeGc.ts:236-337 | whatever an undoable, unsuperseded change names (workspace, dependencies in either record form, a switched-from Node major, a service) is never offered |
| VolumeGcPass.Reconcile | packages/core/src/volumeGc.ts:366-750 | both passes together produce the records, class summaries and totals they should |
| VolumeGcPass.ClassesAddUp | packages/core/src/volumeGc.ts:640-750 | the class summaries add up to the totals, and candidate bytes are reclaimable bytes of orphaned classes |
| VolumeGcPass.CandidatesAreReclaimable | packages/core/src/volumeGc.ts:672-750 | every byte offered is a reclaimable byte of an orphaned class |
| VolumeGcPass.RemoveCandidateIfStillSafe | packages/core/src/orchestrator.ts:5363-5394 | a candidate goes if and only if a new look proves it unneeded, within the remaining bytes and before the deadline |
| VolumeGcPass.Sweep | packages/core/src/volumeGc.ts:815-866 | attempts, bytes and deadline stay within bounds, and every candidate's fate is justified at its moment |
| VolumeGcPass.ExecuteVolumeGc | packages/core/src/volumeGc.ts:773-881 | dry run by default, refusal exactly on unbounded options, a real pass within them, and the last safety check never fires |
| VolumeGcPass.FatesAreDecided | packages/core/src/volumeGc.ts:815-866 | bounds, clock and each new look leave exactly one justified outcome of a pass |
| VolumeGcPass.EveryCandidateAccounted | packages/core/src/volumeGc.ts:815-866 | every candidate stands in exactly one of deleted, errors and skipped |
| WorkspaceDrift.DiffWorkspaceSnapshots | packages/core/src/workspaceDrift.ts:59-78 | exactly the differing paths, each with its reason, in byte order |
| WorkspaceDrift.DiffIsUnique | packages/core/src/workspaceDrift.ts:59-78 | the comparison is a function of the two trees, not of how snapshots list them |
| WorkspaceDrift.CleanIsEqual | packages/core/src/workspaceDrift.ts:59-78 | no change is listed if and only if the trees are equal |
| WorkspaceDrift.DiffMirrors | packages/core/src/workspaceDrift.ts:59-78 | swapping the sides swaps additions and deletions and nothing else |
| WorkspaceDrift.ChangesSuffice | packages/core/src/workspaceDrift.ts:59-78 | taking over the listed paths turns one tree into the other |
| HostResync.NextIsFresh | packages/core/src/workingState.ts:16-20 | the next number lies beyond the record if and only if the record is a safe integer, and always beyond the current one |
| HostResync.CollectSpares | packages/core/src/orchestrator.ts:5363-5394 | a collection step never takes the current or the retained generation |
| HostResync.StepKeeps | packages/core/src/orchestrator.ts:9204-9482 | every step, failed call, edit, package install, collection and crash keeps the whole invariant |
| HostResync.StorageIsSound | packages/core/src/orchestrator.ts:9286-9479 | in every run the published and the retained generation exist and differ |
| HostResync.NumbersAreUsedOnce | packages/core/src/orchestrator.ts:9286-9300 | in every run, with package installs drawing on the same counter, staged numbers strictly increase and never meet an existing volume, while numbers stay safe integers |
| HostResync.NumbersRunOut | packages/core/src/workingState.ts:16-20 | a run in which the number after the last safe one is recorded and the next reservation meets an existing volume |
| HostResync.SyncsAreInformed | packages/core/src/orchestrator.ts:9059-9135 | in every run a safe sync replaced exactly the inspected tree, which was clean or the one its token was issued for, to the same actor, for the same generation and before expiry |
| HostResync.TokensAreUsedOnce | packages/core/src/orchestrator.ts:9071-9111 | in every run a confirmation token is accepted at most once |
| HostResync.ReplacedIsRecoverable | packages/core/src/orchestrator.ts:9370-9479 | until the next sync, the replaced tree can be read from the retained generation |
| HostResync.CleanIsNoChanges | packages/core/src/orchestrator.ts:9512-9530 | drift by path snapshot is clean exactly when the comparison lists nothing |
| LocaleMatrix.StepKeeps | packages/core/src/orchestrator.ts:5915-6307 | every step of controller, device, outside actor, late setter and crash keeps the whole invariant |
| LocaleMatrix.MarkedIsRecoverable | packages/core/src/orchestrator.ts:487-501 | in every run where no marked list landed after its caller went on, a marked locale on the device is claimed by a stored intent that knows an unmarked original, records of older versions included |
| LocaleMatrix.OnlyStraysLose | packages/core/src/orchestrator.ts:6185-6271 | while every caller waits for its setter, that can fail if and only if a setter of a marked list whose caller had gone on is still out |
| LocaleMatrix.LateSetterLosesTheWay | packages/core/src/devices/androidAutomation.ts:1974-1998 | the run in which a timed-out setter lands after the original was read back and the intent deleted |
| LocaleMatrix.UnheldIsClean | packages/core/src/orchestrator.ts:6185-6271 | in every run where no setter landed after its caller went on, without an intent the device is unmarked and shows the restored original or an outsider's value |
| LocaleMatrix.OnlyStraysStain | packages/core/src/orchestrator.ts:6185-6271 | while every caller waits for its setter, that can fail if and only if a setter whose caller had gone on is still out |
| LocaleMatrix.DispatchComesFirst | packages/core/src/orchestrator.ts:6040-6093 | in every run, owned implies dispatched as parsed from the record, and a setter waited for is on record with its exact value |
| LocaleMatrix.OverwritesAreExplained | packages/core/src/devices/androidAutomation.ts:1943-1998 | in every run, a setter, landing in time or late, replaced a foreign locale if and only if one was written after its last look |
| LocaleMatrix.RaceOverwrites | packages/core/src/devices/androidAutomation.ts:1943-1998 | such a run exists for any two different unmarked locales |
| LocaleMatrix.AbandonIsSafe | packages/core/src/orchestrator.ts:2821-2849 | in every run without late landings, abandoning releases only an undispatched version 4 record over an outsider's unmarked locale with no setter waited for |
| LocaleMatrix.AbandonedMarkIsLate | packages/core/src/orchestrator.ts:2840-2846 | in every run, late landings included, a record is abandoned over a marked device only if a marked list landed late after the look |
| LocaleMatrix.OnlyStraysAbandonOwn | packages/core/src/orchestrator.ts:2821-2849 | while every caller waits for its setter, a record can come to be abandoned over a list DevHotel wrote if and only if a setter whose caller had gone on is still out |
| LocaleMatrix.LateSetterIsAbandoned | packages/core/src/orchestrator.ts:2821-2849 | the run in which a timed-out setter lands between the look at an outsider's locale and the release |
| LocaleMatrix.RecoveryRestores | packages/core/src/orchestrator.ts:1799-1937 | from any crashed state with an own or original locale, recovery can bring the original back and release the intent |
| LocaleMatrix.RecoveryRespectsOutsiders | packages/core/src/orchestrator.ts:1804-1825 | over a foreign locale recovery stops with device and record unchanged |
| ProofGate.StepKeeps | packages/core/src/orchestrator.ts:2950-3064 | every transaction, process birth or death, lease change and child keeps the whole invariant |
| ProofGate.OneRowPerDevice | packages/core/src/orchestrator.ts:2986-3151 | in every run a device carries at most one row over both tables |
| ProofGate.ProofsRunAlone | packages/core/src/orchestrator.ts:3089-3190 | in every run a live proof's gate stands and no writer's child is on its device |
| ProofGate.ReportsAreUndisturbed | packages/core/src/orchestrator.ts:3192-3313 | in every run a published report saw no writer begin on its device since its gate came in, and was published under an active acceptance lease of that device |
| ProofGate.OrphanHoldsDevice | packages/core/src/orchestrator.ts:3025-3040 | an intent whose process died stays, and no writer ever begins on its device again |
| ArtifactExport.StepKeeps | packages/core/src/orchestrator.ts:6309-6689 | every step of the export, of its containment whichever part fails, of another process, of a helper that outlives its caller, of a crash and of startup recovery keeps the whole invariant |
| ArtifactExport.PublicationsAreRecorded | packages/core/src/orchestrator.ts:6422-6464 | in every run an artifact lands only after a look that saw the starting row; the Room then advances by one from exactly that row, or the export never releases |
| ArtifactExport.ReleasesAreEarned | packages/core/src/orchestrator.ts:6484-6592 | in every run an export releases its intent only over the due row, after looks before and after the restore that saw that row, with nothing left unsettled, and takes its own intent only |
| ArtifactExport.ClaimsEndOnce | packages/core/src/orchestrator.ts:6373-6593 | in every run a claimed export is at work or ended exactly once: released, contained or cut off by a crash |
| ArtifactExport.IntentsAreKept | packages/core/src/orchestrator.ts:6522-6646 | in every run a claimed export's intent stands if and only if the export has not released it and no startup has dropped it, and never both; no failure, fence loss or containment takes it |
| ArtifactExport.ContainmentHolds | packages/core/src/orchestrator.ts:6649-6689 | in every run a contained export's intent stands or a startup dropped it; the Room is disabled beyond its row if the mark landed; no helper is left if their removal worked, and no runtime paused by it if the pod stopped, then or later |
| ArtifactExport.DropsAreEarned | packages/core/src/orchestrator.ts:1978-2061 | in every run a startup drops an intent, and nothing else, only over a settled destination and a Room that moved on; without a live process in between it leaves no helper and no paused runtime of the export |
| ArtifactExport.RacedStartupLeavesHelper | packages/core/src/orchestrator.ts:1978-2061 | the run in which a live process publishes between the removal of jobs and the drop, and its helper remains |
| ArtifactExport.UnmarkedKeepsIntent | packages/core/src/orchestrator.ts:6662-6668 | where the mark throws in containment the row is unchanged and the intent is kept |
| ArtifactExport.AnswersAreTrue | packages/core/src/orchestrator.ts:6522-6646 | in every run what the caller was told about the publication is so and stays so |
| ArtifactExport.UnsettledIsCovered | packages/core/src/orchestrator.ts:1978-2061 | in every run, crashes, failed marks and startup recovery included, a helper still at work, an unrecorded artifact or a paused runtime is covered by the intent until the Room has moved past it |
| ArtifactExport.ExportRuns | packages/core/src/orchestrator.ts:6373-6646 | left alone, an export is recorded, its runtime is up again, its intent gone and the caller told so |
| ArtifactExport.RecoveryRuns | packages/core/src/orchestrator.ts:1978-2061 | after a crash right behind the publication, startup recovery removes the jobs, disables the Room, stops the pod and drops the intent |
| OperationTracking.SaveKeeps | packages/core/src/store/operationsRepo.ts:71-116 | a row survives a save if and only if it runs, has a request key, is among the fifty newest, or is another Room's |
| OperationTracking.ProgressStaysOrdered | packages/core/src/operations.ts:263-340 | only the last stage can be running; terminal records have none, and a failure carries no result |
| OperationTracking.OperationTracker.Run | packages/core/src/operations.ts:189-260 | joins, replays, refuses or starts, each exactly when it should; a task starts only after its row is durable, and again exactly when its id is passed in after the row was lost |
| OperationTracking.OperationTracker.Begin | packages/core/src/operations.ts:292-306 | closes the open stage and opens the next, or is silent after a reported failure |
| OperationTracking.OperationTracker.ReportFailure | packages/core/src/operations.ts:325-332 | the first reported failure counts and silences later reports |
| OperationTracking.OperationTracker.Finish | packages/core/src/operations.ts:374-441 | the terminal record, saved with one retry, leaves its key, and stays readable in memory exactly while unsaved |
| OperationTracking.OperationTracker.ForgetRoom | packages/core/src/operations.ts:127-139 | a deleted Room's rows, live operations and keys go, except the operation deleting it |
| OperationTracking.OperationTracker.RecoverInterrupted | packages/core/src/store/operationsRepo.ts:125-146 | after a restart running rows are failed and every other row is untouched; client-addressed rows all stay |
| OperationTracking.OperationTracker.StartedAtMostOnce | packages/core/src/operations.ts:189-260 | over failed saves and restarts an id starts again only when passed in after a loss, so never by minting, and never with a request key and an existing Room |
| OperationTracking.OperationTracker.SecondStartsAreLosses | packages/core/src/operations.ts:189-260 | a start is a second one of its id if and only if it came, passed in, after the row of an earlier start was lost |
| OperationTracking.StartAgain | packages/core/src/orchestrator.ts:4575-4583 | an id minted without a request key runs, finishes, is pruned by fifty newer rows and starts again when presented |
| OperationTracking.PruneSettles | packages/core/src/store/operationsRepo.ts:104-115 | the newest fifty rows survive every prune, so a second prune removes nothing |
| OperationTracking.OperationTracker.KeysNameRunning | packages/core/src/operations.ts:110-116 | a key names a live, unsettled operation whose only running stage is the last |
| OperationTracking.OperationTracker.SharedIdsWereForgotten | packages/core/src/operations.ts:127-139 | an unsettled operation is the live one of its id unless its Room was forgotten under it, so two unsettled ones share an id only then |
| OperationTracking.FinishForgotten | packages/core/src/operations.ts:374-446 | a run in which an operation that outlived its Room ends and takes the key and the live entry of a later one with its id |
| OperationTracking.TerminalRowAgrees | packages/core/src/operations.ts:411-441 | a finished row stays if and only if it is client-addressed, among the newest or was never saved; table and memory agree on it if and only if a save of its final record went in |

## Left out

- WindowEnds.TailIsLongestSuffix: raw mode or ASCII input; `WindowText` has the statement for other text.
- WindowText.TailTextIsLongest: well-shaped text, and one direction; `TextGaps.LongestExactly` has both. Of bytes that are no UTF-8 in text mode only the truncation and paging results speak.
- HostResync.NumbersAreUsedOnce: only while no reserved number exceeds the largest safe integer; `NextIsFresh` and `NumbersRunOut` say what happens beyond.
- LocaleMatrix.UnheldIsClean: only without late landings, as `OnlyStraysStain` shows it must be.
- LocaleMatrix.AbandonIsSafe: only without late landings, as `OnlyStraysAbandonOwn` shows it must be.
- ArtifactExport.DropsAreEarned: what the drop leaves is stated for startups without a live process at work on the export, as `RacedStartupLeavesHelper` shows it must be.
- OperationTracking.OperationTracker.KeysNameRunning: for ids whose Room was not forgotten under them, as `FinishForgotten` shows it must be.
- CanonicalJson.SealBindsValue: the schema, the redactor and the byte count are functions of which only distinct field names are assumed, and the keyed digest is taken as injective.
- Running streams: reads of a run that is still writing, where a page may make no progress by design.
- String input to a window, the 200-character filter limit, and fractional or non-numeric budgets.
- Lossy text decoding and display notes: statements are about bytes.
- Retention: the sweep of directories without a readable manifest, and failures to delete a directory.
- Workspace snapshots: parsing and path checks; digests are taken to identify the tree they cover.
- HostResync: package installs of an awake Room appear with their numbers and publication only, without their own edit checks; undo and line-ending changes; the journal, manifests and notifications after publication.
- VolumeGc: parsing of volume names, labels and Docker sizes; the wording of reasons. The revision and fingerprint checks that can still refuse an install's undo are not modelled, so the undo accepted there is the widest one. Undo chains are protected only through rows that are live now, as in the source.
- LocaleMatrix: targets, installs, users and process proofs of a session are one device value; locale names are taken as canonical; of records of older versions only those whose last look saw the original or an own marked list are taken over with a setter still out.
- ProofGate: the contents of reports and the many facts re-checked at publication are one flag; ordinary reads are not modelled because only their start is gated.
- ArtifactExport: the content and path of an artifact, and staging files beyond one outcome.
- OperationTracker: timestamps other than the start, stage labels, progress warnings, and waiting with a timeout.
- Room locks are taken as mutual exclusion; no order among waiters is claimed.
- Docker, adb, SQLite, the file system, HTTP, the tool table and the desktop shell appear only as outcomes of steps.
