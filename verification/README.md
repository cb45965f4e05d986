# Verified models of the repository's scripts

Each module models one self-contained piece of the repository: a protocol, a transaction over files, a
reader of a binary format, a source transformation, or a normal form. Times are real numbers; clocks,
failures, deaths of processes, answers of sockets and the order of events are arbitrary, so every theorem
speaks of all of them.

| file | what it models |
|---|---|
| `ThrottledLink.dfy`, `ThrottledPipe.dfy`, `PipeEffects.dfy`, `ThrottleServer.dfy` | the userspace network throttle: a shared-rate scheduler, a forwarding pipe per direction, the wiring of connections |
| `ArchiveFields.dfy`, `TarArchive.dfy`, `TarMembers.dfy`, `ArArchive.dfy` | the hand-written `tar` and `ar` readers |
| `BrowserCache.dfy` | the lock-protected browser directory with atomically published generations |
| `ProbeTeardown.dfy`, `ProbeHistory.dfy` | the race between the OpenCode probe, its deadline and its signal handlers |
| `FileSlots.dfy`, `LinuxInstall.dfy`, `PromotePaths.dfy` | two all-or-nothing file swaps with rollback |
| `PathAlgebra.dfy`, `ModuleMover.dfy` | the module mover, which rewrites relative imports |
| `StringSort.dfy`, `CanonicalJson.dfy`, `SchemaDigest.dfy` | the canonical form of JSON schemas and the digest over files |
| `QualificationLedger.dfy` | ledger snapshots and their diff as evidence that no row changed |
| `DesignClient.dfy`, `FakeModelParking.dfy` | request/reply correlation; parking of held requests |
| `ProcessTree.dfy`, `AnchorProbe.dfy` | a breadth-first search with no visited set; a ring buffer beside counters |

Code that changes state step by step is a class or a method with loops, proved equal to a specification
function or against its promise directly; the theorems about whole runs are lemmas about those functions.
Where several actors interleave at their awaits (the probe, the browser cache), the model is a state
machine over the events that resume them.

## Where the code does less than it says

Each of these is proved with the exact condition.

* A throttle pipe that is blocked on a target which is then destroyed never wakes again, since `drain`
  never comes; a live pipe with something queued has a wake-up coming exactly when it is not in that
  state (`WakesUnlessTargetGone`, `StrandedForGood`). Only the close of both sockets, or an error on one,
  frees it.
* The probe clears the handle of its teardown before it awaits it. While a server or a temp root is left,
  a signal exits at once, or a deadline rejects at once, exactly when it comes in that window or a late
  `mkdir` has brought the root back (`SignalExitsAtOnceIff`, `DeadlineRejectsAtOnceIff`). A concrete run
  ends with the server told to stop but alive, and the root left (`SignalInFinallyLeavesServer`).
* The probe's setup counts as settled when one of its four `mkdir`s fails, while others may be in flight.
  The temp root stays removed exactly when none is still at work on the disk (`RootStaysRemovedIff`,
  `LateMkdirRecreatesRoot`).
* The tar reader splits pax records at newlines instead of using their length, and takes the first path it
  finds where the format lets the last record override. For all headers, a path is read back exactly when
  it holds no line terminator and nothing different is read out of the records before it
  (`PaxPathReadsBackIff`, `RepeatedPathReadsBackIff`); a value with a newline can hold what is taken for a
  path (`CommentHidesPath`).
* The tar reader knows of pax only `path`, and of headers only one layout. What it returns is what the
  formats say exactly when, for every member, the name it takes is the one that overrides; no `linkpath`, no
  `size`, and, where no name is taken, no global `path` says anything but what the header says; a header
  whose magic is not exactly that of POSIX has nothing in the prefix bytes where they would be read; and a
  header of a kind without data has size zero (`TarReadsAsMeantIff`; `PlainKeptIff` where no pax value has a
  line break). The failing archives are `LinkpathIsIgnored`, `GlobalPathIsIgnored`, `SizeRecordIsIgnored`,
  `GnuTimeIsPrefix` and `DirectorySizeIsRead`.
* A prepared browser revision can be lost exactly when some process waits to prune for another revision, or
  to replace a legacy directory of this one that is out of date (`PreparedForGoodIff`).
* A rewritten import names a package instead of a file, or is no longer matched by the mover's pattern,
  exactly when it leads to the parent directory itself, to a dot-named child, or through a name with a
  quote or newline (`RelativeSpecifierRecognisedIff`, `RewrittenKeepsMeaning`). For instance `./b/.h/x.js`
  becomes `.h/x.js` (`DotDirectoryBreaksThisImport`).
* A held request whose client went away before `waitFor` was called waits all the same: it is awake only
  after its id is released or the server stops (`AwakeIff`, `AbortedBeforeWaits`).
* The digest depends on the order in which files were found exactly where two paths tie in the locale
  (`DigestDecidesFiles`, `TieMovesDigest`).
* The installer's rollback can end between old and new, but only if at least two operations fail
  (`InstallLinuxBundle`); the downloader's undo ignores failures, and restores everything exactly when
  none of its renames fails (`PromotePaths.Promote`).
* The process search does not end when the process is its own ancestor (`OwnAncestorNeverEnds`).

## Model

| member | source | states |
|---|---|---|
| `ThrottledLinks.ThrottledLink.Schedule` | scripts/preview-latency-baseline.ts:1298-1304 | the link's state after a call, as the function of all calls so far that the theorems below are about; delivery is departure plus latency |
| `ThrottledLinks.DepartureClosedForm` | scripts/preview-latency-baseline.ts:1298-1304 | the last departure is the maximum over i of call i's clock plus the time to send everything from call i on, for any clock readings |
| `ThrottledLinks.DepartureNotBefore` | scripts/preview-latency-baseline.ts:1300-1301 | no chunk leaves before what was scheduled from any earlier call on could be sent |
| `ThrottledLinks.DepartureAttained` | scripts/preview-latency-baseline.ts:1300-1301 | some call attains that bound, so the link never idles needlessly |
| `ThrottledLinks.DeparturesMonotone` | scripts/preview-latency-baseline.ts:1296-1304 | departures never go back across all connections, and two of them are at least the transmission time of what lies between apart |
| `ThrottledLinks.WindowCarriesAtMostRate` | scripts/preview-latency-baseline.ts:1291-1304 | what departs within a window is at most rate times window plus one chunk |
| `ThrottledPipes.ThrottledPipe.constructor` | scripts/preview-latency-baseline.ts:1313-1321 | a pipe starts live, empty and flowing |
| `ThrottledPipes.ThrottledPipe.Resume` | scripts/preview-latency-baseline.ts:1322-1325 | the source resumes only below half the high-water mark, unblocked and not stopped |
| `ThrottledPipes.ThrottledPipe.Enqueue` | scripts/preview-latency-baseline.ts:1360-1363 | appends, and arms the timer unless armed or blocked; for when, `PipeEffects.DataEffect` and `PipeEffects.EndEffect` |
| `ThrottledPipes.ThrottledPipe.Pump` | scripts/preview-latency-baseline.ts:1326-1354 | the dispatch loop computes the recursive specification of a pump, for any answers of the target |
| `ThrottledPipes.ThrottledPipe.DispatchHead` | scripts/preview-latency-baseline.ts:1330-1350 | one turn of the dispatch loop is one step of that specification |
| `ThrottledPipes.ThrottledPipe.WriteChunk` | scripts/preview-latency-baseline.ts:1340-1349 | a refused write blocks the pipe and pauses the source |
| `ThrottledPipes.ThrottledPipe.Rearm` | scripts/preview-latency-baseline.ts:1351-1353 | after a pump the timer waits for the new head unless blocked; for when, `PipeEffects.TimerEffect` |
| `ThrottledPipes.ThrottledPipe.Drain` | scripts/preview-latency-baseline.ts:1355-1359 | drain unblocks and pumps, and is ignored once stopped |
| `ThrottledPipes.ThrottledPipe.CompleteWrite` | scripts/preview-latency-baseline.ts:1340-1345 | a completed write leaves both accounts, unless the pipe was stopped |
| `ThrottledPipes.ThrottledPipe.EndSource` | scripts/preview-latency-baseline.ts:1364-1368 | EOF is queued once, at the time of the last queued item |
| `ThrottledPipes.ThrottledPipe.Accept` | scripts/preview-latency-baseline.ts:1371-1374 | a chunk enters the pipe's and the link's books and gets its delivery time |
| `ThrottledPipes.ThrottledPipe.ReceiveData` | scripts/preview-latency-baseline.ts:1369-1376 | the whole data handler, with back-pressure at the high-water mark |
| `ThrottledPipes.ThrottledPipe.StopPipe` | scripts/preview-latency-baseline.ts:1381-1393 | stopping gives back exactly what this pipe still had on the link's account |
| `ThrottledPipes.StepKeepsInv` | scripts/preview-latency-baseline.ts:1313-1395 | the invariant (order, accounting, hysteresis, armed timer, half-close) survives every event in every state |
| `ThrottledPipes.WrittenKeepsOrder` | scripts/preview-latency-baseline.ts:1329-1345 | a write sends the next received chunk, not before its time, and loses none |
| `ThrottledPipes.WrittenKeepsBalance` | scripts/preview-latency-baseline.ts:1319-1345 | moving a chunk from the queue to the target's buffer keeps `pending` equal to queued plus uncompleted bytes |
| `ThrottledPipes.EofKeepsAccount` | scripts/preview-latency-baseline.ts:1331-1334 | EOF leaves the queue last, ends a live target once, and only after every byte |
| `ThrottledPipes.DispatchedKeepsAccount` | scripts/preview-latency-baseline.ts:1330-1350 | the dispatch loop ends dead, or with the account intact and nothing due left behind |
| `ThrottledPipes.PumpedKeepsInv` | scripts/preview-latency-baseline.ts:1326-1354 | a pump keeps the invariant, armed timer included |
| `ThrottledPipes.DataKeepsInv` | scripts/preview-latency-baseline.ts:1369-1376 | accepting a chunk keeps the invariant: a flowing source stays below the mark |
| `ThrottledPipes.EndKeepsInv` | scripts/preview-latency-baseline.ts:1364-1368 | a source that ends or closes keeps the invariant, however often |
| `ThrottledPipes.CompletedKeepsInv` | scripts/preview-latency-baseline.ts:1340-1345 | completions in any order keep the account, and a paused source is resumed in time |
| `ThrottledPipes.DrainedKeepsInv` | scripts/preview-latency-baseline.ts:1355-1358 | a drain keeps the invariant |
| `ThrottledPipes.DestroyedKeepsInv` | scripts/preview-latency-baseline.ts:1332-1339 | losing the target by itself breaks nothing |
| `ThrottledPipes.DeadStaysDead` | scripts/preview-latency-baseline.ts:1381-1393 | after stop no event changes the pipe's account or the link |
| `ThrottledPipes.StepConserves` | scripts/preview-latency-baseline.ts:1340-1345 | every event changes the link's queued bytes by exactly what it changes in the pipe's `pending` |
| `ThrottledPipes.DispatchedConserves` | scripts/preview-latency-baseline.ts:1330-1350 | a dispatch moves bytes without changing accounts, or clears this pipe's share from both |
| `ThrottledPipes.StepExtendsHistory` | scripts/preview-latency-baseline.ts:1326-1380 | what was received or written is only ever extended |
| `ThrottledPipes.WakesUnlessTargetGone` | scripts/preview-latency-baseline.ts:1326-1363 | no lost wake-up: a live pipe with a queue has a wake-up coming if and only if it is not blocked on a destroyed target |
| `ThrottledPipes.RefusedWriteBlocks` | scripts/preview-latency-baseline.ts:1346-1349 | a refused write ends the pump at once with the rest still queued |
| `ThrottledPipes.DestroyedBeforeDrainStrands` | scripts/preview-latency-baseline.ts:1336-1358 | a target destroyed between a refused write and its drain leaves the rest queued with no event to move it |
| `ThrottledPipes.StrandedForGood` | scripts/preview-latency-baseline.ts:1326-1358 | a pipe blocked on a destroyed target writes nothing more and keeps its whole queue through every run until it is stopped |
| `ThrottledPipes.TimerMovesHead` | scripts/preview-latency-baseline.ts:1353-1363 | a timer that fires at its time always delivers something |
| `ThrottledPipes.PumpDeliversEverything` | scripts/preview-latency-baseline.ts:1326-1354 | once everything is due, a pump of a willing target delivers all of it, and the half-close exactly if the source ended |
| `ThrottledPipes.StepKeepsSchedule` | scripts/preview-latency-baseline.ts:1298-1374 | after every event each received chunk is due when the link's scheduler said, in the order of its calls |
| `ThrottledPipes.StepKeepsAscending` | scripts/preview-latency-baseline.ts:1360-1374 | the queue stays in the order of due times, EOF included |
| `ThrottledPipes.ChunksDueInOrder` | scripts/preview-latency-baseline.ts:1296-1304 | of two chunks on one link, in whichever connections, the one scheduled later is due no earlier |
| `PipeEffects.StepKeepsTimer` | scripts/preview-latency-baseline.ts:1326-1363 | every event leaves the timer alone, clears it, or sets it for exactly when the head of the queue is due, or for its clock reading where that has passed |
| `PipeEffects.DataEffect` | scripts/preview-latency-baseline.ts:1298-1376 | all that an accepted chunk does: its due time by the scheduler, the accounts, the pause at the mark, the timer only if nothing waited |
| `PipeEffects.EndEffect` | scripts/preview-latency-baseline.ts:1364-1368 | EOF is queued once, due with the last entry or now, and arms the timer only if nothing waited |
| `PipeEffects.CompletedEffect` | scripts/preview-latency-baseline.ts:1340-1345 | a completed write leaves both accounts, and the source resumes exactly if unblocked and below half the mark |
| `PipeEffects.TimerEffect` | scripts/preview-latency-baseline.ts:1326-1354 | a timer sends to a live target exactly the entries that are due, up to a refusal, EOF as a half-close; then it resumes the source if it may and waits for the new head |
| `PipeEffects.DrainEffect` | scripts/preview-latency-baseline.ts:1355-1358 | a drain unblocks the pipe and does the same |
| `PipeEffects.TargetGoneEffect` | scripts/preview-latency-baseline.ts:1331-1339 | a timer that finds the target gone stops the pipe if a chunk is due, and drops an EOF that is due |
| `PipeEffects.StoppedEffect` | scripts/preview-latency-baseline.ts:1381-1393 | a stopped pipe queues, sends and accounts nothing any more |
| `ThrottleServers.SocketClosed` | scripts/preview-latency-baseline.ts:1379-1380 | the pipe a closed socket feeds is ended or stopped, the other one's target is gone, and no other connection changes |
| `ThrottleServers.StepKeepsBound` | scripts/preview-latency-baseline.ts:1371-1375 | `pending` passes the high-water mark by less than one chunk, and the peak is the largest queue seen |
| `ThrottleServers.OnDirectionKeepsInv` | scripts/preview-latency-baseline.ts:1403-1422 | with any number of pipes on a link, its queued bytes stay the sum of theirs and within the budget |
| `ThrottleServers.ClosedKeepsInv` | scripts/preview-latency-baseline.ts:1422-1438 | when the second socket of a connection closes, both its pipes are stopped |
| `ThrottleServers.ErroredKeepsInv` | scripts/preview-latency-baseline.ts:1430-1436 | an error on either socket keeps every account right |
| `ThrottleServers.OnPipeKeepsInv` | scripts/preview-latency-baseline.ts:1420-1421 | an event of one pipe cannot disturb the other connections |
| `ThrottleServers.ConnectEffect` | scripts/preview-latency-baseline.ts:1403-1421 | a connection brings one idle pipe for each direction |
| `ThrottleServers.ClosedEffect` | scripts/preview-latency-baseline.ts:1422-1429 | the second close of a connection, and not the first, stops both its pipes |
| `ThrottleServers.SocketClosedIs` | scripts/preview-latency-baseline.ts:1366-1380 | a closed socket ends the pipe it fed and is the lost target of the other |
| `ThrottleServers.ErroredEffect` | scripts/preview-latency-baseline.ts:1430-1436 | an error on either socket stops both pipes, destroys both sockets, and touches no other connection |
| `ThrottleServers.ServerStepKeepsTimers` | scripts/preview-latency-baseline.ts:1326-1363 | no event of the server sets any pipe's timer but for the head of that pipe's queue |
| `ThrottleServers.ServerStepKeepsInv` | scripts/preview-latency-baseline.ts:1403-1458 | the server invariant survives every event, new connections included |
| `ThrottleServers.RunKeepsInv` | scripts/preview-latency-baseline.ts:1403-1458 | and so every run |
| `ThrottleServers.EveryRunKeepsPromises` | scripts/preview-latency-baseline.ts:1307-1458 | in every run from start-up: bounded queues, hysteresis, in-order and not-early delivery with nothing lost, EOF once and last, no lost wake-up, every timer set for exactly when the head of its queue is due (or the clock reading, if later), link totals as sums, bounded peak |
| `ThrottleServers.EveryRunFollowsSchedule` | scripts/preview-latency-baseline.ts:1291-1458 | in every run, chunks of all connections on a link are due in the order it took them, each at the scheduler's closed form plus the latency, and every queue is in that order |
| `ThrottleServers.NothingQueuedWhenAllClosed` | scripts/preview-latency-baseline.ts:1422-1438 | when all connections have closed, neither link has anything on account |
| `ArchiveFields.ParseIntOfDigits` | scripts/playwright-webkit-host-libs.ts:172-198 | a number written in fixed-width digits of a radix up to ten is read back |
| `ArchiveFields.DigitsHaveValue` | scripts/playwright-webkit-host-libs.ts:194-201 | the digits' value is the number, if the field is wide enough |
| `ArchiveFields.NulPaddedReads` | scripts/playwright-webkit-host-libs.ts:161-165 | a NUL-padded field is read back, a full one included |
| `ArchiveFields.TrimDropsPadding` | scripts/playwright-webkit-host-libs.ts:172-173 | trimming takes off the padding on both sides and nothing of the text |
| `ArchiveFields.IsSizeIff` | scripts/playwright-webkit-host-libs.ts:172-200 | text of a header field is accepted as a size if and only if a number that is not negative starts it |
| `TarArchives.ReadTar` | scripts/playwright-webkit-host-libs.ts:212-252 | the reader's loop, with its carried names and its errors, computes the recursive specification on any bytes; what that is, `TarReadsAsMeantIff` and the next three rows say |
| `TarArchives.FindRecord` | scripts/playwright-webkit-host-libs.ts:217-225 | a record's data lies in the archive and the next record after it |
| `TarArchives.ViewsInBoundsAndDisjoint` | scripts/playwright-webkit-host-libs.ts:217-225 | on any bytes whatever, the data views are inside the archive, in order and disjoint |
| `TarArchives.SizeReadsBack` | scripts/playwright-webkit-host-libs.ts:194-201 | a size in up to twelve octal digits is read back, with any leading spaces and any spaces and NULs after it; a blank field is zero |
| `TarArchives.RecordFound` | scripts/playwright-webkit-host-libs.ts:217-225 | a ustar header is found with its labels, size and padding, whatever its unused fields hold |
| `TarArchives.RecordsReadBack` | scripts/playwright-webkit-host-libs.ts:212-252 | reading the bytes of any records yields what the records mean |
| `TarArchives.RecordRefusedIff` | scripts/playwright-webkit-host-libs.ts:216-219 | on any bytes, the archive ends exactly at a zero block or less than a block, and any other block is refused exactly for the size field it has |
| `TarArchives.CutOffRefusedIff` | scripts/playwright-webkit-host-libs.ts:222 | a record is refused as truncated exactly if some of its data is missing, not just padding |
| `TarArchives.RefusedBehind` | scripts/playwright-webkit-host-libs.ts:212-222 | a refused record refuses the whole archive with its own error, whatever was read before it |
| `TarArchives.CutOffArchiveRefused` | scripts/playwright-webkit-host-libs.ts:222 | an archive that breaks off inside a record's data is never taken for a shorter one |
| `TarArchives.LinesConcat` | scripts/playwright-webkit-host-libs.ts:205 | splitting at newlines splits each record's text by itself |
| `TarArchives.PathOfPaxLine` | scripts/playwright-webkit-host-libs.ts:206-207 | a pax line matches exactly if its key is `path` and its value has no line terminator |
| `TarArchives.PaxIsRead` | scripts/playwright-webkit-host-libs.ts:203-210 | for any records, what is read out of a pax header is the first of: a path record's value up to a newline, or a later line of some value that looks like a path record |
| `TarArchives.PaxPathReadsBackIff` | scripts/playwright-webkit-host-libs.ts:203-210 | among any records before and after it, a path record is read back if and only if it holds no line terminator and nothing different is read out of the records before it |
| `TarArchives.NothingReadIff` | scripts/playwright-webkit-host-libs.ts:203-210 | nothing is read out of records with other keys if and only if no later line of any value looks like a path record |
| `TarArchives.FirstCleanPathIsRead` | scripts/playwright-webkit-host-libs.ts:203-210 | among records without newlines the first path without a return is the one read |
| `TarArchives.PathInsideValueIsRead` | scripts/playwright-webkit-host-libs.ts:203-210 | a path is taken out of the value of an earlier record that holds a newline |
| `TarArchives.CommentHidesPath` | scripts/playwright-webkit-host-libs.ts:203-210 | two records for which that happens |
| `TarArchives.RepeatedPathReadsBackIff` | scripts/playwright-webkit-host-libs.ts:203-210 | among any records, of several path records the first is taken, so the overriding one is read if and only if it says the same |
| `TarArchives.InterpretExtensions` | scripts/playwright-webkit-host-libs.ts:227-239 | a stretch of extension records yields no entry and only carries names |
| `TarMembers.NoteCarries` | scripts/playwright-webkit-host-libs.ts:227-239 | one extension record carries to the next entry a GNU name or link, or the path read out of a pax header, and nothing else |
| `TarMembers.ExtensionsCarry` | scripts/playwright-webkit-host-libs.ts:227-239 | of any extensions, in any order and number, the last link and the last name the reader takes reach the next entry |
| `TarMembers.MembersInterpreted` | scripts/playwright-webkit-host-libs.ts:241-250 | each member is read from its own extensions and header, which end with it |
| `TarMembers.HeaderReadIff` | scripts/playwright-webkit-host-libs.ts:241-243 | the path is taken from a header as its format says, except where other bytes stand in place of a prefix |
| `TarMembers.EntryMeantIff` | scripts/playwright-webkit-host-libs.ts:241-250 | one entry is what the formats say, its kind by their flags, if and only if the name, link and size are kept, each under a condition on the records |
| `TarMembers.TarReadsAsMeantIff` | scripts/playwright-webkit-host-libs.ts:212-252 | from any archive of ustar, GNU, pax and pax global records the reader returns one entry for each member, in order, with its own bytes; and all entries are what the formats say, `0` and NUL being files and `2` links, if and only if every member is kept |
| `TarMembers.TarRoundTrip` | scripts/playwright-webkit-host-libs.ts:212-252 | so the reader undoes the writers of the formats wherever they use what it understands |
| `TarMembers.PlainHeaderReadsAsMeantIff` | scripts/playwright-webkit-host-libs.ts:203-210 | a pax header without line breaks in its values is read as meant if and only if its first and last path agree |
| `TarMembers.PlainKeptIff` | scripts/playwright-webkit-host-libs.ts:203-250 | without line breaks in pax values, whether a member is kept depends on the values of its records alone |
| `TarMembers.LinkpathIsIgnored` | scripts/playwright-webkit-host-libs.ts:231-246 | an archive whose pax `linkpath` is not read |
| `TarMembers.GlobalPathIsIgnored` | scripts/playwright-webkit-host-libs.ts:239 | an archive whose global `path` is not read |
| `TarMembers.SizeRecordIsIgnored` | scripts/playwright-webkit-host-libs.ts:220 | an archive whose pax `size` is not read |
| `TarMembers.GnuTimeIsPrefix` | scripts/playwright-webkit-host-libs.ts:241 | an archive with a GNU header whose time is read as a prefix |
| `TarMembers.DirectorySizeIsRead` | scripts/playwright-webkit-host-libs.ts:220-225 | an archive whose directory is read with data |
| `TarArchives.HeaderIsHeader` | scripts/playwright-webkit-host-libs.ts:218-244 | a written header has every field where the reader looks for it |
| `TarArchives.WriterHolds` | scripts/playwright-webkit-host-libs.ts:212-252 | every list of representable records has an archive, so the round trip is about something |
| `ArArchives.ReadAr` | scripts/playwright-webkit-host-libs.ts:167-183 | the reader's loop and its errors compute the recursive specification on any bytes |
| `ArArchives.FindMember` | scripts/playwright-webkit-host-libs.ts:171-181 | a member's data lies in the archive and the next member after it |
| `ArArchives.NameReadsBack` | scripts/playwright-webkit-host-libs.ts:172 | a space-padded name is read back, with or without the slash GNU archivers add |
| `ArArchives.SizeReadsBack` | scripts/playwright-webkit-host-libs.ts:173-176 | a decimal size is read back as a safe integer behind the right terminator |
| `ArArchives.MemberReadsBack` | scripts/playwright-webkit-host-libs.ts:171-181 | one member is found with its name, data and even padding |
| `ArArchives.MembersReadBack` | scripts/playwright-webkit-host-libs.ts:167-183 | so are all members from any offset |
| `ArArchives.ArRoundTrip` | scripts/playwright-webkit-host-libs.ts:167-183 | the reader returns exactly the members of any archive, each under the name its own header spells |
| `ArArchives.NotAnArchiveIff` | scripts/playwright-webkit-host-libs.ts:168 | a file is refused as no archive exactly if it lacks the first eight bytes |
| `ArArchives.HeaderRefusedIff` | scripts/playwright-webkit-host-libs.ts:171-176 | on any bytes, the archive ends exactly where no header fits, and a header is refused as malformed exactly for its last two bytes or its size field |
| `ArArchives.CutOffRefusedIff` | scripts/playwright-webkit-host-libs.ts:178 | a member is refused as truncated, under its name, exactly if some of its data is missing |
| `ArArchives.RefusedBehind` | scripts/playwright-webkit-host-libs.ts:167-178 | a refused member refuses the whole archive with its own error |
| `ArArchives.CutOffArchiveRefused` | scripts/playwright-webkit-host-libs.ts:178 | an archive that breaks off inside a member's data is never taken for a shorter one |
| `ArArchives.ViewsInBoundsAndDisjoint` | scripts/playwright-webkit-host-libs.ts:171-181 | on any bytes whatever, the data views are inside the archive, in order and disjoint |
| `BrowserCaches.StepKeepsInv` | scripts/playwright-webkit-host-libs.ts:618-725 | every step of any of the processes keeps the lock exclusive and each builder's files as far as it has come |
| `BrowserCaches.RunKeepsInv` | scripts/playwright-webkit-host-libs.ts:618-725 | so does every run, whoever prunes, fails or dies in it |
| `BrowserCaches.LockKept` | scripts/playwright-webkit-host-libs.ts:622-640 | the lock exists exactly while somebody holds it, dead or alive, and never two |
| `BrowserCaches.OnlyOneMoves` | scripts/playwright-webkit-host-libs.ts:622-640 | a step moves one process, and the lock changes only with that process's hold on it |
| `BrowserCaches.FilesKept` | scripts/playwright-webkit-host-libs.ts:660-700 | a process's own staging directory, stamp, generation and link are there when its next step needs them |
| `BrowserCaches.OthersKeepFiles` | scripts/playwright-webkit-host-libs.ts:618-725 | no step takes away what another process inside still needs |
| `BrowserCaches.MutualExclusion` | scripts/playwright-webkit-host-libs.ts:622-640 | at most one process is inside, and none while a dead one's lock remains |
| `BrowserCaches.NeverTwoInside` | scripts/playwright-webkit-host-libs.ts:622-640 | in no run are two processes inside |
| `BrowserCaches.EntriesChangeAtomically` | scripts/playwright-webkit-host-libs.ts:581-725 | an entry keeps resolving as it did or switches in one step to a complete stamped generation, except for what `--prune` replaces or retires |
| `BrowserCaches.PreparedIsReady` | scripts/playwright-webkit-host-libs.ts:656-700 | a process that gets through has its revision resolving to a complete build with the stamp it wants |
| `BrowserCaches.PruningKeepsCurrent` | scripts/playwright-webkit-host-libs.ts:706-723 | neither pruning nor linking touches the revision just prepared |
| `BrowserCaches.LockMoves` | scripts/playwright-webkit-host-libs.ts:622-640 | the lock is taken on the way in and given back by whoever gets through, fails or is refused; a dead one's stays until it is removed by hand |
| `BrowserCaches.DeathLeavesEverything` | scripts/playwright-webkit-host-libs.ts:630-640 | whoever waits or is inside may die at any moment, and everything stays as it was, its lock too |
| `BrowserCaches.GenerationsMove` | scripts/playwright-webkit-host-libs.ts:676-721 | a build is published once, under its own name with the stamp it is for, and removed only by pruning |
| `BrowserCaches.EntriesMove` | scripts/playwright-webkit-host-libs.ts:581-721 | an entry changes only by the switch to a build, the removal of a legacy directory under `--prune`, pruning, or a link that replaces neither a real directory nor a prepared build |
| `BrowserCaches.OnlyDeathsLeaveFiles` | scripts/playwright-webkit-host-libs.ts:691-721 | only a process that dies leaves a staging directory or pointer behind, and only pruning takes away what was left |
| `BrowserCaches.NothingLeftBehind` | scripts/playwright-webkit-host-libs.ts:691-704 | so in every run in which nobody dies nothing is left that was not there before |
| `BrowserCaches.PreparedForGood` | scripts/playwright-webkit-host-libs.ts:618-725 | in every interleaving with failures, deaths and pruning, a prepared revision stays prepared, as long as whoever prunes wants that revision and has no legacy directory to replace |
| `BrowserCaches.CanPrepare` | scripts/playwright-webkit-host-libs.ts:618-700 | while nobody holds the lock, a waiting process can get through, at once or by a whole build, and then its revision is as it wants and no other entry has changed |
| `BrowserCaches.OtherPrunerRetires` | scripts/playwright-webkit-host-libs.ts:618-721 | a process that waits to prune for another revision has a run in which it retires this one |
| `BrowserCaches.MigrationRetires` | scripts/playwright-webkit-host-libs.ts:684-691 | a process that waits to replace an outdated legacy directory has a run that leaves none behind |
| `BrowserCaches.PreparedForGoodIff` | scripts/playwright-webkit-host-libs.ts:618-725 | with all processes still waiting, a prepared revision stays prepared in every run if and only if none of them is there to retire it |
| `BrowserCaches.QuiescentDirectory` | scripts/playwright-webkit-host-libs.ts:618-621 | any directory nobody works on starts in the invariant, legacy directories and leftovers included |
| `ProbeTeardowns.StepKeepsInv` | scripts/opencode-live-compatibility-probe.ts:316-471 | every step of probe, setup, teardown, deadline or signal keeps the invariant |
| `ProbeTeardowns.ProbeKeepsInv` | scripts/opencode-live-compatibility-probe.ts:356-415 | the probe's own steps keep it; what they decide, `ProbeHistories.RunTells` says |
| `ProbeTeardowns.SetupKeepsInv` | scripts/opencode-live-compatibility-probe.ts:359-388 | the setup's steps do, whatever fails, each of the four concurrent `mkdir`s settling by itself |
| `ProbeTeardowns.TeardownKeepsInv` | scripts/opencode-live-compatibility-probe.ts:351-355 | the shared teardown's steps do, whatever fails |
| `ProbeTeardowns.OutsideKeepsInv` | scripts/opencode-live-compatibility-probe.ts:431-471 | deadline, signals and a dying server do |
| `ProbeTeardowns.ReachableInv` | scripts/opencode-live-compatibility-probe.ts:316-471 | so the invariant holds in every reachable state |
| `ProbeTeardowns.TeardownIsComplete` | scripts/opencode-live-compatibility-probe.ts:346-355 | the teardown acts only after setup has settled, nothing new is started after it, and a completed one leaves no server, and no root unless the setup failed |
| `ProbeTeardowns.RootStaysRemovedIff` | scripts/opencode-live-compatibility-probe.ts:351-370 | a removed root stays removed in every continuation if and only if no `mkdir` below it is still at work on the disk, as after a successful setup |
| `ProbeTeardowns.LateMkdirRecreatesRoot` | scripts/opencode-live-compatibility-probe.ts:366-370 | a run in event-loop order in which a late `mkdir` brings the root back after the probe has returned |
| `ProbeTeardowns.ServerStoppedOnce` | scripts/opencode-live-compatibility-probe.ts:160-163 | at most one server is spawned, and by the end of the teardown it went through `stopServer` exactly once, however many callers there were |
| `ProbeTeardowns.ProbeReturnsAfterTeardown` | scripts/opencode-live-compatibility-probe.ts:411-414 | the probe settles only with nothing to tear down or the teardown over; when it succeeds, `ProbeHistories.ProbeSucceedsIff` says |
| `ProbeHistories.RunTells` | scripts/opencode-live-compatibility-probe.ts:316-471 | in every run, in whatever order its events come, each variable of probe, setup, teardown, deadline and signal handler is what a reading of the events alone says |
| `ProbeHistories.ProbeSucceedsIff` | scripts/opencode-live-compatibility-probe.ts:392-414 | the probe returns exactly when it found no versions in time or saw its teardown end; and successfully exactly when its checks passed, the server was stopped and the root was then removed |
| `ProbeTeardowns.NoSpawnAfterAbort` | scripts/opencode-live-compatibility-probe.ts:372-385 | nothing is spawned after the deadline expired, in any continuation |
| `ProbeTeardowns.EarlyDeadlineCreatesNothing` | scripts/opencode-live-compatibility-probe.ts:340-342 | a deadline before setup means that nothing is ever created |
| `ProbeTeardowns.NoDeadlock` | scripts/opencode-live-compatibility-probe.ts:316-471 | probe, setup and teardown never wait for each other for ever, and whoever waits for the teardown is answered |
| `ProbeTeardowns.SignalExitsAtOnceIff` | scripts/opencode-live-compatibility-probe.ts:411-471 | with something left to tear down, a signal exits at once if and only if the probe is in its `finally`, or has returned and a late `mkdir` brought the root back |
| `ProbeTeardowns.DeadlineRejectsAtOnceIff` | scripts/opencode-live-compatibility-probe.ts:411-436 | likewise for a deadline that does not wait |
| `ProbeTeardowns.AnsweredAfterTeardown` | scripts/opencode-live-compatibility-probe.ts:434-468 | outside that window both are answered only after the teardown, with no server left if it completed, and no root unless the setup failed |
| `ProbeTeardowns.WindowHasStopCalled` | scripts/opencode-live-compatibility-probe.ts:304-355 | a server that a signal or timer finds alive in that window has been told to stop; waiting, killing and removing the root are cut off |
| `ProbeTeardowns.SignalInFinallyLeavesServer` | scripts/opencode-live-compatibility-probe.ts:411-414 | a run in event-loop order in which a signal exits the process with the server alive and the root left |
| `FileSlots.OthersUnchanged` | scripts/install-packaged-app-linux.ts:200-211 | swapping one file leaves the slots of the others alone |
| `FileSlots.AllStayKept` | scripts/install-packaged-app-linux.ts:200-235 | and cannot lose their old content |
| `LinuxInstalls.PromoteReplacement` | scripts/install-packaged-app-linux.ts:213-224 | the two flags always tell what is on the disk, success means the new version is in place, and the old content is kept at every moment |
| `LinuxInstalls.RollbackReplacement` | scripts/install-packaged-app-linux.ts:226-235 | the flags keep telling what is on the disk, success means the target is as before, failure still keeps the old content |
| `LinuxInstalls.PromoteAll` | scripts/install-packaged-app-linux.ts:148-150 | without failure all targets hold their staged versions; a failure leaves all flags truthful |
| `LinuxInstalls.RollbackAll` | scripts/install-packaged-app-linux.ts:151-159 | every file is rolled back, whatever failed before it: one error per failed operation, and no more targets differ from before than there were errors |
| `LinuxInstalls.StageReplacement` | scripts/install-packaged-app-linux.ts:185-211 | staging one version changes only its own slot, and never a target |
| `LinuxInstalls.StageAll` | scripts/install-packaged-app-linux.ts:121-146 | staging never touches a target, and success stages every version |
| `LinuxInstalls.CleanupReplacements` | scripts/install-packaged-app-linux.ts:237-243 | cleanup never touches a target, and no more staging directories remain than removals failed |
| `LinuxInstalls.Swap` | scripts/install-packaged-app-linux.ts:148-171 | installed if nothing failed, unchanged if just the promotion did, incomplete if the rollback did too; old content kept throughout; no more targets changed than operations failed after the first failure |
| `LinuxInstalls.InstallLinuxBundle` | scripts/install-packaged-app-linux.ts:106-174 | for every failure schedule: all new, or all as before, or reported incomplete with the old content kept; no old version is gone before all new ones are in place; no failure means installed and clean, a single one never means incomplete; without success, no more targets changed, or were left untidy, than operations failed after the first failure |
| `PromotePaths.BackUpAll` | scripts/download-agent.ts:189-202 | each destination reached is set aside exactly, the rest untouched |
| `PromotePaths.MoveAllIn` | scripts/download-agent.ts:203-206 | each source moved is in place, the rest still staged |
| `PromotePaths.MoveBackOne` | scripts/download-agent.ts:207-210 | a file is staged again if its undo rename succeeds, and stays in place if not |
| `PromotePaths.MoveBack` | scripts/download-agent.ts:207-210 | each undo rename is tried, whatever failed before it; one that succeeds restores the staged state, one that fails loses no old content |
| `PromotePaths.PutBackOne` | scripts/download-agent.ts:211-215 | one file is exactly as before if and only if both its undo renames succeeded |
| `PromotePaths.PutBack` | scripts/download-agent.ts:211-215 | the disk is exactly as before if and only if every undo rename succeeded, and no more files are not than undo renames failed |
| `PromotePaths.RemoveBackups` | scripts/download-agent.ts:218-220 | removing the backups keeps every new version |
| `PromotePaths.Promote` | scripts/download-agent.ts:185-221 | without failure every destination holds its source and no backup remains; otherwise all is exactly as before, sources included, if and only if nothing failed during the undo, and no more files are not than renames failed in it; no old file is lost before all new ones are in |
| `PathAlgebra.ResolveOfRelative` | scripts/move-backend-modules.ts:126-129 | a relative specifier between two directories resolves to its target, for all paths |
| `PathAlgebra.WalkRelative` | scripts/move-backend-modules.ts:127 | so does the relative path as a list of names |
| `PathAlgebra.SplitOfJoin` | scripts/move-backend-modules.ts:127 | splitting undoes joining with slashes |
| `PathAlgebra.ResolveIsPath` | scripts/move-backend-modules.ts:104 | resolving any specifier gives a normalised path |
| `PathAlgebra.RelativeSpecifierLooksRelativeIff` | scripts/move-backend-modules.ts:126-129 | a written specifier is recognisable as relative if and only if it is neither the parent itself nor a dot-named child |
| `PathAlgebra.RelativeSpecifierRecognisedIff` | scripts/move-backend-modules.ts:28-29 | it is matched by the mover's own pattern if and only if, besides, what it spells out holds no quote or newline |
| `ModuleMovers.CheckMoves` | scripts/move-backend-modules.ts:80-88 | the mover starts if and only if there is something to move, all sources exist, no target does, and no two coincide; each refusal names a file it is true of |
| `ModuleMovers.ScriptCandidate` | scripts/move-backend-modules.ts:105-119 | every candidate is the specifier's path with one suffix swapped or added |
| `ModuleMovers.WrittenKindUnique` | scripts/move-backend-modules.ts:106-113 | a suffix is recognised as what was put there |
| `ModuleMovers.ScriptsRecognisedIff` | scripts/move-backend-modules.ts:106-107 | the names read as scripts are those of the pattern: a dot, perhaps `c` or `m`, `js`, perhaps `x` |
| `ModuleMovers.StoredRecognisedIff` | scripts/move-backend-modules.ts:114 | the names that look stored are those with `ts` in its place |
| `ModuleMovers.ScriptCandidates` | scripts/move-backend-modules.ts:106-119 | a script may be the file with `ts` for its `js`, the rest of the suffix unchanged, or itself, in this order |
| `ModuleMovers.OtherCandidates` | scripts/move-backend-modules.ts:114-119 | any other name stands for itself, after `.ts` and `.tsx` files unless it looks stored |
| `ModuleMovers.WrittenOfCandidate` | scripts/move-backend-modules.ts:141-142 | stripping and restoring a candidate's suffix gives back the path as written |
| `ModuleMovers.StemHasCandidate` | scripts/move-backend-modules.ts:105-119 | a stem with either spelling of a suffix leads to the stored file |
| `ModuleMovers.WrittenHasCandidate` | scripts/move-backend-modules.ts:140-143 | after a kind-preserving move the path as written still has the moved file among its candidates |
| `ModuleMovers.ChosenIsMeaning` | scripts/move-backend-modules.ts:120-123 | the mover's preference for files that move does not change what an unambiguous specifier names |
| `ModuleMovers.ChosenFits` | scripts/move-backend-modules.ts:141-142 | there is always enough of the destination's name to strip |
| `ModuleMovers.RewrittenKeepsMeaning` | scripts/move-backend-modules.ts:131-147 | a specifier that stays relative, resolved from the file's new directory in the moved tree, names the image of the file it named before, and one that does not names no file; which of the two is known before the move |
| `ModuleMovers.UnnamedStillResolves` | scripts/move-backend-modules.ts:120-147 | a relative specifier that names no script, as of a directory or an asset, leads to the same path from the new place |
| `ModuleMovers.DotDirectoryBreaksImport` | scripts/move-backend-modules.ts:126-147 | a family of moves that turn a working import into one that names a package: into a directory from which the imported file lies below a dot-named one |
| `ModuleMovers.DotDirectoryBreaksThisImport` | scripts/move-backend-modules.ts:126-147 | moving `/a/m.ts` to `/a/b/m.ts` rewrites `./b/.h/x.js` to `.h/x.js` |
| `ModuleMovers.RewrittenSourceKeepsMeaning` | scripts/move-backend-modules.ts:131-147 | so for all specifiers of a file, those included that name no script or are not relative |
| `ModuleMovers.TargetStillFree` | scripts/move-backend-modules.ts:81-87 | thanks to the checks, a rename's target is free and its source in place when its turn comes |
| `ModuleMovers.OneMoreMove` | scripts/move-backend-modules.ts:215-220 | a rename extends a simultaneous move by one file |
| `ModuleMovers.MoveFiles` | scripts/move-backend-modules.ts:215-220 | the renames in any order do what moving all at once would |
| `ModuleMovers.RewriteFiles` | scripts/move-backend-modules.ts:205-214 | rewriting in place gives every file specifiers that will mean the same exactly where they stay relative, and moves none |
| `ModuleMovers.MoveModules` | scripts/move-backend-modules.ts:205-220 | after the whole run each file is at its image, each of its specifiers names the image of what it named exactly if it stays relative, and those that named no script lead to the same paths |
| `StringSorts.AtMostIff` | scripts/generate-codex-app-server-protocol.ts:303-310 | strings are ordered by their first different code unit, and a prefix comes first |
| `StringSorts.SortIsSorted` | scripts/generate-codex-app-server-protocol.ts:303-310 | the default sort sorts |
| `StringSorts.SortedIsUnique` | scripts/generate-codex-app-server-protocol.ts:303-310 | a bag of strings has one sorted list |
| `StringSorts.SortDecidesPermutation` | scripts/qualification-ledger.ts:43 | sorted lists are equal exactly for permutations |
| `CanonicalJsons.CanonicalDecidesSame` | scripts/generate-codex-app-server-protocol.ts:299-316 | canonical forms are equal if and only if the values differ only in key order and in the order of all-string `required` arrays, at any depth |
| `CanonicalJsons.CanonicalIsSame` | scripts/generate-codex-app-server-protocol.ts:299-316 | the canonical form is a well-formed value equivalent to its origin |
| `CanonicalJsons.CanonicalIsIdempotent` | scripts/generate-codex-app-server-protocol.ts:299-316 | canonicalising twice changes nothing more |
| `CanonicalJsons.ArraysCase` | scripts/generate-codex-app-server-protocol.ts:300-305 | the equivalence for arrays: order matters, except for strings under `required` |
| `CanonicalJsons.ObjectsCase` | scripts/generate-codex-app-server-protocol.ts:307-313 | the equivalence for objects: key order never matters |
| `SchemaDigests.FrameSplits` | scripts/generate-codex-app-server-protocol.ts:329-332 | a frame can be taken apart in one way only |
| `SchemaDigests.FramedIsInjective` | scripts/generate-codex-app-server-protocol.ts:328-333 | different file lists are framed differently |
| `SchemaDigests.DigestFiles` | scripts/generate-codex-app-server-protocol.ts:326-335 | the loop hashes the frames of the files in path order |
| `SchemaDigests.DigestDecidesSorted` | scripts/generate-codex-app-server-protocol.ts:326-335 | digests are equal if and only if the sorted file lists are, for any order of paths |
| `SchemaDigests.DigestDecidesFiles` | scripts/generate-codex-app-server-protocol.ts:326-335 | for any total order in which no two of the paths tie, digests are equal if and only if the same paths hold the same contents, whatever order the files were found in |
| `SchemaDigests.TieMovesDigest` | scripts/generate-codex-app-server-protocol.ts:328 | where two paths tie, the digest changes with the order the files were found in |
| `QualificationLedgers.KeyInjective` | scripts/qualification-ledger.ts:45 | a row key names one table and one position, although table names may hold colons and digits |
| `QualificationLedgers.DecimalInjective` | scripts/qualification-ledger.ts:45 | decimal numerals are different for different positions |
| `QualificationLedgers.KeyIs` | scripts/qualification-ledger.ts:45 | a row key is `ledger:row:`, the table, a colon and the numeral of the position |
| `QualificationLedgers.RowsCounted` | scripts/qualification-ledger.ts:29-39 | a snapshot is of every row that counts as content, as often as it occurs, and of no other, in either mode |
| `QualificationLedgers.FullContentIff` | scripts/qualification-ledger.ts:29-39 | in full mode equal content is the same bag of rows in every table but planner statistics and storage bookkeeping |
| `QualificationLedgers.HashesDecideRows` | scripts/qualification-ledger.ts:42 | hashing loses nothing about a bag of rows |
| `QualificationLedgers.AddTable` | scripts/qualification-ledger.ts:44-46 | one table's values are recorded at exactly their positions |
| `QualificationLedgers.TakeSnapshot` | scripts/qualification-ledger.ts:6-52 | a snapshot holds the sorted hashes of all rows that count, and of a separate ledger its version and schema, and nothing else |
| `QualificationLedgers.TableAdded` | scripts/qualification-ledger.ts:24-47 | a further table disturbs none of those recorded |
| `QualificationLedgers.TableSkipped` | scripts/qualification-ledger.ts:29-31 | an excluded table counts for nothing |
| `QualificationLedgers.AgreeingValues` | scripts/qualification-ledger.ts:44-46 | snapshots that agree on row keys have the same hashes for every table |
| `QualificationLedgers.EqualValuesAgree` | scripts/qualification-ledger.ts:44-46 | and conversely |
| `QualificationLedgers.SnapshotsDecideRows` | scripts/qualification-ledger.ts:24-47 | two snapshots in the same mode agree if and only if the databases hold the same rows of ledger content, a missing table counting as empty |
| `QualificationLedgers.Diff` | scripts/qualify-backend-upgrade-rollback.ts:745-754 | the three lists are exactly the added, removed and changed keys, each once and in ascending order |
| `QualificationLedgers.ReportedIff` | scripts/qualify-backend-upgrade-rollback.ts:748-752 | no row key is reported if and only if the snapshots agree on all of them |
| `QualificationLedgers.DiffDecidesRows` | scripts/qualify-backend-upgrade-rollback.ts:745-754 | a diff reports no row if and only if the databases hold the same rows of ledger content; in full mode, the same bag of rows in every table but the two kinds left out |
| `DesignClients.DesignServiceClient.constructor` | e2e/design-service-client.ts:52-58 | a client starts with nothing pending |
| `DesignClients.DesignServiceClient.Fail` | e2e/design-service-client.ts:59-63 | every pending request is rejected with the first error there ever was, and `pending` is emptied |
| `DesignClients.DesignServiceClient.SendRequest` | e2e/design-service-client.ts:99-116 | a request is refused after a failure or while closing, fails alone if its write throws, and otherwise waits under a fresh id |
| `DesignClients.DesignServiceClient.ReceiveReply` | e2e/design-service-client.ts:92-96 | a reply settles its own request only |
| `DesignClients.DesignServiceClient.BeginClose` | e2e/design-service-client.ts:128-135 | the first `close()` sends the close request exactly if nothing failed before, and later ones nothing (`RunTells`) |
| `DesignClients.StepKeepsInv` | e2e/design-service-client.ts:52-144 | after every event `pending` names exactly the unsettled requests, each once, under issued ids |
| `DesignClients.FailedKeepsCorrelation` | e2e/design-service-client.ts:59-63 | a failure leaves no request waiting |
| `DesignClients.PromisesSettleOnce` | e2e/design-service-client.ts:74-97 | a settled promise never changes, and a reply settles its own request with its own outcome |
| `DesignClients.FirstErrorStays` | e2e/design-service-client.ts:60-101 | the first error stays, and every later send is rejected by it |
| `DesignClients.FailedForGood` | e2e/design-service-client.ts:59-101 | after the first failure nothing ever waits again, in any continuation |
| `DesignClients.SettledStays` | e2e/design-service-client.ts:92-96 | what was settled stays settled in every run |
| `DesignClients.RunTells` | e2e/design-service-client.ts:56-144 | in every run the client's state is what its events say: broken by the first error there was, closing since the first `close()`, which asked the service exactly if nothing was broken, racing until the race was won, done when the exit was seen, with one promise for every request |
| `DesignClients.SendIsAnswered` | e2e/design-service-client.ts:99-116 | a request is refused after an error or `close()`, failed by its own write, or waits |
| `DesignClients.CloseRequestIsAnswered` | e2e/design-service-client.ts:128-134 | the request of a `close()` is made at once and is what it races for |
| `DesignClients.BreakRejectsWaiting` | e2e/design-service-client.ts:59-90 | a break rejects every waiting request with the first error there was |
| `DesignClients.EveryRunIsAccounted` | e2e/design-service-client.ts:52-144 | in every run at most one close request is issued and none of any kind is pending when `close()` completes |
| `FakeModelParking.Server.WaitFor` | scripts/recurring-live-ab-fake-model.ts:285-297 | a call parks unless its id was released or the server stopped, even if its signal was aborted before |
| `FakeModelParking.Server.OnAbort` | scripts/recurring-live-ab-fake-model.ts:290-296 | an abort wakes a call that still listens and takes it off its id |
| `FakeModelParking.Server.Release` | scripts/recurring-live-ab-fake-model.ts:386-390 | the loop wakes all calls parked under the id |
| `FakeModelParking.Server.StopServer` | scripts/recurring-live-ab-fake-model.ts:410-412 | releasing the ids one after the other is stopping at once |
| `FakeModelParking.StepKeepsInv` | scripts/recurring-live-ab-fake-model.ts:270-415 | a call is parked, under its own id and nowhere else, exactly while it was never woken; no id is both released and parked |
| `FakeModelParking.AbortedKeepsInv` | scripts/recurring-live-ab-fake-model.ts:290-296 | an abort wakes its own call and leaves the others parked |
| `FakeModelParking.EveryCallWakesAtMostOnce` | scripts/recurring-live-ab-fake-model.ts:285-297 | in every run each call wakes at most once, and is parked exactly until then |
| `FakeModelParking.AwakeIff` | scripts/recurring-live-ab-fake-model.ts:285-297 | in every run each call waits for its own id, and is awake if and only if its client went away after it, its id was released or the server stopped, before it or after |
| `FakeModelParking.AbortedBeforeWaits` | scripts/recurring-live-ab-fake-model.ts:296 | a call whose signal was aborted before it waits through every run until release or stop |
| `FakeModelParking.ReleasedForGood` | scripts/recurring-live-ab-fake-model.ts:287-415 | once its id is released or the server stopped, every call, earlier or later, has woken exactly once |
| `FakeModelParking.ReleaseWakesItsOwn` | scripts/recurring-live-ab-fake-model.ts:386-390 | a release wakes exactly the waiting calls of its id |
| `FakeModelParking.NothingParksAfterStop` | scripts/recurring-live-ab-fake-model.ts:287-412 | after a stop nothing is parked or parks again |
| `FakeModelParking.ReleaseThenStop` | scripts/recurring-live-ab-fake-model.ts:410-412 | stopping after releasing one parked id is stopping |
| `ProcessTrees.Descendants` | scripts/codex-parent-exit-live.ts:73-84 | the search ends if the process is not its own ancestor, and returns exactly its descendants, each once, each after its parent |
| `ProcessTrees.ChildIsNew` | scripts/codex-parent-exit-live.ts:77-80 | without a visited set, nothing is found twice |
| `ProcessTrees.SearchedNext` | scripts/codex-parent-exit-live.ts:75-82 | one turn of the loop extends the search by exactly one process's children |
| `ProcessTrees.FoundFits` | scripts/codex-parent-exit-live.ts:75-82 | no more can be found than there are rows, so the loop ends |
| `ProcessTrees.AllFound` | scripts/codex-parent-exit-live.ts:75-82 | no descendant is missed |
| `ProcessTrees.OwnAncestorNeverEnds` | scripts/codex-parent-exit-live.ts:75-82 | for a process that is its own ancestor the queue is never empty after any number of turns |
| `AnchorProbes.Probe.constructor` | e2e/transcript-anchor-probe.ts:40-41 | a probe starts with an empty log |
| `AnchorProbes.Probe.OnSample` | e2e/transcript-anchor-probe.ts:43-55 | a sample extends the log and keeps ring and counters true of it; a stopped probe ignores it |
| `AnchorProbes.Probe.Stop` | e2e/transcript-anchor-probe.ts:58-75 | the trace is the last part of the full log, in order, for any number of samples and any capacity; the counters speak of the whole log |
| `AnchorProbes.MaxErrorIsMaximum` | e2e/transcript-anchor-probe.ts:47-48 | the kept error is the largest of all samples' errors |
| `AnchorProbes.ErrorIsDistance` | e2e/transcript-anchor-probe.ts:47-48 | an error is the distance from where the anchor should be, and a missing anchor counts as none |
| `AnchorProbes.MissingIsCount` | e2e/transcript-anchor-probe.ts:45-46 | the other counter is the number of samples without an anchor |
| `AnchorProbes.LastOfIsSuffix` | e2e/transcript-anchor-probe.ts:58-70 | the trace is as much of the end of the log as fits |
| `AnchorProbes.SlotsDiffer` | e2e/transcript-anchor-probe.ts:49 | samples less than a ring apart never share a slot |

## Left out

Whole areas:

- Process spawning, HTTP, Docker, Git, Playwright, argument parsing, reports, percentile helpers and version checks.
- Decompression, package downloads, `sharedLibrariesInDeb` and `installLibraries`: a filter and a copy loop over what the readers return; they would add only easy members.
- `describeDifferences`, the classification cascade of `compare`, `classifyQualificationChanges`, `scriptOf`, `workflowStage` and `callFor`: lookups by patterns on names, whose contracts would repeat their bodies.
- The free-text path rewriting, formatting and staging of the module mover: heuristic, with no meaning to preserve.

What the models take for granted or simplify:

- The order of the event loop (continuations before timers and signals) is not assumed of the probe's runs; the two bad runs keep it. An `rm` deletes the root at one moment.
- The probe and the browser cache are state machines on values, one step per stretch between two awaits, as what matters in them is interleaving and not local variables.
- Sockets are what `ThrottledPipes.Enabled` says: no data from a paused or ended source, `drain` after a refused write of a live target. Chunk boundaries and TCP itself are not modelled.
- The total counters reported by `stats()` other than bytes and peaks, and the closing of the throttle's listener.
- Of tar: checksums, vendor records such as those of GNU sparse files, and what else a type flag may mean beyond file, link or other. Where pax and GNU records disagree about one file, which no format settles, the pax ones are taken to override.
- Archive text stays bytes: UTF-8 decoding, white space outside ASCII, and the line terminators U+2028 and U+2029 in pax records are not modelled.
- Numbers are exact: times and offsets are reals, and only integers up to the largest safe one are accepted as sizes.
- A successful `stopServer` means that the server has exited; its two timeouts and the signals it sends are not modelled, nor are two probes at once.
- The kill timer of the client's `close()` and the deadline of waiting for the cache lock: waiting may simply end in failure.
- Random names are never drawn twice; a build of the shared cache carries no stamp; an operator removes the lock only of a process that has died.
- A file swap's paths are all different and none lies inside another; a file or a directory tree is one content; `ENOENT` is reported only when something is missing; creating parent directories is part of staging.
- The caller of the downloader's promotion removes the staging directory afterwards; backups left there by a failed undo go with it.
- Hashes are functions with no collision among the inputs at hand; their JSON text is not modelled.
- `localeCompare` is any total order of paths, ties included; integer-like and special JavaScript keys are not modelled.
- Directories as targets of specifiers, and which files the repository tracks.

Contracts weaker than a stronger promise one could wish for:

- RewrittenKeepsMeaning: assumes that moves keep the kind of a script and that neither the old nor the new specifier is ambiguous, as the mover does; specifiers that resolve to the filesystem root are excluded.
- MoveModules: makes the same assumptions for all specifiers of all files.
- TarRoundTrip: asks that every member is kept, in the sense of `TarReadsAsMeantIff`, which says that nothing less will do.
- PreparedForGood: speaks of a revision that no process is there to retire; `PreparedForGoodIff` says that this is needed.
- ArRoundTrip: takes names as the member headers spell them; the long-name tables of GNU (`//`) and BSD (`#1/`) are not looked up, as in the code.
- WindowCarriesAtMostRate: bounds departures; deliveries are later by the constant latency.
- BeginClose: covers the part of `close()` before its first await; the rest is in the state machine `DesignClients.Step`.
