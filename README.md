# filesize: a Dafny model of the size-table pipeline

This project models the core of `filesize`, a tool that checks the compressed
sizes of a project's files against budgets kept in `package.json`. The model
covers the following stages:

- **The size table.** It maps each file to a record of three slots: brotli,
  gzip and none. A slot holds a measured size and an optional budget. The
  size is a number once calculated, `null` while awaiting calculation, and
  `undefined` when the encoding is ignored.
- **The configuration checks that build the table.** These are
  `validateCompressionName`, `validateFileConfig`, `Track` and the `Config`
  chain of `readPackage`, `parsePackage` and `parseFiles`.
- **The compression run.** One job is made per measured slot. The jobs run
  in consecutive batches, and the run's result is the conjunction of the
  job results.
- **The recorder `store`.** It writes one measured size into one slot and
  judges it against the slot's budget.
- **The four reporters.** These are the completed-path reporter, the
  redrawing terminal reporter, the line reporter with its append-only
  subclass, and the older console reporter.
- **The two output queues and their erase sequences.**

The older flat-list generation of the checks and the compressor (the
top-level `validation/*.ts` and `compress.ts`) is modelled alongside, in
`legacy_validation.dfy` and `legacy_compress.dfy`.

Modules:

| file | module(s) | source |
|---|---|---|
| support.dfy | `Wrappers`, `Text`, `Json`, `Batching` | helpers: decimal and UTF-8 lengths, JSON values, batch slicing |
| condition.dfy | `Condition`, `Host` | src/validation/Condition.ts; the environment stand-ins |
| file.dfy | `File` | src/validation/File.ts |
| track.dfy | `Track` | src/validation/Track.ts |
| config.dfy | `Config` | src/validation/Config.ts |
| worker.dfy | `Worker` | src/worker.ts |
| compress.dfy | `Compress` | src/compress.ts |
| report.dfy | `Report` | src/log/report.ts |
| tty.dfy | `TTY` | src/log/tty-report.ts |
| cli.dfy | `CLI` | src/log/cli-report.ts |
| notty.dfy | `NoTTY` | src/log/no-tty-report.ts |
| log.dfy | `Log` | src/log.ts |
| output.dfy | `Output` | src/log/helpers/output.ts |
| process.dfy | `Process` | src/process.ts |
| legacy_validation.dfy | `LegacyCondition`, `LegacyFile`, `LegacyConfig` | validation/Condition.ts, validation/File.ts, validation/Config.ts |
| legacy_compress.dfy | `LegacyCompress` | compress.ts |

The model keeps the form of the source:

- **Records are arrays.** A record is an `array<Slot>` of length 3, held in
  `Condition.Context.compressed`. That is what makes the shared record of
  `Track` observable.
- **Key order is a sequence.** `Context.order` is the insertion order of the
  JavaScript `Map`, and every reporter walks the table in that order.
- **Classes stay classes.** Objects whose fields the source updates are
  classes: `Context`, `ConfigContext`, the reporters and the queues.
- **Loops stay loops.** Each loop in the source is a method with a loop, and
  each such method is specified by a function over values: `ScanFrom`,
  `Redraw`, `LogFrom`, `Jobs`, `Batches`, `RunOutcome`, `Chain`, `ItemsFrom`
  and `EraseCodes`.
- **Subclasses become composition.** A subclass holds the object of its base
  class (`TTYReport.base`, `CLIReport.base`, `NoTTYReport.cli`) and updates
  that object's counters.
- **Output is abstract.** Output is a sequence of texts, each a sequence of
  `Output.Token`s. A row carries its icon, its display path and one abstract
  `Output.Cell` per slot.
- **A job can settle or throw.** A job is `Batching.Outcome`, either
  `Resolved(ok)` or `Throws`. `Throws` stands for a callback that throws, so
  its promise never settles and the run does not complete.

The two generations differ in their budget tests. `store` in src/worker.ts and
src/compress.ts passes a size strictly under its budget. `report` in
compress.ts passes a size equal to the budget as well.

## Model

| member | source | states |
|---|---|---|
| Condition.SizeMapValueIndex | src/validation/Condition.ts:43-47 | the slot of an encoding is its position in `OrderedCompressionValues` (brotli 0, gzip 1, none 2), and the name table agrees |
| Condition.EncodingTables | src/validation/Condition.ts:22-23 | there are exactly three encodings, each listed once, and `indexOf` of an encoding's name is its slot index |
| Condition.SetKey | src/validation/File.ts:80 | `Map.set` key order: the set of keys gains exactly the new key, and keys stay distinct |
| Condition.Context.constructor | src/validation/Condition.ts:53-69 | a run starts with an empty table, no original names and an empty item list |
| Condition.Context.SetRecord | src/validation/File.ts:80 | `compressed.set(p, record)`: the table changes at `p` only, and the key order follows `SetKey` |
| Condition.Context.SetSize | src/worker.ts:75-80 | writes only the measured field of slot `i` of the record of `p`, and reports whether `p` has a record |
| Text.NatToStringRoundTrip | validation/File.ts:74 | the decimal rendering used in `#index` names reads back to the same number |
| Text.Utf8LengthBounds | src/worker.ts:92 | `Buffer.byteLength` of a string is between its length and four times its length, and is 0 only for the empty string |
| Text.Utf8LengthAppend | src/worker.ts:92 | the byte length of a concatenation is the sum of the byte lengths |
| File.ValidateCompressionNameSpec | src/validation/File.ts:26-37 | a name is accepted as `c` iff its lower-case form is the name of `c`, or it is empty and `c` is none; everything else is `null` |
| File.CompressionNameCaseInsensitive | src/validation/File.ts:27-32 | every encoding name is accepted in lower and in upper case and returns that encoding |
| File.EntrySlot | src/validation/File.ts:66-79 | a valid entry writes `[null, maxSize]` into a slot below 3 |
| File.AcceptedCount | src/validation/File.ts:60-69 | the entries before the first invalid one are valid, and the one it stops at is not |
| File.WriteEntriesSlot | src/validation/File.ts:71-80 | a slot ends up with the budget of the last entry naming its encoding; a slot no entry names is unchanged |
| File.FileConfigErrorOrder | src/validation/File.ts:45-58 | no entries is reported before the path is checked; a missing file comes next; the check succeeds iff there are entries, the path is a file and every entry is valid |
| File.SetSlot | src/validation/File.ts:71-80 | the existing record (or a fresh all-ignored one) gets slot `i` written in place and is stored under the path; no other record changes |
| File.CheckEntry | src/validation/File.ts:61-69 | an entry's error is `EntryProblem`'s (a bad compression name is reported before a bad size), and a valid entry yields the slot and contents of `EntrySlot` |
| File.AcceptEntry | src/validation/File.ts:71-81 | one accepted entry writes its slot and remembers the path's original spelling, keeping the record object of a path already in the table |
| File.AcceptNew | src/validation/File.ts:71-81 | the first entry of a path the table lacks stores a new record, all ignored but the entry's slot, and leaves every other record alone |
| File.AcceptExisting | src/validation/File.ts:71-81 | a further entry writes its slot into the record the table already holds for the path, in place, over the entries written before it |
| File.StoreEntries | src/validation/File.ts:60-82 | the entry loop writes every entry up to the first invalid one, whose error it returns; entries written before a failure stay in the table |
| File.ValidateFileConfig | src/validation/File.ts:40-84 | the result is the error of the first failing check, or `null`, and the table holds exactly the entries written before it returned |
| Track.Formats | src/validation/Track.ts:38 | an encoding is kept iff some `trackFormat` value names it after `validateCompressionName`; rejected names are dropped |
| Track.TrackedRecord | src/validation/Track.ts:31-44 | a tracked record has no budgets and an awaiting none slot; without `trackFormat` every slot awaits |
| Track.ResolvedSpec | src/validation/Track.ts:48 | entry `k` resolves to path `k` |
| Track.SetKeysSpec | src/validation/Track.ts:50 | setting the tracked paths keeps the old key order as a prefix, adds each new path once and keeps keys distinct |
| Track.SetAllSpec | src/validation/Track.ts:47-52 | every tracked path maps to the one record, replacing what the file configuration made; other paths are unchanged |
| Track.NameAllSpec | src/validation/Track.ts:51 | a tracked path takes the spelling of the last glob match resolving to it; other names are unchanged |
| Track.NewRecord | src/validation/Track.ts:31-44 | allocates a fresh record holding `TrackedRecord` |
| Track.SetTracked | src/validation/Track.ts:47-52 | the loop leaves the table, key order and names as `SetAll`, `SetKeys` and `NameAll` describe |
| Track.Track | src/validation/Track.ts:27-56 | without a `track` array nothing changes; otherwise every match is set to one fresh record built before the loop; the result is always `null` |
| Track.AddRecord | src/validation/Track.ts:48-51 | one pass of the corrected loop gives the entry's path a record of its own |
| Track.SetTrackedFresh | src/validation/Track.ts:47-52 | the corrected loop: each tracked path holds its own fresh record with the tracked contents, other paths are unchanged, and no record becomes shared |
| Track.AddRecords | src/validation/Track.ts:47-52 | after the corrected loop, every tracked path holds a new record with the tracked contents, no two of them shared and none taken from the table before |
| Track.TrackFresh | src/validation/Track.ts:27-56 | `Track` with a record per tracked file: the same keys, order and names, and a table without shared records keeps none |
| Track.SharedRecordExample | src/validation/Track.ts:31-50 | with two tracked files, storing a brotli size for one changes the brotli slot of the other |
| Config.Without | src/validation/Config.ts:56 | the rest of an object without `track`: exactly its other members, in order |
| Config.RestKeys | src/validation/Config.ts:56 | `...keys` never holds `track` |
| Config.ParsePackageResult | src/validation/Config.ts:47-74 | a successful parse yields non-empty keys without `track` |
| Config.ParseStep | src/validation/Config.ts:47-74 | with no error, `parsePackage` leaves an object of keys, non-empty and without `track` |
| Config.FirstFailureFrom | src/validation/Config.ts:83-93 | the first key whose item is an object that the validator rejects; every key before it passes or is skipped |
| Config.ChainCases | src/validation/Config.ts:98-114 | the chain in closed form: a read failure, then a parse failure, then the first rejected item decide the error; the items appended are those of the keys before the rejected one, and none when reading or parsing fails |
| Config.FirstErrorWins | src/validation/Config.ts:109-114 | a read failure is reported whatever the items are, and `Config` returns `null` iff no condition leaves an error |
| Config.ParseMessages | src/validation/Config.ts:49-73 | text that is not JSON cannot be parsed, a value without 'filesize' has no configuration, and 'filesize' with only `track` holds no data |
| Config.KeysHaveNoTrack | src/validation/Config.ts:117 | `Track` finds the globs in the 'filesize' object but never in the keys `Config` hands it, which line 56 built without `track` |
| Config.ConfigContext.constructor | src/validation/Config.ts:102-108 | the chain starts with every field `null` |
| Config.ReadPackage | src/validation/Config.ts:36-41 | stores the content, and sets the read error only when there is none |
| Config.ParsePackage | src/validation/Config.ts:47-74 | sets the error, or the 'filesize' value and its keys, as `ParseStep` |
| Config.ParseFiles | src/validation/Config.ts:81-96 | keys in order with a 1-based index over all keys; non-objects skipped; the first rejected item's error set; accepted items appended in order |
| Config.RunCondition | src/validation/Config.ts:109-111 | runs condition `i` of `CONDITIONS` and appends what it appends |
| Config.RunChain | src/validation/Config.ts:109-114 | the loop stops at the first condition that leaves an error; its final state and appended items are `Chain`'s |
| Config.Config | src/validation/Config.ts:100-119 | returns the first error through `MakeError`, or `null`; appends the chain's items; leaves the size table unchanged |
| Config.ConfigTracked | src/validation/Config.ts:116-117 | with `Track` given the 'filesize' object, each tracked file gets its own fresh record and other records are unchanged |
| Worker.Measure | src/worker.ts:90-101 | nothing to measure iff the contents are missing or empty; the none encoding measures the UTF-8 byte length; only brotli and gzip can report a backend error |
| Worker.IdentityMeasuresContents | src/worker.ts:92-101 | readable contents measure, with the none encoding, at least as many bytes as they have characters, so never 0 |
| Worker.StoreAgreesWithReport | src/worker.ts:83-86 | `store` passes a slot exactly when the table reporter does not count it as failing |
| Worker.Store | src/worker.ts:62-87 | an error or a path missing from the table gives false and changes nothing: not the table, not stdout, and not the reporter's mode, completed paths or counters; otherwise only the measured field of the item's slot is written, the reporter (if one was supplied and is not silent) is updated after the write, and the result is the strict budget test |
| Worker.Compressor | src/worker.ts:89-107 | missing or empty contents give false and a backend error throws, both leaving the table, stdout and the reporter as they were; otherwise the measured size is stored, the reporter's update is that of `Worker.Store` (its completed paths, counters and stdout rows from `ScanFrom`, nothing when silent or absent), and the budget test is the result |
| Worker.CompressorChecked | src/worker.ts:97-98 | the job with the error handed to `store` always settles, failing on a backend error, and then leaves the table, stdout and the reporter as they were; a measured file is stored with the reporter's update of `Worker.Store` |
| Compress.RecordJobsExactly | src/compress.ts:105-113 | a record yields a job for an encoding iff its slot is not ignored, and the job carries the slot's budget |
| Compress.JobsExactly | src/compress.ts:103-115 | a job is collected iff its path is in the table and its encoding's slot is measured with the job's budget |
| Compress.RecordJobsBound | src/compress.ts:105 | a record yields at most one job per slot |
| Compress.Store | src/compress.ts:47-66 | an error or a path missing from the table gives false and one `LogError` line naming the item, with the table, the drawn paths and the counters unchanged; otherwise only the measured field of the item's slot is written (every path sharing the record sees it), the console reporter is updated after the write, and the result is the strict budget test |
| Compress.Record | src/compress.ts:59 | the write lands in the item's slot as a calculated size, and when that slot is not ignored only measured fields of the table change |
| Compress.Compressor | src/compress.ts:79-101 | an unreadable file gives false and a backend error throws, both changing nothing; a measured file is stored as `Compress.Store` does, with the reporter's update, and its budget test is the result |
| Compress.Job | src/compress.ts:79-101 | a job on a slot that is not ignored settles as `JobOutcome`, changes only measured fields, leaves a calculated size when its file measures, and only adds console lines (none when silent) |
| Compress.CollectJobs | src/compress.ts:103-115 | the nested loop builds `Jobs`, in table order and then slot order, and every job names a slot of the table that is not ignored |
| Compress.RunBatch | src/compress.ts:122 | one batch settles as `RunOutcome` of its jobs; only measured fields of the table change; once it settles every job whose file measures has a calculated size; the console only grows, and not at all when silent |
| Compress.BatchAt | src/compress.ts:118-125 | one pass of the batch loop updates the report on the first pass and runs the slice `[offset, end)`, keeping the table facts of the earlier passes |
| Compress.RunBatches | src/compress.ts:117-126 | the run settles as `RunOutcome` of all jobs, the batches run are the consecutive slices, and with no jobs nothing is updated or printed; only measured fields change, a settled run leaves a calculated size for every job whose file measures, and the console only grows |
| Compress.NewReport | src/compress.ts:73 | `new Report(context)` prints the header unless silent, starts with zero counts, and leaves the table as it was |
| Compress.EndReport | src/compress.ts:128 | `report.end()` appends `LogSummary` of the counters unless silent, and leaves the table as it was |
| Compress.Compress | src/compress.ts:72-130 | the outcome is the conjunction of all job outcomes over the batches `Batches(jobs, C)`; budgets, key set and ignored slots never change, and a settled run leaves a calculated size for every job whose file measures; the console gets the header, the update rows and, once settled, `LogSummary` of the final counts, nothing when silent, and only the header with no jobs |
| Batching.BatchesPartition | src/compress.ts:118-122 | the batches concatenate back to the job list, and each holds between 1 and `C` jobs |
| Batching.RunOutcomeAppend | src/compress.ts:123-125 | running two job lists in turn settles as the conjunction of their outcomes, unless one throws |
| Batching.ThrowsExtends | src/compress.ts:122 | a run with a throwing prefix throws |
| Report.ClassifyAgainstBudget | src/log/report.ts:72-86 | a measured slot fails iff it is not under its budget, warns iff it is under but within 5% of it, and is neutral iff it has no budget |
| Report.ClassifyUnmeasured | src/log/report.ts:62-65 | an `undefined` size is skipped and a `null` size is processing |
| Report.CellOf | src/log/report.ts:62-86 | the placeholder is shown iff the size is not calculated; otherwise the cell shows the size |
| Report.Cells | src/log/report.ts:109-116 | one cell per slot, in slot order |
| Report.Count | src/log/report.ts:72-86 | exactly one counter is incremented iff the slot succeeds, warns or fails, otherwise none |
| Report.Tally | src/log/report.ts:109-116 | a record adds at most one count per slot |
| Report.TallyFailure | src/log/report.ts:110-128 | a record adds failures iff some slot of it fails, the condition for the cross icon |
| Report.DisplayPath | src/log/report.ts:105 | the row shows the configured spelling, or the path itself |
| Report.ScanMembers | src/log/report.ts:98-122 | newly completed paths are in the table, were not completed before and are not processing |
| Report.ScanCompleted | src/log/report.ts:122 | `completedPaths` grows by exactly the newly completed paths |
| Report.ScanRows | src/log/report.ts:122-130 | the rows written are those of the newly completed paths, in order |
| Report.ScanInOrder | src/log/report.ts:98-122 | paths are completed in `paths` order |
| Report.ScanDistinct | src/log/report.ts:100-122 | no path is completed twice |
| Report.ScanCounts | src/log/report.ts:93-121 | the counters after `update` are the counts of the rows it emitted plus those of the row it stopped at |
| Report.ScanStops | src/log/report.ts:117-121 | the scan stops only at a path of the table that is still processing, and never completes it |
| Report.Summary | src/log/report.ts:136-152 | nothing iff every counter is 0; the party icon iff nothing failed; the warned and failed lines iff their counts are positive |
| Report.TadaIffNoCross | src/log/report.ts:144 | from zeroed counters, the party icon shows iff no counted row failed |
| Report.Report.constructor | src/log/report.ts:42-53 | silent: only the flag; otherwise the table's paths in order and the header |
| Report.Report.Start | src/log/report.ts:55-58 | writes the title and the column names |
| Report.Report.DisplaySize | src/log/report.ts:60-87 | returns `null`, `true` or `false` for processing, failing or anything else, with the slot's cell, and increments the counter its verdict names |
| Report.Report.DrawRecord | src/log/report.ts:109-116 | the slot loop finds whether some slot fails and whether some slot is processing, builds the cells and counts the record |
| Report.Report.DrawPath | src/log/report.ts:104-128 | a path's row has a cross iff some slot fails, its display path and its cells |
| Report.Report.ScanPaths | src/log/report.ts:97-131 | the loop of `update` leaves the completed list, counters and rows of `ScanFrom` |
| Report.Report.Update | src/log/report.ts:89-134 | silent: nothing; otherwise the counters are reset, the scan runs, and the rows are written as one text |
| Report.Report.End | src/log/report.ts:136-152 | silent: nothing; otherwise the summary of the counters |
| Report.Report.WriteSummary | src/log/report.ts:141-151 | writes `Summary` of the given counters |
| TTY.SettledRowsAgree | src/log/tty-report.ts:58-64 | a row with no processing slot looks as `Report` draws it |
| TTY.Present | src/log/tty-report.ts:40-44 | the redrawn paths are exactly those of `paths` present in the table |
| TTY.RedrawEvery | src/log/tty-report.ts:40-67 | every present path is redrawn on every call, in order, resolved or not |
| TTY.RedrawTada | src/log/tty-report.ts:35-59 | after a redraw the failure count is 0 iff no row shows a cross |
| TTY.TTYReport.constructor | src/log/tty-report.ts:27-28 | the base report is built and `firstUpdate` is set |
| TTY.TTYReport.RedrawPath | src/log/tty-report.ts:41-64 | the row's icon is a cross if some slot fails, else a dash if some slot is processing, else a tick; the record is counted |
| TTY.TTYReport.RedrawAll | src/log/tty-report.ts:39-67 | the loop yields `Redraw`'s rows and counts |
| TTY.TTYReport.Show | src/log/tty-report.ts:69-71 | the first call erases nothing, later calls erase `paths.length + 1` lines, then the block is written once |
| TTY.TTYReport.Update | src/log/tty-report.ts:30-72 | silent: nothing; otherwise counters reset to the redraw's counts, previous block erased, whole block written |
| CLI.StatusOf | src/log/cli-report.ts:46-93 | processing is 1 iff the size is `null`; an unmeasured or unbudgeted slot sets none of success, warning, failure; a budgeted one sets exactly one; the fields sum to at most 1 |
| CLI.StatusAgrees | src/log/cli-report.ts:75-92 | the status names the counter `Report` increments; failure is set iff the slot is not within its budget |
| CLI.CLIReport.constructor | src/log/cli-report.ts:31-44 | the base constructor's header (unless silent), then `start`'s header again, silent or not |
| CLI.CLIReport.Once | src/log/cli-report.ts:31-39 | the corrected constructor: the header once, and not when silent |
| CLI.CLIReport.DisplaySize | src/log/cli-report.ts:46-93 | returns `StatusOf` and the slot's cell, and increments the same-named counter |
| CLI.CLIReport.End | src/log/cli-report.ts:95-117 | the base `end`, then the summary again |
| CLI.SilentHeader | src/log/cli-report.ts:34-38 | a silent line reporter still writes the header |
| CLI.SilentHeaderOnce | src/log/cli-report.ts:31-39 | with the corrected constructor a silent reporter writes nothing |
| CLI.PassedLineTwice | src/log/cli-report.ts:96-104 | as the file reads, a run with a positive counter writes the passed line twice |
| NoTTY.LinesOnePerEntry | src/log/no-tty-report.ts:34-53 | exactly one line per completed entry, in the order given |
| NoTTY.CrossIffFailures | src/log/no-tty-report.ts:42-51 | the summed failures are positive iff some slot fails, which gives the cross |
| NoTTY.NoTTYReport.constructor | src/log/no-tty-report.ts:23 | built as a `CLIReport`: zero counters, and the header written as that constructor writes it |
| NoTTY.NoTTYReport.DrawEntry | src/log/no-tty-report.ts:35-51 | all three slots are rendered and counted, and the icon is a cross iff their failures sum to more than 0 |
| NoTTY.NoTTYReport.Update | src/log/no-tty-report.ts:28-54 | silent: nothing; otherwise one line per entry, in order, with every slot counted |
| Log.MakeError | src/log.ts:39-41 | the message follows the word 'error' and a space |
| Log.LogError | src/log.ts:47-49 | one console line holding the message behind 'error' |
| Log.MaxLength | src/log.ts:83-86 | the longest of the lengths |
| Log.MaxFormatDisplay | src/log.ts:82-86 | at least every encoding name's length plus 2 |
| Log.FormatColumnWidth | src/log.ts:82-86 | the columns are 8 characters wide |
| Log.MaxPathDisplay | src/log.ts:76-80 | the widest of `min(length, 30) + 2` over the paths, between 2 and 32 |
| Log.Tail | src/log.ts:144 | `substring(length - w)` is the last `w` characters, or the whole path |
| Log.PathShown | src/log.ts:144 | a path of at most 32 characters is shown whole, a longer one by its last 32 |
| Log.LogCell | src/log.ts:94-98 | the placeholder iff the size or the budget is unknown |
| Log.LogCount | src/log.ts:100-114 | at most one counter is incremented, failure exactly when the call returns true |
| Log.LogAgrees | src/log.ts:93-115 | this reporter counts and fails slots as the table reporter does, and differs only in showing an unbudgeted size as a placeholder |
| Log.LogFromGrows | src/log.ts:128-159 | `pathsDrawn` only grows, and only with paths of the list |
| Log.LogFromOnce | src/log.ts:130-158 | one line per newly drawn path, so a path is printed at most once per run |
| Log.LogFromSettled | src/log.ts:135-140 | only fully measured paths of the table are drawn |
| Log.LogSummary | src/log.ts:162-177 | printed iff something passed or failed; the party icon iff nothing failed; the failed line iff failures are positive |
| Log.WarningsOnlyUnreported | src/log.ts:168 | a run where every counted slot warned prints no summary, where the table reporter prints one |
| Log.LogSummaryIntendedAgrees | src/log.ts:168 | with the table reporter's guard the summary is silent exactly when that reporter's is, and differs from the one as written only on warnings-only runs |
| Log.ConsoleReport.constructor | src/log.ts:70-91 | silent: only the flag; otherwise the paths, the path width, an empty drawn set and the header |
| Log.ConsoleReport.DisplaySize | src/log.ts:93-115 | returns whether the slot fails, with its cell, and increments the counter it names |
| Log.ConsoleReport.DrawRecord | src/log.ts:143-150 | the slot loop finds whether some slot fails, builds the cells and counts the record |
| Log.ConsoleReport.DrawPath | src/log.ts:143-155 | the line has a cross iff some slot fails, the tail of the path and the cells |
| Log.ConsoleReport.WalkPaths | src/log.ts:128-159 | the loop leaves the drawn set, counters and lines of `LogFrom` |
| Log.ConsoleReport.Update | src/log.ts:123-160 | silent: nothing; otherwise drawn and missing paths are skipped, the first path still measuring ends the call uncounted, and every other path is printed, counted and drawn; counters are not reset |
| Log.ConsoleReport.End | src/log.ts:162-177 | silent: nothing; otherwise `LogSummary` of the counters |
| Output.EraseLoop | src/log/helpers/output.ts:36-38 | `count` erase codes with a cursor-up between consecutive ones |
| Output.EraseLoopCounts | src/log/helpers/output.ts:36-38 | the loop builds `count` erase codes, `count - 1` cursor-up codes and no cursor-left |
| Output.EraseCodesCounts | src/log/helpers/output.ts:35-41 | for `n > 0`: `n` erase codes, `n - 1` cursor-up codes, one cursor-left at the end; for 0 nothing; for a negative count the cursor-left alone |
| Output.EraseSequence | src/log/helpers/output.ts:35-41 | the string-building loop produces `EraseCodes(count)` |
| Output.Queue.constructor | src/log/helpers/output.ts:24 | the queue starts empty with nothing on stdout |
| Output.Queue.Write | src/log/helpers/output.ts:66-69 | a non-empty text reaches stdout at once, after everything written before it; an empty one writes nothing |
| Output.Queue.Exhaust | src/log/helpers/output.ts:50-64 | shifts the front text and hands it to stdout unless it is empty |
| Output.Queue.Written | src/log/helpers/output.ts:54-60 | the write callback hands the next queued text, if any, to stdout and keeps the queue's invariant |
| Output.Queue.Erase | src/log/helpers/output.ts:30-44 | a count of 0 or less writes nothing; otherwise the erase sequence as one text |
| Process.NonEmpty | src/process.ts:55 | at most one text reaches stdout per queued text |
| Process.NonEmptyKeeps | src/process.ts:53-57 | every non-empty text written reaches stdout |
| Process.LockedQueue.constructor | src/process.ts:19-20 | unlocked, with an empty queue |
| Process.LockedQueue.ExhaustQueue | src/process.ts:50-67 | nothing while locked; otherwise shifts the front text, which goes to stdout and keeps the lock, while an empty text unlocks at once; FIFO order is kept |
| Process.LockedQueue.Enqueue | src/process.ts:70 | the text is pushed at the back of the queue |
| Process.LockedQueue.Write | src/process.ts:69-72 | `del` is ignored; the text is queued, then a drain is tried |
| Process.LockedQueue.WriteDone | src/process.ts:57-61 | the write callback unlocks and drains again only when texts are waiting |
| Process.LockedQueue.EraseLines | src/process.ts:38-48 | queues `EraseCodes(count)`, even the empty text for a count of 0, and then drains as `write` does: while a write is in flight only the queue grows; otherwise the front text is shifted, a non-empty one goes to stdout and keeps the lock, an empty one unlocks |
| Process.LockedQueue.ExhaustQueueDraining | src/process.ts:50-67 | the corrected drain skips empty texts and leaves nothing queued unless a write is in flight |
| Process.LockedQueue.WriteDraining | src/process.ts:69-72 | `write` with the corrected drain keeps the queue drained |
| Process.LockedQueue.WriteDoneDraining | src/process.ts:57-61 | the callback with the corrected drain keeps the queue drained |
| Process.StrandedText | src/process.ts:55-65 | after a write of a text, `eraseLines(0)` and another write while the first is in flight, the callback of the first leaves the last text queued with nothing in flight |
| Process.StrandedTextDrained | src/process.ts:50-67 | with the corrected drain the same writes leave nothing queued |
| LegacyCondition.OrderedCompressionMap | validation/Condition.ts:28 | one `[null, null]` entry per encoding, in column order |
| LegacyCondition.OrderedCompressionMapKeys | validation/Condition.ts:24-28 | every encoding has exactly one entry |
| LegacyCondition.CompressionDisplayLengthIsBrotli | validation/Condition.ts:29 | the longest name is 'brotli', 6 characters |
| LegacyFile.CompressionValueAgrees | validation/File.ts:29-41 | the names accepted without an error are those `validateCompressionName` accepts, with the same encoding; any other gives none and "Invalid compression value" |
| LegacyFile.CompressionValueCaseInsensitive | validation/File.ts:30-34 | every encoding name is accepted in lower and upper case |
| LegacyFile.FirstMissing | validation/File.ts:48-49 | `findIndex` of the first mandatory key whose value is not a string |
| LegacyFile.FileConfigContainsKeys | validation/File.ts:47-52 | `null` input gives nothing; otherwise success iff `invalid` is `null` |
| LegacyFile.ContainsKeysSpec | validation/File.ts:47-52 | succeeds iff path, compression and maxSize are strings; otherwise it names the first that is not, in that order |
| LegacyFile.ValidateFileConfigSpec | validation/File.ts:59-88 | succeeds iff the path is a file, the compression is valid and the budget is positive; otherwise the first failing check's reason, prefixed with the item's name; success carries the spelling, resolved path, encoding and budget |
| LegacyConfig.JudgeSpec | validation/Config.ts:46-62 | an item is appended iff it has its keys and validates, and then its validated config is appended |
| LegacyConfig.ItemsFromAppends | validation/Config.ts:41-51 | the accepted items are appended in order, each as its 1-based verdict says |
| LegacyConfig.ItemsFromResponse | validation/Config.ts:43-66 | the loop succeeds with no message iff every item is appended; otherwise the response carries the message of the first item that is not |
| LegacyConfig.JudgeItem | validation/Config.ts:46-62 | checks the keys, then validates, in that order |
| LegacyConfig.ParseItems | validation/Config.ts:41-63 | the item loop's response and appended items are `ItemsFrom`'s |
| LegacyConfig.Config | validation/Config.ts:24-70 | the response and the appended items are `ConfigResult`'s: read failure, parse failure, missing 'filesize', a non-array 'filesize' (success, nothing appended), or the item loop |
| LegacyCompress.Report | compress.ts:42-55 | passes iff there is no error and the size is at most the budget; the line printed matches |
| LegacyCompress.ReportLoosensStore | compress.ts:48 | differs from `store`'s strict test only for a size equal to the budget, which passes here |
| LegacyCompress.CompressorMeasures | compress.ts:61-82 | the job measures what src/worker.ts measures and applies `report`'s test |
| LegacyCompress.CompressorCheckedSettles | compress.ts:69-73 | with the error handed to `report`, the job always settles, failing on a backend error |
| LegacyCompress.BackendErrorThrows | compress.ts:69 | a brotli item whose backend fails throws as written and fails when corrected |
| LegacyCompress.RunBatch | compress.ts:91-92 | one batch settles as `RunOutcome` of its items |
| LegacyCompress.Compress | compress.ts:88-98 | the run settles as the conjunction over all items, running the consecutive slices of the configuration |
| LegacyCompress.NothingReadable | compress.ts:61-82 | with every read failing, the run fails iff there is at least one item |

## Left out

- The zlib brotli and gzip backends and their option tables are an abstract function `Host.Env.compress`, which gives a byte length or an error.
- `readFile`, `isFile`, `fast-glob`, `JSON.parse`, `bytes()` and `path.resolve` are abstract fields of `Host.Env`. JSON numbers are integers.
- `LogError` in `store` of src/compress.ts is modelled as one `Problem` line on the console (`Log.LogError`). In src/worker.ts the worker's output is the stdout queue, so its `LogError` calls are not modelled there. The legacy `report` records only which line it prints.
- Compress.RunBatches: the batch size `cpus().length` is taken to be at least 1, and so are those of Compress.Compress and LegacyCompress.Compress. With 0 the loops of src/compress.ts:118 and compress.ts:90 would not advance once there is an item, and the run would never settle; that case is not modelled.
- Compress.Compress: the update rows are stated as what the reporter's updates printed, not derived from the final table, and the summary's counts are the reporter's counters, not tied to the table. A settled run promises a calculated size only for the jobs whose file is read and measured. When records are shared, the slot of one path may end with the size measured for another; the model allows this and does not state which size is kept.
- Log.MaxPathDisplay, Log.Tail and Log.PathShown: lengths count characters, while JavaScript's `length` and `substring` count UTF-16 code units. A path holding characters outside the Basic Multilingual Plane gets a different width and tail in the model than in the source. The same holds for the other reporters' path widths.
- The model runs the jobs of a batch one after another in list order; in the source, `.map(compressor)` starts them all and `Promise.all` awaits them concurrently. The order in which jobs complete inside a batch, and its effect on the interleaving of table writes and reporter updates, are not modelled.
- `Batching.Outcome.Throws` stands for an exception thrown inside a compression callback. The model says the run never settles; it does not model the process crash that would follow.
- Report.Classify: `1 - size / maxSize < 0.05` is read exactly as `20 * (maxSize - size) < maxSize`. Floating-point rounding at the boundary is not modelled. The same holds for `Log.LogCount` and `CLI.StatusOf`.
- Colours, `prettyBytes`, `padEnd` widths and icon glyphs are not modelled: rows are abstract tokens and cells. The spinner table of src/process.ts is not used by the core and is left out.
- `shutdown` in src/process.ts polls with a timer and exits the process; it is left out. `Process.LockedQueue.Drained` states the condition it waits for.
- The entry points (src/index.ts, index.ts, src/api.ts), src/validation/Compare.ts and the top-level log.ts are not part of this model.
- Text.LowerAscii: `toLowerCase` is modelled on ASCII letters only. No other character lower-cases into a letter of an encoding name, so which names are accepted is unaffected.
- Log.ConsoleReport.constructor: with no paths, `Math.max` gives `-Infinity`; the model uses a width of 0, which is never used because there is no row to draw.
- Config.ParseFiles: src/validation/Config.ts calls `ValidateFileConfig(path, index, item)` and expects `{success, error, config}`, which is not the signature of src/validation/File.ts. The item validator of `parseFiles` is therefore an abstract parameter.
- NoTTY.NoTTYReport.Update: `getUpdated` is not defined in src/log/report.ts, so the newly completed entries are a parameter.
- CLI.CLIReport.End: `super.end()` is taken to be the `end` of src/log/report.ts. There `end`, `update` and `displaySize` are instance arrow properties, which JavaScript does not reach through `super` and which shadow the methods of the subclasses. The model follows the text of each file, so `CLIReport.End`, `CLIReport.DisplaySize` and `NoTTYReport.Update` model the subclass bodies as written.
- Compress.Compressor: throws on a backend error exactly like `Worker.Compressor`; the corrected job is `Worker.CompressorChecked`.
- Config.ParsePackageResult: the "not an object" branch of src/validation/Config.ts:62-67 is unreachable, because the rest of a destructured object is always an object; the model has no such case.

## Findings

| source | as written | input that shows it | evidently intended | confidence | as-written member | corrected member |
|---|---|---|---|---|---|---|
| src/validation/Track.ts:31-50 | one `trackedFormats` record, built before the loop, is set for every glob match | two files matched by `track`; storing the brotli size of the first | each tracked file gets a record of its own | high, not executed | Track.Track, Track.SharedRecordExample | Track.TrackFresh, Track.SetTrackedFresh |
| src/validation/Config.ts:117 | `Track` is given `keys`, the 'filesize' object with `track` removed | 'filesize' of `{"track": ["*.js"], "a.js": {"brotli": "1kB"}}` | `Track` is given the 'filesize' object itself (`configContext.json`), which still holds `track` | high, not executed | Config.Config, Config.KeysHaveNoTrack | Config.ConfigTracked |
| src/log.ts:168 | the summary is guarded by `success > 0 \|\| failure > 0` | a run whose only counted slot warned (success 0, warning 1, failure 0) | the guard of src/log/report.ts:142, which includes `warning > 0` | medium, not executed | Log.LogSummary, Log.WarningsOnlyUnreported | Log.LogSummaryIntended, Log.LogSummaryIntendedAgrees |
| src/worker.ts:97-98 | the callback reads `result.byteLength` before `store` sees the error | a brotli item whose backend reports an error | `store` receives the error and the job resolves to false | medium, not executed | Worker.Compressor | Worker.CompressorChecked |
| compress.ts:69-73 | the callback reads `result.byteLength` before `report` sees the error | a brotli item whose backend reports an error | `report` receives the error and the job resolves to false | medium, not executed | LegacyCompress.Compressor, LegacyCompress.BackendErrorThrows | LegacyCompress.CompressorChecked, LegacyCompress.CompressorCheckedSettles |
| src/process.ts:55-65 | an empty shifted text unlocks without draining further | `write("x")`, then `eraseLines(0)` and `write("y")` while "x" is in flight, then the callback of "x" | the drain skips empty texts and continues | medium, not executed | Process.LockedQueue.ExhaustQueue, Process.StrandedText | Process.LockedQueue.ExhaustQueueDraining, Process.StrandedTextDrained |
| src/log/cli-report.ts:34-38 | `start` runs after `super(context)` whether silent or not | a silent context | no header when silent, and the header once otherwise | medium, not executed | CLI.CLIReport.constructor, CLI.SilentHeader | CLI.CLIReport.Once, CLI.SilentHeaderOnce |
