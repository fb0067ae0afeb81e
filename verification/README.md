# Verified model of dlog

dlog is a logging library (`log.c`) and a log reader, `dlogutil` (`logutil.c`, `logprint.c`). The
library sends a priority byte, a tag and a message to a kernel log device. The reader merges the
entries of several devices by time, filters and formats them, and writes them to a terminal or to a
file that it rotates by size. This project models all of that in Dafny and proves what holds of every
run.

Files, from the bottom up:

- `Options.dfy`, `Sequences.dfy`, `Integers.dfy`: optional values; associativity of concatenation;
  32-bit integers.
- `Timestamps.dfy`: entries, and `cmp` with its 32-bit subtractions.
- `EntryQueues.dfy`: sorted insertion, pooled queues, and an independent definition of a stable sort
  (sorted, and equal stamps keep their order) with a proof that it has only one result.
- `MergeLoop.dfy`: `read_log_lines` on values, one function for each step, policy, round and run.
- `MergeInvariants.dfy`: what every run keeps, for any result of `select` and `read`, errors included.
- `DrainOrder.dfy`: the drain is a stable merge; `-t N` is exact.
- `TailFilters.dfy`: `-t N` prints the newest N entries read; when that is what its help text says,
  given that filters and formatter run later.
- `Blocking.dfy`: when the loop may block while entries are queued.
- `Rounds.dfy`: what one round takes, when the program goes on, and how little it holds back.
- `MergeWorld.dfy`: the loop among drivers with a clock and FIFOs; what it does there is a run of the
  loop; consumption follows time.
- `Delivery.dfy`: every entry that arrives is printed, skipped, queued or pending, and after a select
  timeout none of those it could see is left.
- `Filters.dfy`: rules, filter strings, lookup and dump, with the class that updates them.
- `Formatter.dfy`: the two passes of the line formatter, writing into a buffer.
- `Wire.dfy`: the payload writer and parser.
- `FileNames.dfy`, `Rotation.dfy`: file names, rename cascade, retention and byte count over runs.
- `LogOutput.dfy`: `processBuffer` and its callees on the program's own variables.
- `Emission.dfy`: from the writes of the merge loop to output calls and their effects.
- `Reader.dfy`: the linked queues and device records updated in place and the output they feed, tied
  to `MergeLoop` and `Emission`.
- `Pipeline.dfy`: from what programs log to what the files hold.
- `DlogInit.dfy`: lazy initialisation under any interleaving of threads.

Both draining policies, errors from `select` and `read`, the two ways a read can end a round (EINTR,
EAGAIN), the exits, partial and failed writes, and failed renames are modelled as inputs chosen by the
environment, and theorems range over all of them unless they say otherwise.

Where the code and what it says about itself differ, the model follows the code:

- `g_max_rotated_logs` 0 is commented as "unbounded" (`logutil.c:48`). With 0 the code renames nothing
  and only resets its byte count, so the file grows and the count no longer matches it. The same
  happens when the rename of the open file fails; `AccountedAfterRotation` and, over runs,
  `CountIsFileSizeIff` say exactly when the count is right.
- `g_dev_count` counts a device that the default set-up drops from its list (`logutil.c:618-630`), so it
  is a setting of its own here and not the length of the list.
- `-t N` counts entries before filtering, while the help text speaks of lines (`logutil.c:408`). The
  filters can drop an entry, and one that passes prints as many lines as its message has
  (`LinesOfMessage`): several, or none if it is blank. `TailMeetsFilters` says in terms of the entries
  read when min(N, passing) passing entries are printed, `TailMeetsLines` when min(N, all) lines are,
  both exactly where entries with equal stamps count alike; `TailFilterBounds` and `TailLineBounds` say
  what holds whatever ties there are. In the runs of `TailPrintsNoPassingLine` and `TailPrintsBlank`
  the promise is not kept.
- The PROCESS format can lose its final newline to a long tag (`OutputEndsLine`,
  `LongTagLosesNewline`).
- A read interrupted by a signal can leave an entry queued while `select` blocks without a timeout
  (`InterruptedReadWithholds`); `RoundBlocksEmptyIff` and, over runs, `RunBlocksEmptyIff` say exactly
  when.
- The function pointer of the library is published before the fallback descriptors are in place
  (`PublishedBeforeFallback`); `InvalidIffBeforeFallback` says exactly when that shows.
- A rename that fails can cost a file from the middle of the rotated sequence
  (`FailedRenameLosesMiddle`), exactly under the condition of `RotationLosesOldest` and, over runs,
  `RetainedIsRestIff`.
- With a file name of 254 characters or more no file is ever rotated, since the numbers are cut off
  (`LongNamesStay`).
- `cmp` is not an order on stamps of both signs (`CmpCycles`).

## Model

| member | source | states |
|---|---|---|
| Timestamps.CmpIsLexicographicIffFits | logutil.c:61-69 | `cmp` has the sign of the (sec, nsec) order if and only if its deciding 32-bit subtraction does not wrap |
| Timestamps.CmpCycles | logutil.c:61-69 | without that condition three entries compare in a cycle |
| Timestamps.CmpIsKeyOrder | logutil.c:61-69 | on the non-negative stamps of the drivers `cmp` is a total preorder with equality of stamps |
| EntryQueues.InsertKeepsSorted | logutil.c:80-96 | insertion keeps a queue sorted |
| EntryQueues.InsertContents | logutil.c:80-96 | insertion adds the one entry and nothing else |
| EntryQueues.InsertIsStable | logutil.c:80-96 | the new entry goes behind all entries with its stamp, which keep their order |
| EntryQueues.StableSortIsStable | logutil.c:80-96 | repeated insertion is a stable sort |
| EntryQueues.StableSortIsUnique | logutil.c:80-96 | sorted order and order among equal stamps determine the result |
| MergeLoop.First | logutil.c:193-201 | the chosen device has a least head, strictly less than those of all earlier devices; none exactly when all queues are empty |
| MergeInvariants.PopKeepsInv | logutil.c:203-229 | printing or skipping one entry keeps every part of the invariant below |
| MergeInvariants.ReceiveKeepsInv | logutil.c:270-291 | so does reading and queueing one entry |
| MergeInvariants.PopConserves | logutil.c:217-229 | consuming moves one entry from the queues to the printed or the skipped ones |
| MergeInvariants.PopAnnounces | logutil.c:203-229 | consuming writes the device's banner if it is due, at most once and before the line |
| MergeInvariants.ReceiveKeepsArrivalOrder | logutil.c:80-96 | an entry no older than its device's earlier ones is queued behind them |
| MergeInvariants.RunKeepsInv | logutil.c:249-335 | in every state of every run: entries read = printed + skipped + queued, `queued_lines` is the number queued, queues are sorted, a device with nondecreasing stamps is consumed in arrival order, the lines written are the printed entries in order, banners come once, by the first consumption and before each line of the device |
| DrainOrder.FirstStartsStableSort | logutil.c:193-201 | the head chosen is the first entry of the stable sort of all queues in device order |
| DrainOrder.DrainIsStableMerge | logutil.c:295-310 | the drain ends with empty queues and consumes the stable sort of the queues in device order |
| DrainOrder.SkipKeepsTrimmed | logutil.c:319-330 | skipping the least entry while more than N are queued skips nothing that is among the N newest |
| DrainOrder.DrainTrims | logutil.c:299-310 | the drain prints exactly the newest N (or all, if fewer) of what was read, and skips only entries no newer |
| DrainOrder.TailIsExact | logutil.c:295-331 | a `-t N` run up to its drain prints min(N, read) entries, oldest first and none older than a skipped one, and exits with nothing queued, for any order of arrival |
| TailFilters.TailPrintsNewest | logutil.c:295-331 | the entries a `-t N` run prints have, one for one, the stamps of the last N of the stable sort of all that was read; if no two stamps are equal they are those entries |
| TailFilters.PassingOfTail | logutil.c:146-186 | if min(N, all) entries are printed, min(N, all that pass) passing ones are among them if and only if no hidden entry passes or every printed one does |
| TailFilters.TailMeetsFilters | logutil.c:295-331 | a `-t N` run prints min(N, passing entries read) passing entries if and only if none of the entries older than the newest N read passes or all of the newest N do, for any filter that treats entries with equal stamps alike |
| TailFilters.TailFilterBounds | logutil.c:295-331 | for any filter and any ties: it does if no entry that may be skipped passes or all that may be printed do, and only if no entry that must be skipped passes or all that must be printed do |
| TailFilters.LinesOfMessage | logutil.c:146-186 | how many lines the program prints for a message that the library sent: none if filtered, else those of the message |
| TailFilters.OutputLines | logutil.c:224-229 | the lines of the output are those of its entries and banners |
| TailFilters.TailMeetsLines | logutil.c:295-331 | the output of a `-t N` run has min(N, lines of all entries read) lines, banners apart, if and only if the newest N entries read have N lines, or fewer and the older ones none; where entries with equal stamps have equally many |
| TailFilters.TailLineBounds | logutil.c:295-331 | whatever ties there are, the lines of entries that must be printed come out and none of entries that must be skipped |
| TailFilters.TailPrintsNoPassingLine | logutil.c:295-331 | a `-t 1` run that prints no line although a line that passes was read |
| TailFilters.TailPrintsBlank | logutil.c:295-331 | a `-t 1` run over two entries that both pass prints as many lines as the newer message has: none if it is blank, although a line was there |
| MergeWorld.PopStaysInStep | logutil.c:299-330 | consuming the least head keeps consumed, queued and pending entries in time order when each empty queue had nothing pending at the select |
| MergeWorld.EagerKeepsFlow | logutil.c:316-331 | the eager policy meets that condition because it never takes the last entry of a queue |
| MergeWorld.DrainKeepsFlow | logutil.c:295-310 | the timeout policy meets it because the timeout means nothing was pending |
| MergeWorld.ReadsKeepFlow | logutil.c:259-293 | reading one entry from each ready device, up to an interruption, keeps the order and, if complete, covers every device that had something pending |
| MergeWorld.ConsumptionFollowsTime | logutil.c:249-335 | over any run, with arrivals at any moment, entries of all devices are consumed in nondecreasing stamp order and nothing queued or pending is older than anything consumed |
| MergeWorld.WorldIsRun | logutil.c:249-335 | what the reader does among its drivers is `Run` on some inputs |
| Delivery.ArrivedOrPending | logutil.c:260-293 | for each device, what arrived is what was read from it and then what is pending, in order |
| Delivery.NothingVanishes | logutil.c:249-335 | in every state of every run what arrived is what was printed, skipped, queued and is pending, as multisets |
| Delivery.TimeoutPrintsEverything | logutil.c:295-310 | without -t, after a select timeout all entries read have been printed |
| Delivery.NegativeTailPrintsNothing | logutil.c:299-330 | with a negative -t no run prints an entry |
| Delivery.TimeoutDelivers | logutil.c:295-314 | after a select that timed out nothing is queued, nothing pending is older than that select, and all else that arrived has been printed (with -t N: min(N, read) entries, the newest) |
| Blocking.RoundBlocksEmptyIff | logutil.c:256-331 | a round leaves nothing queued under a select without timeout if and only if it did not have a read interrupted after a successful one with `sleep` set |
| Blocking.RunBlocksEmptyIff | logutil.c:249-335 | while a run goes on it never blocks with entries queued if and only if none of its rounds interrupts a read after a successful one with no round having read all its devices since the last timeout |
| Blocking.RunBlocksEmpty | logutil.c:249-335 | so runs without interrupted reads never block with entries queued |
| Blocking.InterruptedReadWithholds | logutil.c:271-275 | the concrete run in which an entry is withheld |
| Rounds.EagerHoldsBack | logutil.c:316-331 | from any sorted and counted state the eager policy ends with all queues empty, or with a queue of exactly one entry that no queued entry is older than, or with -t N at most N queued; it takes entries off the front and empties no queue |
| Rounds.RunHoldsBack | logutil.c:259-331 | so does each round of any run that ends without EINTR and without exit |
| Rounds.ReadyRoundIs | logutil.c:259-293 | a round of reads takes exactly the entries before the first read that fails; the program goes on unless that is neither EINTR nor EAGAIN, and `sleep` is cleared unless it is EINTR |
| Rounds.OtherRoundsAre | logutil.c:256-315 | a timeout empties the queues, reads nothing and ends the program with -d only; an error of `select` changes nothing |
| Reader.LogDevice.Enqueue | logutil.c:80-96 | splicing in place makes the queue the sorted insertion of the entry |
| Reader.LogReader.ChooseFirst | logutil.c:193-201 | the loop finds the device `First` specifies |
| Reader.LogReader.EmitBanner | logutil.c:203-215 | the output has taken one more banner |
| Reader.LogReader.EmitLine | logutil.c:224-229 | the output has handled one more entry: parsed, filtered, formatted, written, counted, rotated |
| Reader.LogReader.MaybePrintStart | logutil.c:203-215 | sets the flag and, when several devices are counted, writes the banner to the output |
| Reader.LogReader.SkipNextEntry | logutil.c:217-222 | takes the head off with its banner, prints nothing |
| Reader.LogReader.PrintNextEntry | logutil.c:224-229 | the banner is written once although it is considered twice; then the entry goes through `processBuffer` to the output, and off its queue |
| Reader.LogReader.DrainAll | logutil.c:299-310 | the loop computes `Drain` and terminates |
| Reader.LogReader.DrainEager | logutil.c:319-330 | the loop computes `Eager`, which `EagerHoldsBack` fixes from both sides, and terminates |
| Reader.LogReader.ReadDevices | logutil.c:260-293 | the loop over the ready devices with its `break`, `goto` and exit |
| Reader.LogReader.OneRound | logutil.c:249-335 | one turn of the main loop is `Round` |
| Reader.LogReader.ReadLogLines | logutil.c:232-336 | the program run on any inputs is `Run`, and its output is what the writes of that run make of the initial one; with `WorldIsRun`, all theorems about runs, worlds and outputs are about it |
| Filters.PrioritiesInNumbers | logprint.c:64-114 | v, d, i, w, e, f, s are 2 to 8 in either case and are printed in upper case, the digits 2 to 7 themselves, 8 and 9 as v, 1 as `*` |
| Filters.PriCharRoundTrip | logprint.c:64-114 | a priority survives printing and parsing if and only if it is VERBOSE to SILENT (or UNKNOWN) |
| Filters.AcceptedPriorities | logprint.c:64-97 | exactly the characters accepted as a priority, in either case |
| Filters.BareRules | logprint.c:237-259 | `*` means `*:d`, a bare tag means `tag:v`, as the help text says, and `:*` is the same as no priority |
| Filters.RuleInNumbers | logprint.c:231-268 | `tag:c` sets the tag, `*:c` all tags without a rule, to the number of the letter c; text behind it is ignored |
| Filters.LevelOfStar | logprint.c:116-132 | after one rule `*:c` every tag has that level, before any rule 8 |
| Filters.LevelOfTag | logprint.c:116-132 | after one rule `tag:c` that tag has that level, all others 8 |
| Filters.RulesKeepWellFormed | logprint.c:224-274 | no rule sequence stores a priority UNKNOWN or DEFAULT, an empty tag, `*`, or a tag with a colon |
| Filters.FiltersComeFromRules | logprint.c:261-268 | a tag has a filter exactly when an accepted rule named it |
| Filters.LookupIsLastRule | logprint.c:116-132 | after any rules the lookup gives the last rule for the tag, else the last `*` rule, else SILENT |
| Filters.SplitConcat | logprint.c:298-307 | tokens of two strings joined by a space, a tab or a comma are the tokens of both |
| Filters.AddStringConcat | logprint.c:288-314 | adding a joined string adds the first part and, if that succeeds, the second; after a bad token the earlier rules stay |
| Filters.AddStringOfWord | logprint.c:298-307 | a word without space, tab and comma is one rule, the empty word none |
| Filters.LeadingSeparator | logprint.c:298-301 | a leading separator changes nothing |
| Filters.TrailingSeparator | logprint.c:298-301 | nor does a trailing one |
| Filters.DoubledSeparator | logprint.c:298-301 | nor a doubled one |
| Filters.DumpLineParses | logprint.c:139-147 | a printed filter line is the tag, a colon, the letter of its priority and a newline, and parses to the filter it shows |
| Filters.DumpRoundTrip | logprint.c:135-149 | the dump fed back as rules, last line first, rebuilds any state that rules can reach |
| Filters.LogFormat.FilterPriForTag | logprint.c:116-132 | the list walk computes the lookup |
| Filters.LogFormat.ShouldPrintLine | logprint.c:155-158 | a line is printed when its priority reaches the tag's |
| Filters.LogFormat.AddFilterRule | logprint.c:224-274 | one rule; -1 and nothing changed if it is rejected |
| Filters.LogFormat.AddFilterString | logprint.c:288-314 | the `strsep` loop computes `AddString` |
| Filters.LogFormat.DumpFilters | logprint.c:135-149 | the lines printed are the dump |
| Formatter.PassesAgree | logprint.c:479-489 | the counting pass counts exactly the lines the writing pass makes, which keep every character but the newlines |
| Formatter.FormattedLength | logprint.c:491-493 | non-LONG output has numLines * (prefixLen + suffixLen) + messageLen - newlines characters |
| Formatter.CountedSizeSuffices | logprint.c:491-493 | in every format the counted buffer size holds the output and its NUL |
| Formatter.RawRendering | logprint.c:419-424 | lines rendered without decoration give the message back, closed with a newline if it is open |
| Formatter.LinesHaveNoNewline | logprint.c:520-541 | no line contains a newline |
| Formatter.SuffixEndsLine | logprint.c:407-412 | every suffix ends in a newline if and only if the PROCESS suffix is not clamped before it |
| Formatter.OutputEndsLine | logprint.c:407-412 | output that is not empty ends in a newline under that condition, in any format and for any message |
| Formatter.LongTagLosesNewline | logprint.c:407-412 | a tag of 123 characters whose output does not end in a newline |
| Formatter.FormattedLines | logprint.c:495-542 | the output of a message has as many lines as the message, where header and tag add none; LONG sets it between header and an empty line |
| Formatter.FormattedLine | logprint.c:398-455 | a message of one line is printed as up to 127 characters of the header (RAW: none), the line, and a newline, or in PROCESS up to 127 characters of `  (tag)` and a newline |
| Formatter.FormattedNext | logprint.c:520-541 | and so is each line of a message of several, empty ones included |
| Formatter.FormattedLong | logprint.c:441-447 | LONG prints up to 127 characters of the header, the message as it is and two newlines; the others print nothing for an empty message |
| Formatter.Strncat | logprint.c:514-515 | text is appended at the cursor, which then sits on the new terminating NUL |
| Formatter.CountLines | logprint.c:479-489 | the loop computes the number of lines |
| Formatter.WriteNextLine | logprint.c:520-541 | one iteration appends one decorated line and leaves the rest to do |
| Formatter.WriteLines | logprint.c:507-542 | the writing loop produces the rendering in one iteration per line |
| Formatter.FormatLogLine | logprint.c:359-549 | the output is prefix + line + suffix for each line (LONG: around the message; in characters: the three rows above), inside the buffer, the same for every default buffer; both passes have the same number of lines |
| Wire.WriteToLogKernel | log.c:53-81 | which descriptor gets which payload, and when nothing is sent, priority and debug level compared as unsigned |
| Wire.PayloadBytes | log.c:71-78 | the payload byte by byte: low byte of the priority, tag, NUL, message, NUL |
| Wire.ProcessLogBuffer | logprint.c:333-348 | the fields taken from the payload |
| Wire.ParsedFields | logprint.c:339-345 | priority, tag, message and length of any payload; without its two NULs the length wraps to almost 2^64 |
| Wire.WriteParseRoundTrip | log.c:71-78 | the parser recovers tag, message and length from every payload the writer builds, and the priority if and only if it is a signed char converted to unsigned |
| Wire.RawEndToEnd | logprint.c:419-424 | a message sent and printed raw is the message plus a newline exactly when it is not empty and does not end in one |
| FileNames.NamesAreDistinct | logutil.c:119-125 | names that fit the buffer are whole and pairwise different |
| FileNames.DecimalIsDecimal | logutil.c:119-125 | the number in a name is in decimal digits, read from left to right, without a leading zero |
| FileNames.LongNamesAreCut | logutil.c:119-125 | longer names are cut to 254 characters, and all the same if that leaves no room for a number |
| Rotation.LongNamesStay | logutil.c:117-132 | then no file is moved |
| Rotation.CascadeEffect | logutil.c:117-132 | what the downward renames leave under each number, with gaps in the numbering and any set of failing renames |
| Rotation.RotationLosesOldest | logutil.c:117-134 | with any failing renames, a rotation loses the oldest file where one is moved onto it and nothing else, if and only if there is no file below the oldest, not empty, whose rename fails while the one onto it succeeds; otherwise it loses more |
| Rotation.FailedRenameLosesMiddle | logutil.c:127-131 | an input on which a failed rename loses a file from the middle |
| Rotation.RetainedIsRestIff | logutil.c:103-186 | over any run of lines and banners, partial writes and failed renames included, the retained files, oldest first, are what was there plus what was written without the oldest files overwritten, if and only if no rotation of the run meets the condition above |
| Rotation.AccountedAfterRotation | logutil.c:141-143 | for any failing renames, after a rotation the count matches the file if and only if rotated files are kept and the rename of the open file did not fail |
| Rotation.CountIsFileSizeIff | logutil.c:356-376 | after any run the count is the size of the open file without its banners if and only if the last rotation moved that file away; it never exceeds it |
| Rotation.CountStaysBelowLimit | logutil.c:181-186 | after each `processBuffer` the count is below the limit |
| Rotation.CountBelowLimitAfterLine | logutil.c:181-186 | from the first line of a run on it stays below the limit |
| Rotation.RotatedFileSize | logutil.c:181-186 | in any run, a file put aside as number 1 is the old text and the line; without banners it has at least the limit and, after an earlier line and if the last rotation moved its file too, less than the limit plus that line |
| LogOutput.LogOutput.constructor | logutil.c:356-376 | the file is opened or created and the count starts at its size |
| LogOutput.LogOutput.WriteBanner | logutil.c:203-215 | a banner is written without being counted |
| LogOutput.LogOutput.RotateLogs | logutil.c:103-143 | the loop performs the cascade and resets the count; nothing without a file |
| LogOutput.LogOutput.PrintLogLine | logprint.c:557-594 | the formatted line is written as far as the system takes it; an error counts as 0 |
| LogOutput.LogOutput.ProcessBuffer | logutil.c:146-191 | parse, filter, format, write, count and rotate together are one `Handle` step |
| Emission.SentLine | logutil.c:146-186 | an entry that the library sent is printed as its message in the chosen format if and only if its priority reaches its tag's level |
| Emission.StarLevel | logprint.c:155-158 | with the one rule `*:c` exactly the messages sent at the priority of c or above are printed, without rules those at 8 or above |
| Emission.EventTakes | logutil.c:146-186 | the output receives as much of each text as the system takes, nothing after an error |
| Emission.BannerHolds | logutil.c:203-215 | a banner that fits holds the device name between the announcement and its only newline; a longer one is cut and has none |
| Emission.BannersDiffer | logutil.c:203-215 | different names that fit give different banners |
| Emission.WrittenIsRendered | logutil.c:224-229 | the file receives what the system takes of the reader's writes, in order |
| Emission.AgreesNext | logutil.c:203-229 | one more write keeps the output in step with the list of writes |
| Pipeline.EndToEnd | logutil.c:232-336 | from arrivals to files, for any -t, partial or failed writes and failed renames: the files hold what was there and was taken, without the oldest files overwritten, if and only if no rotation lost another; the lines written are the printed entries in stamp order; and what arrived is what was printed, skipped (nothing without -t), queued and is pending |
| Pipeline.ProgramEndToEnd | logutil.c:146-336 | with the program's own filter and formatter and nothing failing: the files hold what was there and the printed messages that pass the filters, formatted, in stamp order, each device announced once before its first line, without the oldest files overwritten; after a select that timed out the printed messages are, without -t, all that were sent but for some no older than that select, with -t N the newest N of them |
| DlogInit.StepKeepsInv | log.c:97-136 | every step of any thread keeps the invariant |
| DlogInit.OpenedAtMostOnce | log.c:105-110 | each device is opened at most once, and exactly once when the pointer has changed |
| DlogInit.KernelMeansOpen | log.c:114-130 | kernel mode means MAIN and RADIO are open, and all four when the lock is free |
| DlogInit.SettledDescriptors | log.c:114-130 | after initialisation the mode depends on MAIN and RADIO, and a device that did not open is served by MAIN |
| DlogInit.GotIsReturned | log.c:105-110 | once the pointer has changed each device was opened in exactly one step, and what is recorded is what that open returned, -1 for any failure |
| DlogInit.LevelInOneStep | log.c:83-112 | the debug level is 8 until exactly one step sets it to what the environment gives then |
| DlogInit.SettledByReturns | log.c:105-130 | mode and descriptors after initialisation in terms of what the opens returned in those steps |
| DlogInit.EveryCallWrites | log.c:97-136 | a call comes back only from one of the two writers, and every step of its thread, waiting for another thread's lock aside, brings it closer |
| DlogInit.TailCallIsSafe | log.c:135 | the tail call never enters initialisation again and writes to valid descriptors |
| DlogInit.SettlesOnce | log.c:83-130 | the pointer changes once, and the debug level not at all after it; once settled, pointer and descriptors stay |
| DlogInit.PublishedBeforeFallback | log.c:119-125 | a reachable state in which a direct caller meets an invalid descriptor |
| DlogInit.InvalidIffBeforeFallback | log.c:119-130 | in kernel mode a descriptor is invalid if and only if its device did not open and the lock holder is still ahead of its fallback |

## Left out

- Option parsing, help text, the device list set-up and the ioctl calls of `main`.
- Negative stamps: queues hold entries with non-negative seconds and nanoseconds; only the comparison is modelled on all of them.
- Payloads that the writer does not build: `ProcessBuffer` asks for a message that lies inside the entry and has no NUL.
- The header text that `snprintf`, `strftime` and `localtime` produce: an arbitrary text without NUL, clamped as in the code.
- `vsnprintf` in the print functions of the library, and reading the debug level from the environment: the message and the level are arbitrary.
- MergeWorld: no EAGAIN, since the devices are opened blocking; EAGAIN is covered by the theorems about runs with arbitrary inputs.
- MergeWorld: a select, the arrivals up to the round's end and the round are separate steps, but the reads and prints of one round are one step; entries that arrive during them join the same FIFOs behind the ones read.
- Reader: `while (1)` is a loop over a list of inputs of any length, and the entries it reads are well-formed payloads.
- Reader: the device list is not changed by the code modelled, so it is a sequence and not a linked list.
- `log_format_free`, `free`, failing `malloc`, and `g_output_filename` changing under the program.
- Signed overflow in `cmp` is undefined in C; it wraps here, as on common machines (`CmpCycles` rests on that). Enums without negative members are unsigned 32-bit integers, as common compilers make them.
- LogOutput: a failed write of a banner, a failed `open` of the output file and a failed allocation end the program and have no state after them.
- DlogInit: builds without HAVE_PTHREADS.
- Text is a sequence of characters without encoding; sizes are unbounded integers except for `messageLen` and the stamps.
