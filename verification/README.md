# Verified model of frappe-monitor

frappe-monitor watches Frappe servers over SSH. It pulls collector reports and
turns them into metrics, tails and streams log files into Loki, and evaluates
alert rules. This project models the parts of it whose promises hold over whole
runs or tie a printer to a parser, and proves those promises in Dafny.

`dafny verify dfyconfig.toml` checks everything.

## How the model is built

Code that changes state step by step is a `class` (or a method with a loop) whose
methods are proved against specification functions on values. Code that runs
concurrently is in addition a transition system, built from the same specification
functions, so a theorem about every interleaving is about the same code. Its steps are
the critical sections and, between them, each single call that leaves the process: a
push, a dial, the read of a cursor, its write. Everything outside the modelled code (a push,
a query, a cursor write, a dial, a map's iteration order, the remote file, the
clock) is a parameter or a free choice of the step, so the theorems hold for every
outcome of it. A string is a sequence of bytes, one `char` for each.

| file | about |
|---|---|
| `StreamBuffer`, `SinkSpec`, `LokiSink`, `SinkProtocol`, `SinkOverlap`, `SinkCursors` | the streaming sink: buffers, flush, cursors, all interleavings, one flush at a time and overlapping ones |
| `StreamProtocol`, `Session`, `StreamEndToEnd` | the stream's line protocol, the scan loop, the remote command, and the whole path from bench to cursor |
| `Shell` | a lexer for sections 2.2.1 and 2.2.2 of the POSIX.1-2017 Shell Command Language, and the commands the monitor builds |
| `LogTail`, `PullLogs`, `PullLogsRuns`, `PullLogsCatchUp` | the log tailer: its entries, its cursor protocol, what a cycle pushes |
| `Alerts`, `AlertPages`, `AlertTraces`, `Fingerprint` | the alert evaluator, what its pages say, its notification traces, and the series fingerprint |
| `Tokenizer`, `ServerSections`, `ServerRoundTrip`, `Benches` | the collector report, from text to disks, interfaces, benches and sites |
| `LineProtocol`, `Metrics`, `MetricsByName` | metrics as influx line protocol, the reader that undoes it, and which value each name carries |
| `SshPool`, `Scheduler` | the two shared-resource protocols |
| `Text` | the routines of Go's `strings` and `strconv` that these use |

## What was found on the way

Some promises hold only on a condition. Each is proved as an "if and only if", many
with a failing run or input beside it.

* Two overlapping calls of `Flush` lose a line if and only if one arrives between the
  second snapshot and the second drain (`OverlapLosesIffLineArrived`,
  `OverlappingFlushesLoseALine`). Their cursor writes also race, since each is an unlocked
  read and an unlocked write of an absolute offset. No write stores over another flush's
  advance if and only if none falls between another flush's read and write of the cursor
  (`OverwritesIffCrossed`). Without such a crossing the cursor ends past the acknowledged
  lines, by the bytes of the lines both held. With one it ends at the acknowledged lines,
  or behind them, depending on who writes last (`OverlapLeavesCursor`, `LostUpdate`). The
  other results about the sink assume one flush at a time; the code calls `Flush` from
  session goroutines and from a ticker and serialises neither.
* The cursor of a streamed file falls one byte behind for every line that ends in CR LF,
  because the scanner drops the CR before the bytes are counted
  (`CursorReachesEndIffNoCRLF`).
* A file with no stored cursor is followed from its end, but its first cursor counts from
  0: it reaches the file's size only if the file was empty
  (`FirstCursorReachesEndIffFileWasEmpty`).
* `internal/streamer/manager.go:247-250` says that the resume offsets are read again on
  reconnect; line 259 builds the remote command once. A second connection therefore moves
  the cursor over the first one's bytes again (`SecondConnectionAdvancesAgain`), and the
  other cursor results are about one connection.
* A log file that was replaced and shows at least the old cursor's size is read from the
  middle (`RotationCoveredIffSeen`).
* The comment on `PullLogsOnce` counts the files whose cursor advanced
  (`internal/collector/pipeline.go:220-223`). The code counts the files that were tailed,
  also when the push or the cursor write then fails (`OkCountsWritesIff`).
* `internal/alerts/service.go:27-31` says that a repeat time of 0 suppresses repeats.
  `internal/alerts/evaluator.go:71` pages on every tick (`ZeroRepeatPagesEveryTick`).
  The model follows the code.
* A resolved alert whose row cannot be deleted is announced as resolved again whenever it
  is next seen absent, unless a Fire comes first (`RunShapeIffRefired`,
  `ResolvesAgainEachTime`).
* With two or more listed labels, values with a NUL byte can share a fingerprint
  (`ListedTellsApartIffOne`); with none listed, so can every set of two or more labels
  (`WholeTextSharedIff`), and names that continue one another with an '='
  (`NamesShareTextIffOneContinuesTheOther`).
* A mount or interface name with a comma is not read back: its key is skipped, or, as
  with `a",x="b`, read as another name (`OneLabelKeyReadsBack`). A site whose bench name
  has a ':' is attributed to another bench (`SiteOfSection`).
* Two keys that give one mount two values make the result depend on the map order
  (`OrderIsIrrelevantIffOneValued`, `TwoKeysOneMount`).
* A newline in a label breaks the metrics text (`ServerTextDecodes`).
* `dropClient` closes whatever is stored under the key, also a fresh connection of another
  caller (`LateDropClosesAnothersClient`). A dial under way during `Close` is stored after
  it (`DialDuringCloseIsStored`, `CloseIsFinalIffNobodyCanStore`).
* User names and key paths with '|' can share a pool key (`KeyIsItsOwnIffNoBar`).
* `AddKeyed` with a bad spec removes the job it was to replace
  (`BadSpecKeepsIffKeyIsNew`).

## Model

| member | source | states |
|---|---|---|
| StreamBuffer.StreamBuf.Append | internal/streamer/sink.go:156 | appending adds one entry at the end, in place while the backing array has room and into a larger one otherwise |
| StreamBuffer.StreamBuf.Snapshot | internal/streamer/sink.go:228-232 | the copy given to the pusher is the contents, and it changes nothing |
| StreamBuffer.StreamBuf.DropPrefix | internal/streamer/sink.go:272-279 | the in-place slide leaves exactly the entries after the first n, in the same backing array, and nothing when n reaches the length |
| LokiSinks.LokiSink.constructor | internal/streamer/sink.go:65-93 | a new sink buffers nothing; a batch size that is not positive becomes 500 |
| LokiSinks.LokiSink.Buffer | internal/streamer/sink.go:145-160 | one stream's buffer and byte counter grow by the line, others stay; overflow is asked for exactly at the batch size |
| LokiSinks.LokiSink.OnLine | internal/streamer/sink.go:145-168 | a line is buffered, and a whole flush follows exactly on overflow |
| LokiSinks.LokiSink.Snapshot | internal/streamer/sink.go:216-250 | the attempts are exactly the non-empty streams, each with all its entries and bytes |
| LokiSinks.LokiSink.DrainAttempts | internal/streamer/sink.go:262-287 | every attempted stream loses exactly its snapshotted prefix and bytes, in whatever order they are visited, and the bumps are the positive byte counts |
| LokiSinks.LokiSink.AdvanceCursors | internal/streamer/sink.go:294-323 | every bump is one read-add-write of its own cursor, skipped when the path is unknown or the read fails and lost when the write fails, in any map order |
| LokiSinks.LokiSink.Flush | internal/streamer/sink.go:209-331 | the three phases in sequence; a failed push leaves buffers, counters and cursors as they were |
| LokiSinks.FlushReportsRefusal | internal/streamer/sink.go:245-260 | a flush fails if and only if something was buffered and the push was refused, and has then changed nothing |
| SinkProtocol.SerialRunInv | internal/streamer/sink.go:145-323 | the invariant of every interleaving of OnLine with the phases of one flush at a time, pushes and cursor accesses failing freely |
| SinkProtocol.LinesConserved | internal/streamer/sink.go:145-287 | per stream, acknowledged lines followed by buffered ones are all observed lines in arrival order, and the byte counter is the sum over the buffered lines |
| SinkProtocol.CursorNeverAhead | internal/streamer/sink.go:281-323 | whichever lookups, reads and writes fail, a stored cursor never exceeds its start plus the bytes of the acknowledged lines |
| SinkProtocol.CursorExact | internal/streamer/sink.go:281-323 | with no cursor fault on the stream it equals that sum |
| SinkProtocol.QuiescentStream | internal/streamer/sink.go:209-331 | with nothing in flight or buffered, every observed line is acknowledged and the cursor covers all their bytes |
| SinkProtocol.SerialRunIsWellCounted | internal/streamer/sink.go:145-287 | between the flushes of a serial run no byte counter is negative, and an empty buffer counts no bytes |
| SinkProtocol.FlushIsSerialRun | internal/streamer/sink.go:209-331 | the sequential Flush of the class is a run of the transition system, so its results hold of the class |
| SinkProtocol.FinalFlushEmpties | internal/streamer/sink.go:262-287 | an accepted flush with nothing arriving meanwhile leaves every buffer empty and, from counters as serial runs leave them, every byte counter at zero |
| SinkProtocol.OverlappingFlushesLoseALine | internal/streamer/sink.go:162-166 | two flushes in flight: a run in which a line is dropped that no push carried, so one flush at a time is a needed hypothesis |
| SinkProtocol.OverlapIsSafeIffNothingArrived | internal/streamer/sink.go:270-287 | on one buffer: two drains of overlapping snapshots, with arrivals before and between them, leave exactly what neither pushed if and only if nothing arrived after the later snapshot |
| SinkOverlaps.RunTracks | internal/streamer/sink.go:209-287 | in every run, with any number of flushes in flight, a buffer is what was observed after the lines dropped, and every attempt is a span of observed lines that begins no later than that |
| SinkOverlaps.DrainLosesIffBeyondReach | internal/streamer/sink.go:270-287 | in any run that has lost nothing, the next drain loses a line if and only if it drops beyond the last line any accepted push has carried |
| SinkOverlaps.OverlapLosesIffLineArrived | internal/streamer/sink.go:209-287 | a second flush begins while one holds the stream and both drain, in either order, lines arriving anywhere: lines are lost if and only if one arrived between the second snapshot and the second drain, and which ones |
| SinkOverlaps.WitnessIsASchedule | internal/streamer/sink.go:162-166 | the losing run shown above is one of these schedules, and loses its line by that condition |
| SinkCursors.BytesBalance | internal/streamer/sink.go:145-323 | in every run, serial or not, whatever fails: byte counter, bumps not yet written, cursor advance, bytes given up and advances stored over by later writes sum to the bytes observed |
| SinkCursors.OpenRead | internal/streamer/sink.go:304-319 | in a run that has stored over nothing, the cursor is past the offset a flush has read if and only if another has written it since |
| SinkCursors.OverwritesIffCrossed | internal/streamer/sink.go:304-319 | in every run, with any number of flushes and faults: no write of a stream's cursor stores over an advance if and only if none falls between another flush's read and write of it |
| SinkCursors.CursorAheadIffCountersFallShort | internal/streamer/sink.go:281-323 | in every run the cursor is ahead of the acknowledged lines if and only if byte counter, unwritten bumps, given-up bytes and advances stored over are less than the bytes of the lines not acknowledged |
| SinkCursors.OverlapLeavesCursor | internal/streamer/sink.go:209-323 | after two overlapping flushes with no cursor fault: the cursor is past the acknowledged lines by the bytes both held when no write crossed, at them when the second flush wrote last over the first, and at the end of the first flush's lines otherwise; so ahead if and only if nothing crossed and both held bytes |
| SinkCursors.LostUpdate | internal/streamer/sink.go:304-319 | runs in which both flushes read the cursor before either writes it, in both orders of the writes, and the cursor each leaves |
| StreamProtocol.ContentRoundTrip | internal/streamer/protocol.go:72-130 | a content line parses back to its id and content, pipes included, if and only if the content has no error infix; otherwise it is read as a file error |
| StreamProtocol.ErrorRoundTrip | internal/streamer/protocol.go:91-130 | an error line parses back to its id and its token trimmed |
| StreamProtocol.VersionRoundTrip | internal/streamer/protocol.go:91-105 | a version line parses back to its version |
| Sessions.NextLine | internal/streamer/session.go:194-200 | one scan step yields the next line and the rest, and fails exactly on a line beyond the cap |
| Sessions.RunOnce | internal/streamer/session.go:194-220 | the loop's calls and its failure are those of the whole stream |
| Sessions.StreamDelivers | internal/streamer/session.go:194-220 | scanning what the bench renders delivers exactly the lines, in order over all files, each with its byte length and without one final CR |
| Sessions.StreamWithHeaderDelivers | internal/streamer/session.go:194-220 | the same behind the version header, which is delivered first and once |
| Sessions.StreamCallsEach | internal/streamer/session.go:194-220 | version, content, error and unrecognised lines in any mixture: each has its own call, in its place, an error line `OnFileError(id, token)` with the token trimmed, an unrecognised one none; then the rest of the stream has its calls |
| Sessions.WholeLinesCallEach | internal/streamer/session.go:194-220 | a stream of such whole lines calls for just these and ends cleanly |
| Sessions.LastLineWithoutLF | internal/streamer/session.go:194-226 | a last line without its LF is delivered too if it is shorter than the buffer; otherwise the scan fails after the calls before it |
| Sessions.LongLineStopsTheScan | internal/streamer/session.go:194-226 | a line that does not fit the buffer ends the scan with an error, after the calls of the lines before and without any of those after |
| Sessions.OneCRDropped | internal/streamer/session.go:194-200 | a line loses one final CR and nothing else |
| Sessions.UnrecognisedIsUnknown | internal/streamer/protocol.go:91-130 | a line with neither prefix, or with the file prefix and neither pipe nor error infix, is of no known kind |
| Sessions.BuildRemoteCommand | internal/streamer/session.go:259-301 | a command is built exactly when script, ids and paths hold no forbidden byte and there are files; which refusal any other input gets: empty script, no files, the first offending file by its id or else its path, the script path |
| Sessions.FirstForbidden | internal/streamer/session.go:266-273 | none is reported exactly when all ids and paths are acceptable, and the one reported is the first in the list, by its id if that is at fault |
| Sessions.Arguments | internal/streamer/session.go:278-294 | the two flags are those that the round trips below read back, --resume left out when no offset is positive |
| Sessions.FilesArgRoundTrip | internal/streamer/session.go:278-284 | the accepted --files value splits back to exactly the (id, path) pairs, colons in paths included |
| Sessions.ResumeArgRoundTrip | internal/streamer/session.go:285-294 | the --resume value splits back to exactly the positive offsets in file order, and is absent when there are none |
| Sessions.RemoteCommandIsThreeWords | internal/streamer/session.go:296-300 | the outer shell sees three words, the third being the inner command with every byte protected |
| Sessions.InnerShellRunsTheScript | internal/streamer/session.go:278-300 | where no byte is special to it, the inner shell sees the script, the --files word and, exactly when some offset is positive, the --resume word |
| StreamEndToEnd.HistoryOfSession | internal/streamer/session.go:194-220 | what a sink observes of a file in a session is that file's lines, in order, whatever other files are interleaved |
| StreamEndToEnd.RunThenFlush | internal/streamer/sink.go:209-331 | any serial run followed by an accepted flush is a serial run that ends with nothing buffered |
| StreamEndToEnd.StreamEndToEnd | internal/streamer/session.go:194-220 | from rendered lines to Loki: after a final accepted flush the file's lines are acknowledged exactly, in order, and its cursor has moved by the segment's bytes less one per CR LF line |
| StreamEndToEnd.CursorReachesEndIffNoCRLF | internal/streamer/protocol.go:72-78 | a run of a connection resumed at a positive stored cursor and streaming the file to its end leaves the cursor at the file's size if and only if no streamed line ended in CR LF |
| StreamEndToEnd.FirstCursorReachesEndIffFileWasEmpty | internal/streamer/session.go:285-293 | a connection without a positive cursor, which follows the file from its end, leaves the cursor at the file's size if and only if the file was empty when it began and no streamed line ended in CR LF |
| StreamEndToEnd.SecondConnectionAdvancesAgain | internal/streamer/manager.go:247-259 | a second connection sent the positive offset of the first leaves the cursor past the end of the file by all that the first had delivered, so at its size if and only if that was nothing |
| Shell.ShellQuoteIsOneWord | internal/collector/logtail.go:170-175 | shellQuote(s) lexes to the one word s, for every s |
| Shell.QuotedInContext | internal/collector/logtail.go:170-175 | in any place outside quotes a quoted string adds exactly its bytes to the current word, all protected from expansion |
| Shell.CollectCmdCarriesPaths | internal/collector/pipeline.go:59-67 | the BENCH_PATHS value, lexed and split on ':', is the configured list if and only if no path has a ':' |
| Shell.CollectCmdWithoutPaths | internal/collector/pipeline.go:59-67 | with no path configured the command is the collector alone |
| Shell.TailCommandBindsPath | internal/collector/logtail.go:83-92 | the tail command binds f to the path byte for byte, whatever the path holds |
| LogTail.TailFile | internal/collector/logtail.go:56-139 | offset, entries and failures follow the specification that the lemmas below are about, the loop over the lines included |
| LogTail.HeaderRoundTrip | internal/collector/logtail.go:141-155 | the size header and the body are recovered as sent; a size beyond int64 is an error |
| LogTail.TailAgainstFile | internal/collector/logtail.go:63-139 | against a remote file seen once by stat and once by tail, the result in terms of the two sights, rotation and unreadable files included |
| LogTail.ReadsIffHeader | internal/collector/logtail.go:141-155 | an output is read, as a size and a body, if and only if it begins with `SIZE:`, a number between white space, and an LF |
| LogTail.TailFailsIff | internal/collector/logtail.go:63-103 | a tail fails if and only if the cursor cannot be read, the command fails or its output has no such header; a missing cursor is one at 0 |
| LogTail.TailOffset | internal/collector/logtail.go:104-117 | after a rotation the cursor is the bytes read; otherwise it goes on by these, stopping at the size reported |
| LogTail.EntriesAreTheLines | internal/collector/logtail.go:119-126 | a body that prints LF-free lines, with or without an LF after the last, gives back exactly the non-empty ones, in order |
| LogTail.EntriesAreLines | internal/collector/logtail.go:119-126 | whatever the body, no entry is empty and none holds an LF |
| LogTail.WholeFileInOneCycle | internal/collector/logtail.go:63-139 | a file read whole in one cycle is delivered as its non-empty lines, in order |
| LogTail.EntriesCarryBody | internal/collector/logtail.go:119-126 | the entries of a body hold its bytes without newlines, each once and in order |
| LogTail.NoEntriesNoBytes | internal/collector/logtail.go:119-126 | a body that gives no entry is all newlines |
| LogTail.CatchUpAfter | internal/collector/logtail.go:63-126 | after k fault-free cycles on a quiescent file, what was pushed is exactly the bytes the cursor passed, newlines removed, also where a cycle cut a line |
| LogTail.CatchUpTakesCeil | internal/collector/logtail.go:63-126 | exactly ceil((S-c)/max) cycles reach the end; fewer do not, and later ones push nothing |
| PullLogs.Pipeline.PullLogsOnce | internal/collector/pipeline.go:229-309 | one push carries the streams of all tailed files; cursors move only if it succeeds, each to its own file's offset; the counts are of the files tailed and not tailed |
| PullLogs.StreamsAreOnePerTail | internal/collector/pipeline.go:253-275 | what is pushed: one stream for each tail that yields entries, with those entries, in file order, and nothing else |
| PullLogs.OneStreamPerPath | internal/collector/pipeline.go:253-275 | for distinct files a path has exactly one stream if its tail succeeds with entries, holding these, and none otherwise |
| PullLogs.OkCountsWritesIff | internal/collector/pipeline.go:220-223 | the count `ok` is the documented number of files whose cursor was written if and only if it is 0, or the push was accepted and no tailed file's write failed |
| PullLogs.OkCountsAFileOfARefusedPush | internal/collector/pipeline.go:276-287 | a failing input: one readable file and a refused push give 1 for 0 cursors written |
| PullLogsCatchUp.CyclesCatchUp | internal/collector/pipeline.go:229-309 | over any number of fault-free cycles on files that do not change, each file's cursor and pushed text are those of the file tailed alone |
| PullLogsCatchUp.AllFilesCatchUp | internal/collector/pipeline.go:229-309 | after k such cycles the pushes carry of each file exactly the bytes its cursor passed, newlines removed, each once and in order; it is at the end once k is at least ceil of its rest over the limit |
| PullLogsRuns.CycleKeepsFile | internal/collector/pipeline.go:253-300 | one cycle over one file, any step failing, keeps: every non-newline byte below the cursor was in an accepted push, or below the cursor before the run |
| PullLogsRuns.NoByteSkipped | internal/collector/pipeline.go:253-300 | from whatever cursors are stored, the same over every run of cycles, growth (also between stat and tail), replacement and failures, for all files at once, for the bytes from the stored cursor on |
| PullLogsRuns.BaseIsFirstCursor | internal/collector/pipeline.go:253-300 | those are the bytes from the cursor stored before the run, and all bytes once the file has been replaced |
| PullLogsRuns.RecordedIsPushed | internal/collector/pipeline.go:253-280 | what the runs count as pushed is in the streams a cycle hands to the pusher |
| PullLogsRuns.RotationCoveredIffSeen | internal/collector/logtail.go:104-117 | after a replacement, for any cycle whose cursor write takes effect, growth and failing commands included, nothing is skipped if and only if the size seen is below the cursor, or only newlines lie before it |
| Alerts.Evaluator.constructor | internal/alerts/evaluator.go:18-27 | an evaluator starts on the stored rows with no notification sent |
| Alerts.Evaluator.Upsert | internal/storage/ent_store.go:318-360 | the row under the unique (rule, fingerprint) is created or updated and no other row changes |
| Alerts.Evaluator.CollectFiring | internal/alerts/evaluator.go:48-54 | of the samples with one fingerprint the last stays |
| Alerts.Evaluator.FireOne | internal/alerts/evaluator.go:66-109 | a firing series' row and Fire attempt, a failed upsert having no effect |
| Alerts.Evaluator.ResolveOne | internal/alerts/evaluator.go:111-138 | a vanished series is announced once if it was firing, and its row goes unless the delete fails |
| Alerts.Evaluator.EvaluateRule | internal/alerts/evaluator.go:42-140 | every series of the rule makes exactly one step of its own, in whatever order the two maps are walked; other rules' rows stay |
| Alerts.Evaluator.EvaluateOnce | internal/alerts/evaluator.go:32-40 | with distinct rule names a tick is one step of every series, all at one reading of the clock, a failing rule being skipped |
| AlertPages.RulePages | internal/alerts/evaluator.go:42-138 | evaluating a rule pages just the series that are due, each once, with the rule's severity and the tick's time; a Fire has the labels and value of the last sample of its fingerprint, a Resolve those of the row stored before; and what becomes of every row, each store call free to fail |
| AlertPages.TickPages | internal/alerts/evaluator.go:32-138 | the same for a tick over rules of distinct names, every page being true of its own rule |
| AlertPages.RunPages | internal/alerts/evaluator.go:32-138 | every page ever sent in a run was true of the rows and samples of its tick |
| AlertTraces.RunFollowsEachSeries | internal/alerts/evaluator.go:32-140 | over any run of ticks the rows and notifications of a series are those of that series alone |
| AlertTraces.RunShape | internal/alerts/evaluator.go:42-138 | with row deletes succeeding and all else free to fail: attempts are (Fire+ Resolve)* Fire*, consecutive Fires are a repeat time apart, and a row exists exactly after a last Fire, stamped with its time |
| AlertTraces.ResolveInStepIffDeleted | internal/alerts/evaluator.go:116-137 | a resolution keeps row and trace in step if and only if the delete succeeds |
| AlertTraces.FailedDeleteResolvesTwice | internal/alerts/evaluator.go:134-137 | with a failing delete the resolution is announced twice |
| AlertTraces.StoryShapeIffRefired | internal/alerts/evaluator.go:66-138 | for any looks at a series with any row deletes failing: the attempts keep the shape and the spacing if and only if after every failed delete a Fire comes before the series is absent again, and what row and trace are then |
| AlertTraces.RunShapeIffRefired | internal/alerts/evaluator.go:42-138 | the same over every run, whatever fails: (Fire+ Resolve)* Fire*, well spaced, if and only if after every tick at which a delete of the row failed a stored sample, at least the repeat time after the last Fire, comes before the series is absent again |
| AlertTraces.ShapeAfterFailedDelete | internal/alerts/evaluator.go:66-138 | in particular, over a run in which one delete of a firing row fails and the others succeed, the attempts stay (Fire+ Resolve)* Fire*, well spaced, if and only if the series is not seen absent again before a stored sample at least the repeat time after its last Fire |
| AlertTraces.ResolvesAgainEachTime | internal/alerts/evaluator.go:111-138 | while deletes go on failing and no such Fire comes, there is exactly one more Resolve for every tick that sees the series absent, and nothing else |
| AlertTraces.FiresAtMost | internal/alerts/evaluator.go:66-90 | an episode from t0 to t1 has at most 1 + floor((t1-t0)/R) Fires, whatever fails |
| AlertTraces.FiresAtLeast | internal/alerts/evaluator.go:66-90 | without faults and with ticks at most I apart it has at least 1 + floor((t1-t0)/(R+I)) |
| AlertTraces.EpisodeCountsInRun | internal/alerts/evaluator.go:66-90 | both counts hold of every episode inside every run |
| AlertTraces.ZeroRepeatPagesEveryTick | internal/alerts/evaluator.go:71 | with a repeat time of 0 every tick of a firing series pages |
| AlertTraces.OrderIsIrrelevant | internal/alerts/evaluator.go:66-138 | two evaluations from the same rows end in the same rows and the same multiset of notifications, whatever the map orders |
| AlertTraces.FaultFreeReconciles | internal/alerts/evaluator.go:48-138 | fault-free, the rule's rows become exactly the current samples' fingerprints, all firing, with the last sample's labels and value |
| Fingerprints.SortedNames | internal/alerts/rule.go:72-79 | the names gathered in any map order come out as the one increasing list |
| Fingerprints.FingerprintText | internal/alerts/rule.go:72-87 | the text before the hash is an encoding of the labels, whichever way the map is read |
| Fingerprints.EncodingIsUnique | internal/alerts/rule.go:72-87 | one label map has one text, independent of iteration order |
| Fingerprints.MissingIsEmpty | internal/alerts/rule.go:80-86 | a missing label gives the text of an empty one |
| Fingerprints.ListedEncodingInjective | internal/alerts/rule.go:72-87 | with listed names and NUL-free values, equal texts mean equal values of every listed label |
| Fingerprints.WholeEncodingInjective | internal/alerts/rule.go:72-87 | with no names listed, equal texts mean equal label maps, when names have no '=' or NUL and values no NUL |
| Fingerprints.NulValuesCollide | internal/alerts/rule.go:80-86 | for any two listed names, and any others after them, two label sets with a NUL differ on both and share a text |
| Fingerprints.ListedTellsApartIffOne | internal/alerts/rule.go:72-87 | with distinct listed names the text tells all values apart, NUL included, if and only if one name is listed |
| Fingerprints.NamesShareTextIffOneContinuesTheOther | internal/alerts/rule.go:72-87 | with no names listed, two different names can share a text if and only if one is the other followed by '=' and more |
| Fingerprints.WholeTextSharedIff | internal/alerts/rule.go:72-87 | with no names listed and names free of '=', another label set has the same text if and only if the set has two or more labels, or the value of its one label goes on, after a NUL, like a label that sorts later |
| Tokenizer.SplitKV | internal/parser/parser.go:107-130 | the key is a prefix whose braces close and that ends at an '=' outside them; refused exactly when there is none |
| Tokenizer.KeyIsUnique | internal/parser/parser.go:107-130 | such a split of a line is unique |
| Tokenizer.StepLine | internal/parser/parser.go:71-96 | what one line does to the open section and the seen names, with its error |
| Tokenizer.Tokenize | internal/parser/parser.go:47-102 | the verdict: sections up to the first end marker, the first error with its line number, or a missing end |
| Tokenizer.VerdictIsUnique | internal/parser/parser.go:47-102 | an input has one verdict only, so sections, error and line number are determined |
| Tokenizer.AcceptsExactlyDocuments | internal/parser/parser.go:47-102 | an input yields given sections if and only if, blank lines and trailing CRs aside, it is a well-formed print of them up to the first end marker |
| Tokenizer.FailsIff | internal/parser/parser.go:47-102 | an input is refused at a line with an error if and only if the line comes before the end marker, is the first with a fault, and the error is that fault: a bare marker, a repeated header, content before any header, or no key |
| Tokenizer.MissingEndIff | internal/parser/parser.go:98-100 | the end marker is reported missing if and only if there is none and no line has a fault |
| Tokenizer.TokenizeUndoesPrinting | internal/parser/parser.go:47-130 | for any sections with any order of their lines, printing, the end marker and any suffix tokenizes back to exactly those sections |
| Tokenizer.FindSection | internal/parser/parser.go:29-39 | the first section of the name, or none when no section has it |
| Tokenizer.AcceptedNamesAreDistinct | internal/parser/parser.go:75-83 | accepted sections have distinct non-empty names |
| ServerSections.SplitLabeledKey | internal/parser/server.go:248-283 | the loop over the pairs gives base and labels, the last value of a repeated label winning, or refuses the key |
| ServerSections.ParsesIffPair | internal/parser/server.go:270-281 | a part of the braces is read as label and value if and only if it is a label, '=' and a value in double quotes, with white space anywhere between |
| ServerSections.KeyReadsIff | internal/parser/server.go:256-283 | a key is read as base and labels if and only if it is the base and, in braces, nothing or such pairs with commas between; a label given twice has its last value; any other key is not read |
| ServerSections.OneLabelKeyReadsBack | internal/parser/server.go:248-283 | base{label="value"} reads back if and only if the value has no comma |
| ServerSections.ReadPairs | internal/parser/server.go:149-246 | the result is that of a walk of the section in some key order and some group order, and it is true of the section: each mentioned group once with values that keys hold for it, or a fitting error |
| ServerSections.ReadsIffSomeWalkYields | internal/parser/server.go:153-246 | the answers true of a section, errors included, are exactly those that some walking order of its keys and groups yields |
| ServerSections.SucceedsIffComplete | internal/parser/server.go:153-246 | it succeeds if and only if every key with the label holds an int64 and every group mentioned has both bases |
| ServerSections.OrderIsIrrelevantIffOneValued | internal/parser/server.go:153-246 | all walking orders give the same groups if and only if no two keys give one group two values |
| ServerSections.TwoKeysOneMount | internal/parser/server.go:270-281 | two different keys can decode to one (base, mount) |
| ServerSections.DisksAreTold | internal/parser/server.go:149-204 | a mount's used and total bytes are the numbers of its disk_used_bytes and disk_total_bytes keys |
| ServerSections.NetsAreTold | internal/parser/server.go:206-246 | an interface's received and sent bytes are those of its net_rx_bytes and net_tx_bytes keys |
| ServerRoundTrip.PrintedGroupsReadBack | internal/parser/server.go:153-246 | every reading of a printed section is exactly the printed mounts or interfaces, each once |
| ServerRoundTrip.ReportReadsBack | internal/parser/server.go:96-107 | from report text to disks and interfaces: tokenizer and readers together give back what was printed, in any print order and any map order |
| ServerRoundTrip.ServerShapesAreGood | internal/parser/server.go:178-232 | the result applies to the disk and the network keys |
| ServerRoundTrip.KeysAreGood | internal/parser/server.go:248-254 | a brace-free name makes a key whose end the tokenizer finds |
| Benches.BenchNames | internal/parser/bench.go:21-32 | the listed benches are those of the bench sections, in order |
| Benches.SiteNamesFor | internal/parser/bench.go:34-51 | the listed pairs are those of the site sections, in order, nameless ones left out |
| Benches.SiteOfSection | internal/parser/bench.go:42-48 | a site section is attributed to its bench if and only if the bench has no ':', and an attributed pair leads back to its section |
| Benches.BenchesInOrder | internal/parser/bench.go:21-32 | the listed benches are, in section order, exactly the rests after `BENCH:` of the section names |
| Benches.SitesInOrder | internal/parser/bench.go:34-51 | the listed sites are, in section order, exactly the pairs of the section names `SITE:bench:site`, the bench ending at the first ':' |
| Benches.EachBenchReadOnce | internal/parser/bench.go:60-66 | in an accepted report each bench section is listed once and the section looked up for it is its own |
| Benches.EachSiteReadOnce | internal/parser/bench.go:117-124 | the same for sites |
| LineProtocol.EscapeReadsBack | internal/metrics/lineproto.go:151-164 | escaping is undone by the reader, which stops exactly at its end: no unescaped separator is left |
| LineProtocol.PlainLine | internal/metrics/lineproto.go:23-37 | the text of a line whose tag needs no escaping, byte for byte |
| LineProtocol.DecodeUndoesRendering | internal/metrics/lineproto.go:18-149 | decoding gives back the exact records (name, tags, value text, timestamp) if and only if no tag value has a newline |
| Metrics.Emit | internal/metrics/lineproto.go:23-37 | one emitted line is one more record at the end of the text |
| Metrics.EmitAll | internal/metrics/lineproto.go:39-76 | a run of emit calls appends one record for each, in order |
| Metrics.ItemsDecode | internal/metrics/lineproto.go:23-37 | any emitted records, of plain names, decode to themselves if and only if no tag value has a newline |
| Metrics.ServerLineProtocol | internal/metrics/lineproto.go:18-79 | the text is that of the server's records, loops over disks and interfaces included |
| Metrics.BenchLineProtocol | internal/metrics/lineproto.go:84-120 | the same for a bench, whose version line is there exactly when the version is not empty |
| Metrics.SiteLineProtocol | internal/metrics/lineproto.go:125-149 | the same for a site |
| Metrics.ServerTextDecodes | internal/metrics/lineproto.go:18-79 | the server text decodes to its records if and only if server, mounts and interface names have no newline |
| Metrics.ServerRecordsAt | internal/metrics/lineproto.go:64-76 | which decoded record is the used, total, received or sent value of which disk or interface |
| Metrics.BenchTextDecodes | internal/metrics/lineproto.go:84-120 | the bench text decodes if and only if server, bench, version and queue names have no newline |
| Metrics.SiteTextDecodes | internal/metrics/lineproto.go:125-149 | the site text decodes if and only if server, bench and site have no newline |
| MetricsByName.CpuSaid | internal/metrics/lineproto.go:40-43 | in the decoded text of a server cpu_user, cpu_nice, cpu_system and cpu_idle occur once each, with the server's tag, the time, and the text of the field of that name |
| MetricsByName.OtherCpuSaid | internal/metrics/lineproto.go:44-47 | the same for cpu_iowait, cpu_irq, cpu_softirq and cpu_steal |
| MetricsByName.MemorySaid | internal/metrics/lineproto.go:50-53 | total, available, free and buffers, each the text of 1024 times its kibibytes |
| MetricsByName.CacheAndSwapSaid | internal/metrics/lineproto.go:54-56 | the same for cached, swap total and swap free |
| MetricsByName.LoadSaid | internal/metrics/lineproto.go:59-62 | the three loads and the uptime, once each and as formatted |
| MetricsByName.BenchSaid | internal/metrics/lineproto.go:105-107 | apps_count, supervisor_running and supervisor_total occur once each with their own fields |
| MetricsByName.VersionSaid | internal/metrics/lineproto.go:110-112 | the version record is there once with value 1 and the version as tag, exactly when there is a version |
| MetricsByName.QueuesSaid | internal/metrics/lineproto.go:114-117 | each queue has one record, in order, with its own name and depth |
| MetricsByName.SiteSaid | internal/metrics/lineproto.go:144-146 | http_status_code, http_response_ms and is_healthy occur once each with their own fields |
| SshPool.Pool.Store | internal/ssh/pool.go:221-230 | the client returned is the stored one; another's wins over the caller's own |
| SshPool.Pool.Adopt | internal/ssh/pool.go:221-231 | afterwards the returned client is stored, and the caller's own one is closed exactly when it lost |
| SshPool.Pool.GetOrDial | internal/ssh/pool.go:197-231 | with no other caller between its sections: what is stored is returned and dialling left alone, else the new client is stored and returned, and a failed dial changes nothing |
| SshPool.Pool.DropClient | internal/ssh/pool.go:246-254 | what is stored under the key is closed and removed, nothing else |
| SshPool.Pool.Close | internal/ssh/pool.go:37-44 | every stored client is closed once, in whatever map order, and nothing stays stored |
| SshPool.EveryClientAccounted | internal/ssh/pool.go:37-254 | in every interleaving each dialled client is in exactly one of three states: in one caller's hands, stored under the key it was dialled for, or closed exactly once |
| SshPool.GotWasStored | internal/ssh/pool.go:197-231 | a client handed out was dialled for the caller's key and was the stored one at the caller's last critical section |
| SshPool.RetryGetsAnotherClient | internal/ssh/pool.go:50-67 | after a stale session the retry gets a different client, and the stale one has been closed once |
| SshPool.DropClosesTheFailedOneIffStillStored | internal/ssh/pool.go:56-58 | the drop closes the client that failed if and only if it is still stored, and closes none when nothing is |
| SshPool.LateDropClosesAnothersClient | internal/ssh/pool.go:246-254 | a run in which a late drop closes the fresh client of another caller |
| SshPool.CloseIsCompleteIffNothingInFlight | internal/ssh/pool.go:37-44 | at the moment Close returns every client dialled until then is closed if and only if no caller holds a new one |
| SshPool.CloseIsFinalIffNobodyCanStore | internal/ssh/pool.go:37-44 | in every continuation without new calls nothing is stored again and every client is closed or about to be, if and only if at Close no caller is checking, dialling, holding a new client, dropping, or in its first attempt |
| SshPool.DialDuringCloseIsStored | internal/ssh/pool.go:206-230 | a run in which a dial under way during Close is stored after it and stays open |
| SshPool.KeyIsItsOwnIffNoBar | internal/ssh/pool.go:193-195 | a pool key belongs to one endpoint only, if and only if user and key path have no '\|' |
| Scheduling.Scheduler.constructor | internal/scheduler/scheduler.go:59-76 | the cap is at least 1 and the timeout at least a second; nothing is registered |
| Scheduling.Scheduler.Add | internal/scheduler/scheduler.go:81-89 | a good spec adds one fresh unkeyed entry, a bad one changes nothing |
| Scheduling.Scheduler.AddKeyed | internal/scheduler/scheduler.go:96-111 | the key's old entry goes first; a good spec then gives it a fresh one, a bad one leaves it with none |
| Scheduling.Scheduler.RemoveKeyed | internal/scheduler/scheduler.go:115-122 | the key and its entry go, and an unknown key changes nothing |
| Scheduling.AddedKeyHasOneEntry | internal/scheduler/scheduler.go:96-111 | AddKeyed leaves a key one fresh live entry instead of its old one, or none when the spec is bad, and every other key and entry as they were |
| Scheduling.RemovedKeyIsGone | internal/scheduler/scheduler.go:115-122 | RemoveKeyed takes away the key and its entry and nothing else |
| Scheduling.StepsAddUp | internal/scheduler/scheduler.go:96-122 | the interleaved steps taken under the lock are those of the two methods |
| Scheduling.JobsHoldTheTokens | internal/scheduler/scheduler.go:155-175 | in every interleaving the tokens taken are the jobs between acquire and release, never more than max(1, maxParallel) |
| Scheduling.ReleaseNeverBlocks | internal/scheduler/scheduler.go:155-165 | giving back a token never blocks and the wait group never goes below zero |
| Scheduling.KeyedEntriesAreTheImage | internal/scheduler/scheduler.go:96-122 | outside the lock the live keyed cron entries are exactly the image of the key map, which is injective |
| Scheduling.RemovedEntryNeverFires | internal/scheduler/scheduler.go:113-122 | a removed entry never fires again in any continuation |
| Scheduling.BadSpecKeepsIffKeyIsNew | internal/scheduler/scheduler.go:99-108 | a failing AddKeyed leaves the registry unchanged if and only if the key was new |
| Scheduling.StopNilMeansQuiet | internal/scheduler/scheduler.go:133-151 | once Stop has returned nil, which cron's own count of started jobs allows, no job runs, then or later |
| Scheduling.StopCanFinish | internal/scheduler/scheduler.go:133-175 | from every state reached while Stop waits, the jobs can run out and Stop return nil: no deadlock |
| Scheduling.WaitGroupSuffices | internal/scheduler/scheduler.go:137-147 | when the wait group is drained all jobs have returned if and only if none is still before its wg.Add |
| Scheduling.JobRunsAfterTheWaitGroup | internal/scheduler/scheduler.go:143-147 | a run in which a job starts working after the wait group was drained |
| Text.SplitJoin | internal/collector/pipeline.go:59-67 | strings.Split undoes strings.Join for parts free of the separator |
| Text.TrimSpaceOf | internal/streamer/protocol.go:97 | strings.TrimSpace takes off all white space around a text that neither begins nor ends with any |
| Text.IntTextIs | internal/metrics/lineproto.go:40 | strconv.FormatInt writes digits without a leading zero, and a minus sign before those of a negative number |
| Text.ParseIntText | internal/collector/logtail.go:150 | strconv.ParseInt undoes FormatInt exactly on int64 |

## Left out

- Generated ent code: the store is maps under the unique keys of `ent/schema/logcursor.go:38-42` and `ent/schema/alertstate.go:42-46`. Rows are deleted by that key, not by id.
- HTTP handlers, the router, login and the front end: no hard property.
- The clients for VictoriaMetrics, Loki and Telegram: each is a step that succeeds or fails. What a notifier or a metrics push answers is only logged by the source. JSON and message text are not modelled.
- SHA-256, crypto/ssh, robfig/cron, bufio and sync: their contracts are taken as given. The fingerprint is modelled up to the hash.
- The bash scripts: the stream contract used is the one of `scripts/embed_test.go:118-132` and `scripts/embed_test.go:191-241`; the remote `stat`, `tail` and `head` are the function `RemoteOutput`.
- LokiSinks.LokiSink.Flush: buffers are held as contents; the in-place slide of one buffer is proved separately on `StreamBuf`. Health and lag gauges, `lastSeen` and logging are not modelled.
- SinkProtocol.LinesConserved: assumes at most one flush in flight, which the source does not enforce; `SinkOverlaps` and `SinkCursors` say what overlapping flushes do instead.
- SinkCursors.OverlapLeavesCursor: two flushes, neither push failing and no cursor fault; `BytesBalance`, `OverwritesIffCrossed` and `CursorAheadIffCountersFallShort` are for any number and any fault.
- StreamEndToEnd.StreamEndToEnd: about one connection; what a second one does to the cursor is `SecondConnectionAdvancesAgain`.
- PullLogsRuns.NoByteSkipped: a replaced file must show a size below its cursor before the next read, and a file is not replaced between stat and tail; the source has no protection there. No other writer touches the cursors.
- PullLogs.Pipeline.PullLogsOnce: a stream's labels (server, type, bench) stand as its file's path.
- Alerts.Evaluator.EvaluateOnce: distinct rule names are assumed; `internal/alerts/service.go:108-111` merges them unchecked. The clock is not zero and does not go back.
- Shell.TailCommandBindsPath: the rest of the remote script is not executed by the lexer. How the inner shell splits a path with spaces in `RemoteCommandIsThreeWords` is not modelled.
- ServerSections.ReadPairs: readDisks and readNet are one method over the label and the two bases, which is all they differ in.
- ServerFromSections, BenchFromSections and SiteFromSections beyond the grouped readings: required single values in a fixed order, easy members.
- Metrics.ServerLineProtocol: the calls of emit that follow one another with constant names are one call of `EmitAll` over their list. Floats are the text that strconv.FormatFloat gives; int64 overflow of counters and of kilobytes times 1024 is not modelled.
- Text.TrimSpace: only the ASCII white space is trimmed.
- Scheduling.StopCanFinish: a job that runs is taken to return once its context is done. The per-job timeout itself is not modelled, and Stop and Start are called at most once.
- SshPool.EveryClientAccounted: a session's later life, `poolStream` and the command timeout are not modelled.
- The session's reconnect loop with its back-off, and the manager's launch, remove and stop.
