# Log directory tailer and log-line parsers

A model of the core of a small log-collection tool. The tool watches a
directory of log files. At startup it opens every file and sends its
contents. After that it reacts to file-system notifications: when a file
grows it sends the lines appended since the last read, when a file is
created it opens and registers it, and when a file is removed it drops it
from the registry. Two parsers turn raw lines into `Log` records: one splits a
single line on whitespace, and the other matches each line against a pattern
and folds continuation lines into the record above them.

The model has these modules:

- `FileSystem` (`file_system.dfy`) is the environment. It holds paths, a
  `Disk` snapshot and the directory reads, plus the `notify` event kinds.
  The snapshot maps each path `canonicalize` resolves to its canonical form,
  each openable path to the identity of the file it names, and each file
  identity to that file's bytes. A handle keeps the identity of the file it
  opened, so it goes on reading that file after its path is reused by a new
  file, as an open descriptor does. On a disk that reflects a real file
  system, `canonical` resolves only paths that exist, and every path in
  `at` is among them. A removed path that was not recreated then no longer resolves. The
  next data-modify event would panic at the handle's `canonicalize().unwrap()`
  (`src/watch.rs:109`), and `AnyRefers`' precondition excludes that case.
- `LineReader` (`line_reader.dfy`) gives the semantics of `BufReader::lines`
  and proves properties of it:
  - the text is split at every `'\n'`;
  - one `'\r'` before a break is dropped;
  - a final unterminated fragment is kept.
- `Watch` (`watch.dfy`) covers `src/watch.rs`:
  - the `FileHandle` and `RawLogData` records;
  - `read_till_end`;
  - `files_from_dir`;
  - the startup replay;
  - the three arms of `on_file_event`, all as methods of a `Tailer` class.
  The class's registry of handles and its channel contents are fields that
  these methods update. Each method is proved against a specification
  function of the old state.
- `WatchProperties` (`watch_properties.dfy`) holds what the tailer
  guarantees:
  - exact cursor movement;
  - idempotence of a repeated event;
  - the shape and soundness of each batch;
  - duplicate registration on create;
  - counting of handles on remove;
  - the stop at the first failing directory read.
- `TempWatch` and `TempProperties` (`temp.dfy`, `temp_properties.dfy`)
  cover the earlier variant in `src/temp.rs`, which differs in four ways:
  - its read returns an empty list rather than nothing;
  - it labels startup batches with each file's path;
  - it sends an entry for every named file even when nothing was read;
  - it only knows `Create(Any)`, and it never removes a file.
  `ModifyVariantsAgree` proves that the two variants' data-modify batches
  agree once the empty entries are dropped.
- `LogLine` (`log.dfy`) covers `Log::parse_from_str`. It includes the
  round trip of `split_whitespace` and `join(" ")`.
- `LogParser` (`log_parser.dfy`) covers `Log::parse_lines`. The regular
  expression is written as a greedy prefix recogniser. Because every part of
  the pattern is optional, the leftmost-first match always starts at index 0
  and takes each part greedily in order.

Three details of the code shape what the model does:

- **Partial lines.** The comment at `src/watch.rs:160` says the read goes
  on from one byte past the current position. The call on the next line,
  `file.seek(SeekFrom::Current(1))` at `src/watch.rs:161`, builds a future
  that is never awaited, so the seek has no effect. The read starts exactly
  at the cursor, and `BufReader::lines` returns an unterminated fragment as
  a line. After that, the cursor sits at the end of the file. A line still
  being written is therefore delivered in two pieces (`SplitLineExample`).
- **Startup labels.** In `src/watch.rs` the startup replay labels every batch
  with the directory's path, not with the file's path. `src/temp.rs` uses
  the file's path.
- **Removal.** Removal compares paths by string equality and drops one
  handle per event path, while data-modify matching compares canonical
  paths.

The line parser has two behaviours worth knowing:

- A continuation line whose first three characters are capitals, such as
  `JSON err`, matches as a level with no timestamp, so it is dropped
  (`CapitalContinuationDropped`).
- A continuation line's leading space is consumed by the optional space of
  the pattern, so the message text is joined without it (`LeadingSpaceLost`).

## Model

| member | source | states |
|---|---|---|
| LineReader.ReadLines | src/watch.rs:163-170 | The `next_line` loop returns exactly `Lines(s)`: one line per `'\n'`, each with one trailing `'\r'` stripped, plus the unterminated fragment if there is one. |
| LineReader.NewlineIndexIsFirst | src/watch.rs:164-167 | The position where a line ends is the first `'\n'`, or the end of the text if it has none. |
| LineReader.LinesNonEmpty | src/watch.rs:163-171 | Non-empty text always yields at least one line. |
| LineReader.LinesHaveNoNewline | src/watch.rs:164-167 | No line contains a `'\n'`. |
| LineReader.LinesCount | src/watch.rs:164-170 | The number of lines is the number of `'\n'`, plus one when the text does not end at a line boundary. |
| LineReader.NewlineCountAppend | src/watch.rs:164-170 | Line breaks of concatenated text add up. |
| LineReader.LinesAppend | src/watch.rs:164-170 | When the first part ends at a line boundary, the lines of concatenated text are the lines of each part, in order. |
| LineReader.LinesRoundTrip | src/watch.rs:164-170 | For text without `'\r'`, writing the lines back with a `'\n'` after each gives the text again, plus the one `'\n'` a final fragment lacked. |
| LineReader.LastLineRoundTrip | src/watch.rs:164-170 | Non-empty text without a `'\n'` does not end at a line boundary, and writing its lines back gives the text plus one `'\n'`: the fragment comes back verbatim. |
| LineReader.FirstLineSplit | src/watch.rs:164-167 | Splitting text without `'\r'` at a `'\n'` leaves a rest without `'\r'` that ends at a line boundary exactly when the whole text does. |
| LineReader.FirstLineTerminated | src/watch.rs:164-167 | For text without `'\r'`, writing the lines back gives the text before the first `'\n'`, the `'\n'`, then the lines of the rest written back. |
| LineReader.CrLfExample | src/watch.rs:164-170 | `"a\r\nb"` reads as `["a", "b"]` and `"L1\nL2\n"` as `["L1", "L2"]`, with no empty line after the final break. |
| Watch.ReadTillEnd | src/watch.rs:152-172 | Returns nothing, and leaves the cursor alone, exactly when the file is no longer than the cursor. Otherwise it returns the non-empty list of lines from the cursor to the end and moves the cursor to the end. |
| Watch.FilesFromDir | src/watch.rs:37-53 | The handles opened are those for the entries before the first read error whose open succeeds, in directory order, each at position 0. |
| Watch.Replay | src/watch.rs:83-90 | Every scanned handle is read to the end. One single-entry batch, labelled with the directory, is sent per file that had content. |
| Watch.AnyRefers | src/watch.rs:107-110 | The `any` over the event paths is true exactly when some event path canonicalizes to the same file as the handle; it never reaches a failing `unwrap`. |
| Watch.ReadIfNamed | src/watch.rs:107-116 | One handle's turn in the data-modify arm: the handle is read to the end exactly when an event path names its file, and it yields the entry `ModifyEntry` specifies. |
| Watch.ModifyFiles | src/watch.rs:104-118 | A data-modify event keeps the registry's length and paths and never moves a cursor back. Handles the event does not name are unchanged. |
| Watch.IndexOf | src/watch.rs:138-140 | The index found is the first handle opened at exactly the path; no index means no handle has that path. |
| Watch.Position | src/watch.rs:138-140 | The search loop returns exactly `IndexOf`. |
| Watch.Tailer.Start | src/watch.rs:78-90 | The registry is the scanned handles, each read to the end; the channel holds the startup batches. |
| Watch.Tailer.OnModify | src/watch.rs:104-120 | Every handle an event path names is advanced, and exactly one batch is appended to the channel, even when it is empty. |
| Watch.Tailer.OnCreate | src/watch.rs:122-135 | Each path that opens is read from the start; its batch is sent if it had content, then its handle is appended to the registry. |
| Watch.Tailer.OnRemove | src/watch.rs:136-145 | For each event path in turn, the first handle opened at exactly that path is dropped, and nothing is sent. |
| Watch.Tailer.OnEvent | src/watch.rs:101-148 | One turn of the loop dispatches on `Modify(Data)`, `Create(File)` and `Remove(Any)`, and ignores every other kind. |
| Watch.Tailer.Run | src/watch.rs:101-149 | Handling a sequence of events leaves the registry and the channel contents given by folding the single-event step over the sequence. |
| WatchProperties.TailReadIdempotent | src/watch.rs:154-158 | A second read with no growth in between returns nothing and keeps the cursor; the first read leaves the cursor at the end of the file. |
| WatchProperties.TailReadAppend | src/watch.rs:152-172 | When the first read ended at a line boundary, two reads with an append in between return the same lines as one read of everything. |
| WatchProperties.SplitLineExample | src/watch.rs:160-170 | Because the seek is never awaited, reading `"a\nb"` returns `["a","b"]`. After `"c\n"` is appended, the next read returns `["c"]`: a line being written is delivered in two pieces. |
| WatchProperties.CountZero | src/watch.rs:138-140 | No handle is opened at a path exactly when the path is not among the registry's paths. |
| WatchProperties.ModifyEntryIs | src/watch.rs:107-116 | A handle adds an entry exactly when the event names its file and the file grew. The entry holds the file's path and the non-empty lines past the cursor. |
| WatchProperties.ModifyBatchAppend | src/watch.rs:105-118 | The batch follows registry order: the batch for two registries placed side by side is their two batches, in order. |
| WatchProperties.ModifyBatchSound | src/watch.rs:105-118 | Every entry comes from a registry handle that the event names and has lines; there are no more entries than handles. |
| WatchProperties.ModifyBatchEmpty | src/watch.rs:105-119 | The batch is empty exactly when no named handle's file grew, and it is sent anyway. |
| WatchProperties.ModifyKeepsPaths | src/watch.rs:106-118 | A data-modify event keeps the registry's paths in the same order. |
| WatchProperties.ModifyMovesCursors | src/watch.rs:106-116 | A named handle whose file grew moves to the end of its file; every other handle is unchanged. |
| WatchProperties.ModifyReadsOwnFiles | src/watch.rs:104-118 | A data-modify event reads each handle's own open file: two disks that resolve paths alike and hold the same bytes for the registry's files give the same batch and registry, whatever file now sits at each handle's path. |
| WatchProperties.ReplacedFileExample | src/watch.rs:107-116 | After a file is deleted and created anew at the same path, the old handle still reads the old file, which has not grown, so it reports nothing; a handle on the new file reads the new file's lines. |
| WatchProperties.ModifyIdempotent | src/watch.rs:104-120 | If the same event is delivered again on an unchanged disk, the second delivery sends an empty batch and moves no cursor. |
| WatchProperties.CreateOpenedSound | src/watch.rs:123-133 | Each handle a create event adds names an event path that opens, holds the file that path named, and has its cursor at the end of that file. When every path opens, the handles follow the event paths one for one. |
| WatchProperties.CreateBatchesSound | src/watch.rs:123-131 | Each batch a create event sends is a single entry of non-empty lines for an event path that opened; there are no more batches than opened files. |
| WatchProperties.CreateBatchesAppend | src/watch.rs:123-131 | Create batches follow the event's paths in order: the batches for two lists of paths side by side are their two sequences of batches. |
| WatchProperties.CreateBatchesSingle | src/watch.rs:124-131 | A path that opens onto a file with content sends exactly one batch, `[RawLogData(p, lines)]` with every line of the file; any other path sends nothing. |
| WatchProperties.CreateExample | src/watch.rs:124-131 | Creating `foo.log` holding `"A\nB\n"` sends `[[RawLogData("foo.log", ["A", "B"])]]`. |
| WatchProperties.CreateKeepsRegistry | src/watch.rs:122-135 | A create event keeps the existing registry as a prefix. |
| WatchProperties.CreateDuplicates | src/watch.rs:123-133 | Creating an already-registered path registers it a second time. |
| WatchProperties.RemoveFirstAbsent | src/watch.rs:137-143 | Removing a path that is not registered changes nothing. |
| WatchProperties.RemoveFirstPresent | src/watch.rs:137-143 | Removing a registered path drops exactly the first handle opened at it, keeping the handles before and after in order. |
| WatchProperties.RemoveFirstCount | src/watch.rs:137-143 | One removal lowers that path's count by one when the count is positive, and leaves every other path's count unchanged. |
| WatchProperties.RemovePathsCount | src/watch.rs:136-145 | After a remove event, each path's count has fallen by the number of times the event names it, but not below zero. |
| WatchProperties.NoResurrection | src/watch.rs:104-145 | A file removed at least as many times as it was opened has no entry in the next data-modify batch. |
| WatchProperties.StepKeepsAbsent | src/watch.rs:101-148 | An event that is not a file-create naming a path keeps that path out of the registry and sends no entry for it. |
| WatchProperties.ModifyKeepsAbsent | src/watch.rs:104-118 | A data-modify event keeps an unregistered path unregistered and reports no entry for it. |
| WatchProperties.CreateKeepsAbsent | src/watch.rs:122-135 | A file-create event that does not name an unregistered path keeps it unregistered and sends no batch for it. |
| WatchProperties.RemoveKeepsAbsent | src/watch.rs:136-145 | A remove event keeps an unregistered path unregistered. |
| WatchProperties.AbsentStaysAbsent | src/watch.rs:101-149 | A path absent from the registry stays absent for a whole run in which no file-create event names it, and no batch of the run carries it. |
| WatchProperties.NoResurrectionInRun | src/watch.rs:101-149 | For a path removed at least as many times as it was opened, the path appears in no batch of the run until a file-create event names it. |
| WatchProperties.OtherEventIgnored | src/watch.rs:146 | Every other event kind leaves the registry unchanged and sends nothing. |
| WatchProperties.ScanSound | src/watch.rs:37-53 | Every scanned handle names a listed entry that opens, at position 0; there are no more handles than entries. |
| WatchProperties.ScanAppend | src/watch.rs:39-51 | A listing without read errors is scanned piecewise, in directory order. |
| WatchProperties.ScanStopsAtError | src/watch.rs:39 | Nothing after the first failing directory read is opened. |
| WatchProperties.ScanComplete | src/watch.rs:37-53 | When every entry opens and no read fails, every entry is opened. |
| WatchProperties.ReplayBatchesShape | src/watch.rs:83-90 | Each startup batch is a single entry of non-empty lines labelled with the directory; there are no more batches than files. This states only the shape; the exact batches are `ReplayBatches`, which `Watch.Replay`'s ensures ties to the method, and `ReplayBatchesAppend` with `ReplayBatchesSingle` state them handle by handle. |
| WatchProperties.ReplayBatchesAppend | src/watch.rs:83-90 | Startup batches follow registry order: two registries side by side send their two sequences of batches, in order. |
| WatchProperties.ReplayBatchesSingle | src/watch.rs:84-88 | A handle whose file extends past its cursor sends exactly one batch, labelled with the directory, of the lines from the cursor to the end; any other handle sends nothing. |
| WatchProperties.ReplayAtEnd | src/watch.rs:82-90 | After startup the registry keeps its paths and every handle sits at the end of its file. |
| WatchProperties.QuietAfterReplay | src/watch.rs:82-120 | A data-modify event right after startup, with the disk unchanged, sends an empty batch. |
| TempWatch.TailLines | src/temp.rs:111-131 | The read returns an empty list exactly when the file did not grow. The cursor stays when the file did not grow and otherwise moves to the end. |
| TempWatch.ReadTillEnd | src/temp.rs:111-131 | The read loop returns the lines `TailLines` specifies and moves the cursor to where `TailLines` says. |
| TempWatch.OpenDir | src/temp.rs:22-35 | The directory scan opens exactly the handles of `files_from_dir`. |
| TempWatch.Replay | src/temp.rs:64-67 | Every scanned handle is read to the end, and one batch labelled with the file's path is sent per file. |
| TempWatch.TempTailer.Start | src/temp.rs:60-67 | The registry is the scanned handles, each read to the end; the channel holds one batch per file. |
| TempWatch.ReadIfNamed | src/temp.rs:84-89 | A handle whose file an event path names is read to the end and yields one entry, even when empty; any other handle is left alone and yields nothing. |
| TempWatch.TempTailer.OnModify | src/temp.rs:81-92 | Every named handle is read and gets an entry, even when empty; one batch is sent. |
| TempWatch.TempTailer.OnCreate | src/temp.rs:94-104 | Each path that opens is read from the start; its batch is always sent, then the handle is registered. |
| TempWatch.TempTailer.OnEvent | src/temp.rs:79-106 | One turn of the loop dispatches on `Modify(Data)` and `Create(Any)` only. |
| TempWatch.TempTailer.Run | src/temp.rs:78-108 | Handling a sequence of events leaves the registry and channel given by folding the step over it. |
| TempProperties.ReadAgrees | src/temp.rs:111-131 | This read and the later variant's read return the same lines and cursor; "nothing" becomes the empty list. |
| TempProperties.StartupBatchesShape | src/temp.rs:65-67 | Startup sends exactly one single-entry batch per scanned file, in directory order, labelled with the file's path, even when it is empty. |
| TempProperties.ModifyVariantsAgree | src/temp.rs:81-92 | Dropping this variant's empty entries gives exactly the later variant's data-modify batch. |
| TempProperties.ModifyChangesSound | src/temp.rs:82-91 | Every entry names a registry file that the event refers to. The batch is empty exactly when the event names none. |
| TempProperties.CreateChangesShape | src/temp.rs:95-103 | A create event sends one single-entry batch per file it registers, in the same order, even for an empty file, carrying that file's path and the lines read from its start. |
| TempProperties.OnlyTwoArms | src/temp.rs:105 | Remove events, and create events of any kind other than `Any`, change nothing and send nothing. |
| TempProperties.StepExtends | src/temp.rs:79-106 | No event shrinks or reorders the registry. |
| TempProperties.RegistryNeverShrinks | src/temp.rs:78-108 | Over a whole run, every handle ever registered stays in place. |
| LogLine.TokensAreTokens | src/log.rs:16 | `split_whitespace` yields non-empty tokens without whitespace. |
| LogLine.RemoveColons | src/log.rs:21 | The level has no colon, is no longer than the token, and is the token itself when the token had no colon. |
| LogLine.RemoveColonsKeeps | src/log.rs:21 | Every character other than a colon is kept, as often as the token has it. |
| LogLine.RemoveColonsAppend | src/log.rs:21 | Deleting colons distributes over concatenation, so it works character by character and keeps the order. |
| LogLine.TokensJoin | src/log.rs:16-23 | Splitting tokens joined by single spaces gives the tokens back. |
| LogLine.JoinEmpty | src/log.rs:23 | The joined message is empty exactly when there are no tokens after the third. |
| LogLine.TokensAppendGap | src/log.rs:16 | Any run of whitespace separates tokens like a single space. |
| LogLine.ParseFromStr | src/log.rs:15-30 | Needs three tokens and a timestamp the datetime parser accepts, which is exactly where the source panics. The timestamp is the first two tokens joined by one space, the level is the third without colons, the message is the remaining tokens joined by single spaces and re-splits into them, and the message is empty exactly when there are three tokens. |
| LogLine.ParseJoined | src/log.rs:15-30 | A line written as single-spaced tokens parses to the first two tokens, the third without colons, and the rest verbatim. |
| LogParser.UpperRunIsUpper | src/log_parser.rs:20 | The level run consists only of capitals. |
| LogParser.UpperRunMaximal | src/log_parser.rs:20 | The run of capitals stops only at the cap, at the end of the text, or before a character that is not a capital. |
| LogParser.UpperRunOf | src/log_parser.rs:20 | Capitals within the cap followed by the end or by a non-capital are counted exactly. |
| LogParser.LevelPartSplits | src/log_parser.rs:20 | The level part takes three to five capitals or nothing, and its text and the rest make up its input. |
| LogParser.UpperRunThree | src/log_parser.rs:20 | The run of capitals reaches three exactly when the first three characters are capitals. |
| LogParser.LevelPartLongest | src/log_parser.rs:20 | The level part takes nothing exactly when the text does not start with three capitals, and what it takes is the longest run: five capitals, or every capital that follows. |
| LogParser.DatetimePartOf | src/log_parser.rs:20 | A timestamp of the right shape at the start of a line is taken whole, and the rest is left. |
| LogParser.LevelPartOf | src/log_parser.rs:20 | Three to five capitals followed by a non-capital or the end are taken as the level. |
| LogParser.MessagePartOf | src/log_parser.rs:20 | Text without line breaks is taken whole as the message, or as no group when it is empty. |
| LogParser.RecogniseRendered | src/log_parser.rs:20-27 | A line laid out as timestamp, space, level, `": "` and message is matched back into exactly those parts; an empty message gives no message group. |
| LogParser.MessagePartSplits | src/log_parser.rs:20 | The message part takes a non-empty run without a line break, stopping only at a break or at the end. |
| LogParser.RecogniseGroups | src/log_parser.rs:20-27 | The timestamp group is present exactly when the line starts with a timestamp, and is then its first 29 characters. The timestamp group is 29 characters of the timestamp's shape, the level group three to five capitals, and the message group a non-empty text without line breaks. |
| LogParser.RecogniseSpans | src/log_parser.rs:20-23 | The match is a prefix of the line that ends only at a line break or at the line's end. |
| LogParser.RecogniseCovers | src/log_parser.rs:20-23 | A line without breaks is matched from end to end. |
| LogParser.ParseLines | src/log_parser.rs:18-61 | Needs the datetime parser to accept every record-starting line, which is where the source panics. Under that condition the loop returns exactly the records `Parsed` specifies. |
| LogParser.ParseLine | src/log_parser.rs:23-57 | One line either starts a record, extends the last record's message, or is dropped, exactly as `Absorb` specifies; the timestamp of a record-starting line must be accepted. |
| LogParser.ParsedCount | src/log_parser.rs:29-57 | There is one record per line carrying both a timestamp and a level, so there are never more records than lines. |
| LogParser.ParsedRecords | src/log_parser.rs:30-49 | Every record has a timestamp of the matched shape that the datetime parser accepted, and a level of three to five capitals. |
| LogParser.FoldContinuations | src/log_parser.rs:30-55 | A record-starting line followed by continuation lines becomes one record whose message is its own followed directly by each continuation's message; earlier records are unchanged. |
| LogParser.FoldStep | src/log_parser.rs:50-53 | One more continuation line extends the last record's message. |
| LogParser.HeaderStartsRecord | src/log_parser.rs:30-48 | A record-starting line appends one record with its timestamp, level and message, or `""` when it has no message. |
| LogParser.AbsorbContinuation | src/log_parser.rs:50-53 | A continuation changes only the last record's message. |
| LogParser.OrphanContinuation | src/log_parser.rs:50-54 | A continuation line before any record is lost. |
| LogParser.HalfMatchDropped | src/log_parser.rs:56 | A line with a timestamp but no level, or a level but no timestamp, changes nothing. |
| LogParser.CapitalContinuationDropped | src/log_parser.rs:20-29 | `"JSON err"` matches as a level without a timestamp, so the line is dropped rather than continued. |
| LogParser.LeadingSpaceLost | src/log_parser.rs:20 | The leading space of `" at x"` goes to the optional space, and the message is `"at x"`. |

## Left out

- The I/O itself is outside the model. File contents, `File::open`, `canonicalize` and the directory reads are inputs: a `Disk` snapshot and a list of directory reads passed with each event.
- The `notify` watcher, its channel and the tokio runtime are left out. A run is the sequence of events the watcher delivers, each with the disk as it stands when the event is handled, and the output channel is a sequence field.
- `process_logs` is left out: it only prints the lines it receives.
- `src/main.rs` is left out. It spawns `watch_logs` and `process_logs` as tokio tasks joined by a channel (`src/main.rs:18-19`), and it serves an unrelated WebSocket echo endpoint with axum (`src/main.rs:22-53`).
- Errors from `watch` and `read_dir` (`src/watch.rs:74-81`) panic through `expect`. That ends the watcher task only, while the server keeps running. They are not modelled.
- UTF-8 validation in `next_line` is left out. Contents are text, one character per byte, and a read never fails.
- `WatchProperties.ReplayBatchesShape` and `WatchProperties.CreateBatchesSound` assume every openable path reads as text. The model cannot represent an entry that opens but whose read fails, such as a subdirectory of the watched directory. `File::open` succeeds on it, its length is positive, and `next_line` fails at once, so `read_till_end` returns an empty list. The source would then send a batch with an empty list of lines, which these lemmas' non-empty lines exclude.
- Growth of a file while it is being read is left out: each read sees one snapshot.
- The snapshot holds the bytes of every file a handle keeps open, including files whose path was removed or reused. A file identity the snapshot does not hold reads as empty.
- Paths are compared as strings wherever the code compares `PathBuf`s with `==` (in `on_file_event`'s remove arm). `PathBuf` equality compares components, so it also ignores repeated separators, interior `.` components and a trailing separator; the model does not normalise paths.
- `Watch.ReadTillEnd`: the unwraps of `stream_position` and `metadata` are assumed to succeed.
- `Watch.AnyRefers`: a `canonicalize` failure is excluded by a precondition rather than modelled as a panic.
- `LogLine.ParseFromStr`: the timestamp is kept as the text the datetime parser accepted, not as a `NaiveDateTime`. The datetime parser is a parameter, because its format logic lives in chrono.
- `LogParser.ParseLines`: the same treatment of timestamps and of the datetime parser as in `ParseFromStr`.
- `LogParser.RecogniseGroups`: `\d` is modelled as an ASCII digit. In the regex crate it also matches the other Unicode decimal digits.
- The `Serialize`/`Deserialize` derives and the `ts_nanoseconds` encoding are not part of this model.
- The unused code after `read_till_end` in `src/watch.rs` (from line 178) is not part of this model.
