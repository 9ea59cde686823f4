# Proofs about xCUTEr

xCUTEr runs jobs: it executes commands on many hosts at the same time, copies files with its own implementation of
the SCP protocol, and measures what it does. This project models the parts of it with the most branching and state,
and proves what they are for. All results hold for all inputs, all runs or all interleavings, with the exceptions
named in the contracts.

Check everything with `dafny verify dfyconfig.toml`.

## What is modelled

**The copy protocol** (`Scp*.dfy`). Bytes and UTF-8, the lexer that reads one rune at a time and can step back, the
messages and how the lexer's items are bound to their fields, the sink with its eight-state machine, and the source
that walks a tree. Lexer, sink and source are classes whose methods change their fields as the program does, each
proved against a function of the old state. What is proved about these functions:

- `ScpLexTiling`: the lexer halts on every byte string and its items tile a prefix of it.
- `ScpFormat`: which bytes stand for which message, with letters, bases and fields as numbers: what is printed, what is
  read, and that nothing else is read. (`ScpUtf8` has the encoding of RFC 3629, and `ScpPaths` what joining names means.)
- `ScpRoundTrip`: printing and parsing a message gives it back exactly if its line can carry it; parsing is stable.
- `ScpEffects`: exactly when a sink takes a C or a D message, with which error if not, and what is then on its disk.
- `ScpAcks`: a source succeeds exactly if it can read all it is asked for and gets its acks; else, what ends it, and how
  far it has written.
- `ScpTransfer`: the two ends, run against each other, copy a tree, with modes, contents and times.
- `ScpOverwrite`: what a sink makes of a tree where files and directories are already.
- `ScpRefusal`: when that goes wrong; a tree is taken exactly if all its messages can be read back.
- `ScpTruncation`: what a sink has when the stream breaks off at any byte.
- `ScpSinkMachine`: which message sequences the machine accepts, for all flags, and where its directory is.
- `ScpSession`, `ScpLockstep`, `ScpSessionResults`: source and sink as two processes over byte channels, under every
  schedule and every pattern of failures on the sink's disk and in what the source reads, also for files whose length
  is not the one that stat reports; how a session can end is decided by the first of these, and where all fit, no
  session gets stuck, all end, both ends agree, and the results above carry over.
- `ScpMisfits`: what becomes of a session over files that are shorter or longer than announced.

**The job compiler and its runtime** (`Job*.dfy`, `Flunc*.dfy`). A job is turned into a tree of steps by a visitor
(`JobVisitor`, in the imperative form of the program, against the functions of `JobVisit`). `JobRuns` says what
running a tree can do: which steps, in which contexts and with which outcomes, in which order. Steps that talk to the
outside may fail at will; a context may be done when the job is cancelled from outside, or when the run lasts as long
as a time limit set on that context. `JobRunner` has the loops of the program, `FluncParallel` its goroutines and its
channel, step by step; both are proved to do what `JobRuns` says. On that rest:

- `JobSafety`: no step of any job ever lacks an output, a logger, a templating engine or an SSH client.
- `JobMeaning`, `JobLocal`, `JobWhole`: compiler correctness, as an equivalence, for commands and for whole jobs, against
  an interpreter that knows scopes and no context passing, and that reads `pre` and `post` as they are written.
- `JobRemote`: a host is connected to exactly if some step in the tree of its command runs there.
- `JobContexts`: what every step keeps, every step is taken with: a context that is done stays done, and a job writes to
  its own output.
- `JobHosts`, `JobLimits`: hosts do not disturb each other; time limits stay where they are set; every command runs
  with its own host's logger, templating engine and client.
- `JobCounts`: how often a step can run at most.
- `JobLate`: the same bounds, safety and ownership for what children of a parallel group still do after the group has
  failed and returned.
- `JobValid`: which jobs the visitor accepts, and that its errors are true.

**Telemetry** (`JobProbes`, `JobNesting`, `JobNames`, `JobTiming`, `JobTimes`). Instrumenting a job does not change
its meaning, event logs nest like the tree, names are unique, and the timing computed from a log is the right one.

**Smaller pieces.** The tree printer (`TreeText`), the comment stripper (`LineComments`) and the executor's books
under interleaving (`ExecutorRuns`).

## Where the code does not do what one would expect

The model follows the code. These are proved as stated in the table, with the exact condition where there is one:

- The repository's README calls `retries` the number of retries; the code makes that many attempts in all, and one
  attempt for 0 and 1 (`JobMeaning.CommandMeans`, `JobCounts.MostOfCommand`). A command that fails each time is taken
  that often (`JobCounts.CanFailEachTime`), and once more than its retries exactly if they are 0
  (`JobCounts.RetriedAsSaidExactlyIf`).
- With one file for stdout and stderr the code opens it twice as stdout and leaves stderr where it was
  (`JobMeaning.OutputOfACommand` has the exact condition).
- `pre` and `post` lose their timeouts, also those of commands in them (`JobLimits.LocalizedHasNoLimit`). Their limits
  stay what they were exactly if no command in them sets one (`JobLimits.LimitsKeptExactlyIf`).
- With times, a T message for a file outside of all directories puts the machine out of step
  (`ScpSinkMachine.InStepExactlyIf`). Then an E message can leave the sink's first directory: outside of all
  directories it is accepted exactly if a T message has announced a file, no directory has been entered or left since,
  and the last message is no T (`ScpSinkMachine.LeavesExactlyIf`). A run leaves its first directory exactly if it has
  such an E message (`ScpSinkMachine.RunStaysBelowExactlyIf`). The bytes of any file with its times, and an E line
  after them, are such an input (`ScpTransfer.EndAfterAFile`).
- A source announces the size that stat reports and then sends what it reads. If that is less, both ends wait for
  each other: a session can get stuck exactly if the first file with another length than announced is shorter
  (`ScpMisfits.StuckExactlyIf`; where none is longer, exactly if some file is shorter:
  `ScpMisfits.StuckExactlyIfShorter`), and then it never ends (`ScpMisfits.ShorterNeverEnds`). If it is more, both ends
  fail, unless the first byte too many is a zero byte (`ScpLockstep.EndsAgree`). With a zero byte there, the source
  succeeds, the sink takes the rest of the file for messages, and the ends agree exactly if it can do so without an
  error (`ScpMisfits.SpillingAgreesExactlyIf`; a file on which they disagree: `ScpMisfits.EndsDisagree`).
- A sink whose directory is the root joins a file's name twice (`ScpTransfer.FileTakenExactlyIf`).
- A file named like its directory cannot be sent, as its path is taken for the directory's (`ScpSend.DirectorySent`).
- A string literal that ends in an escaped backslash fools the comment stripper
  (`LineComments.EscapedBackslashFools`; exactly when: `LineComments.RightExactlyIf`).
- A probe always provides a logger, and so hides a missing one (`JobProbes.ProbesHideAMissingLogger`); in jobs none is
  missing.
- After a removal, the runs of a file can overlap (`ExecutorRuns.RemovalLetsRunsOverlap`). As long as no further removal
  finds a run of the file, this can happen exactly if a removal that found one has yet to delete the file's entry, or
  a run of the file is under way that is not the one listed for it (`ExecutorRuns.OverlapExactlyIf`).
- When a parallel group fails, it returns while others of its children go on, so that their steps can fall into the
  next attempt of a retry, or into `post` (`JobLate.RestsHappen`).

## Model

| member | source | states |
|---|---|---|
| ScpUtf8.DecodeRuneIsLocal | scp/lex.go:30-40 | a decoded rune depends on its own bytes only, so more input never changes it |
| ScpUtf8.EncodedIsDecoded | scp/lex.go:30-40 | every code point that is no surrogate is decoded from its encoding, as RFC 3629 defines it, whatever follows |
| ScpUtf8.DecodedIsEncoding | scp/lex.go:30-40 | what is decoded is such an encoding, or a single byte with which none starts |
| ScpLex.LexReader.GetData | scp/lex.go:23-28 | takes the bytes read so far out of the buffer and keeps the position |
| ScpLex.LexReader.Next | scp/lex.go:30-40 | reads one rune; at the end, at invalid UTF-8 and at U+FFFD nothing is read and the end is reported |
| ScpLex.LexReader.Backup | scp/lex.go:42-45 | steps back by the width of the last rune |
| ScpLex.LexReader.AcceptFn | scp/lex.go:47-60 | reads exactly the longest run of accepted runes, counts them, and tells whether the input ended there |
| ScpLex.Lexer.EmitItem | scp/lex.go:126-132 | an item with all bytes read since the last one and the position reached |
| ScpLex.Lexer.Error | scp/lex.go:114-124 | one error item, and the machine stops |
| ScpLex.Lexer.OneRune | scp/lex.go:195-201 | type, space and end items hold one rune, and lexing goes on with the rest |
| ScpLex.Lexer.Number | scp/lex.go:210-220 | a number item holds the whole run of number runes, also at the end of the input |
| ScpLex.Lexer.Name | scp/lex.go:248-258 | a name item holds the whole run up to the newline; one that the input's end cuts off is not emitted |
| ScpLex.Lexer.Run | scp/lex.go:145-166 | the loop emits exactly the items of the specification, for every input |
| ScpLexTiling.TilingFrom | scp/lex.go:145-270 | from every state of the machine, the items tile what it reads |
| ScpLexTiling.Tiling | scp/lex.go:145-270 | items tile a prefix of the input, positions count runes, an error or end item is the last, and an end item closes the prefix at the first newline |
| ScpStrconv.DigitsRoundTrip | scp/messages.go:22-45 | printed numbers, padded or not, parse back without an error if they fit the width |
| ScpStrconv.ParsedInRange | scp/messages.go:26-45 | the value that is kept when a conversion fails fits the field |
| ScpMessages.ParseSCPMessage | scp/sink.go:218-264 | taking items off the lexer one by one gives the message or the error of the specification |
| ScpFormat.NamedLine | scp/messages.go:26-45 | a line of a byte 67 or 68, octal digits, a space, decimal digits, a space and a name is a C or D message with the value of the digits in base 8 as its mode and in base 10 as its length, or the largest there is |
| ScpFormat.TimesLine | scp/messages.go:174-212 | a line of a byte 84 and four decimal numbers is a T message: the first is the time of modification, the third that of access |
| ScpFormat.EndLine | scp/messages.go:145-153 | the bytes 69 and 10 are the E message, printed and read |
| ScpFormat.KindByLetter | scp/sink.go:230-250 | a line that is read is a C, D, E or T message if and only if its first byte is 67, 68, 69 or 84 |
| ScpFormat.NamedLinesOnly | scp/sink.go:218-264 | every line that is read as a C or D message has that form, with digits or other number runes as its numbers, and is the message its digits say |
| ScpFormat.TimesLinesOnly | scp/sink.go:218-264 | every line that is read as a T message has that form, and is the message its digits say |
| ScpFormat.EndLinesOnly | scp/sink.go:218-264 | every line that is read as an E message is these two bytes |
| ScpFormat.PrintedNamed | scp/messages.go:22-24 | a C or D message is printed in that form, its mode with at least four digits, and with no more zeros in front than needed |
| ScpFormat.PrintedTimes | scp/messages.go:170-172 | a T message is printed as the time of modification, 0, the time of access, 0, with a minus for times before the epoch |
| ScpFormat.FileLine | scp/source.go:128-137 | a file is announced by a C line with its name, the nine lowest bits of its mode, and its size as a number without a sign |
| ScpFormat.DirectoryLine | scp/source.go:58-67 | a directory is announced by a D line with its name, the nine lowest bits of its mode, and a zero |
| ScpFormat.StampLine | scp/source.go:105-119 | the times of both are announced by a T line, the time of modification first |
| ScpRoundTrip.LexTokens | scp/lex.go:183-270 | tokens that fit the grammar lex to themselves, whatever follows them |
| ScpRoundTrip.NamedRoundTrip | scp/messages.go:22-45 | a printed C or D line parses to the message if and only if the name is lexable |
| ScpRoundTrip.TimesRoundTrip | scp/messages.go:170-212 | a printed T line with times since the epoch parses to the message |
| ScpRoundTrip.ParsedTimesAreNotNegative | scp/messages.go:174-212 | no line parses to a time before the epoch |
| ScpRoundTrip.PrintParse | scp/messages.go:22-212 | for every message, parsing its line gives it back if and only if the line can carry it |
| ScpRoundTrip.NameItemsAreLexable | scp/lex.go:229-258 | the lexer emits no name that it would not read back |
| ScpRoundTrip.ParsedIsPrintable | scp/sink.go:252-262 | whatever a line parses to, dropped conversion errors included, can be printed |
| ScpRoundTrip.ParsePrintParse | scp/sink.go:218-264 | parsing, printing and parsing again is the same as parsing once, for every accepted line |
| ScpPaths.JoinPlain | scp/source.go:77-90 | joining a plain name and splitting it off again gives the directory back |
| ScpPaths.JoinInTurn | scp/messages.go:127-128 | what a slash separates is joined one after the other |
| ScpPaths.JoinOne | scp/messages.go:127-128 | nothing and a dot lead nowhere, two dots to the parent, and all else without a slash is a name |
| ScpDisk.MadeExactlyIf | scp/messages.go:128-130 | a directory is made if and only if it or one above it is there, nothing is in the way from there on, and nothing is refused |
| ScpDisk.MadeWithParents | scp/messages.go:128-130 | it is made with all that is missing on the way, each with the mode, and nothing else is changed |
| ScpSink.LineLength | scp/sink.go:18-24 | the first line ends at the first newline |
| ScpSink.Sink.constructor | scp/scp.go:73-108 | a sink starts without pending times and without output |
| ScpSink.Sink.SendAck | scp/sink.go:266-269 | an ack is one zero byte |
| ScpSink.Sink.HandleC | scp/messages.go:47-87 | opening, ack, copying, setting pending times, the zero byte and the second ack, with every error in its place |
| ScpSink.Sink.HandleD | scp/messages.go:120-140 | a D message enters and makes its directory, and consumes pending times; a length is an error |
| ScpSink.Sink.Handle | scp/messages.go:155-206 | E goes to the parent directory, T sets the pending times, both acknowledge |
| ScpSink.Sink.RunSink | scp/sink.go:12-36 | the loop over lines with its machine does what the specification says, for every input and disk |
| ScpEffects.FileTakenExactlyIf | scp/messages.go:47-87 | a C message is taken if and only if its file can be opened and has room, and a zero byte comes after as many bytes as announced, none for 2^63 or more; these bytes are then its content, and each other case has its error |
| ScpEffects.DirectoryTakenExactlyIf | scp/messages.go:120-140 | a D message is taken if and only if it has no length and its directory is there or can be made; times that are pending become its times |
| ScpSource.LookupChild | scp/source.go:72-90 | an entry is found under its directory's path and its own name |
| ScpSource.Source.constructor | scp/scp.go:73-108 | a source starts in its directory, with nothing written |
| ScpSource.Source.TakeAck | scp/source.go:173-190 | zero is an ack, 1 and 2 carry a line of error text, all else is an error |
| ScpSource.Source.WriteTimes | scp/source.go:105-119 | the T message, with times only |
| ScpSource.Source.WriteFile | scp/source.go:121-163 | times, C message, content and zero byte, each followed by an ack; the path is the one the code builds |
| ScpSource.Source.WriteDirectory | scp/source.go:51-103 | times, D message, all entries in order, E message; the loop restores the directory field |
| ScpSource.Source.WriteEntry | scp/source.go:77-90 | one entry; a directory is entered and left |
| ScpSource.Source.RunSource | scp/source.go:15-49 | the whole source, recursive or not |
| ScpSend.FileSentFrom | scp/source.go:121-171 | a file is sent just if the path built for it can be read |
| ScpSend.DirectorySent | scp/source.go:51-103 | with its acks a directory is sent completely, byte for byte, if and only if all of it is readable and no file is named like its directory |
| ScpAcks.SourceSucceedsExactlyIf | scp/source.go:15-163 | a source succeeds if and only if it can read all it is asked for and the first bytes it reads, one and one for each of its writes, are all zero |
| ScpAcks.NothingWritten | scp/source.go:38-49 | where nothing is, or a directory and no recursion is asked for, a source fails and writes nothing |
| ScpAcks.FirstByteTells | scp/source.go:15-24 | if the first byte is no ack, a source ends with what it is told, before it looks at anything else |
| ScpAcks.SourceIsTold | scp/source.go:173-190 | a byte that is no ack ends a source after exactly the writes before it, with the line that follows 1 or 2 as its error, or with the byte itself |
| ScpAcks.SourceStops | scp/source.go:51-163 | with good acks, a source that cannot read everything has written the tree's bytes up to the announcement of something that cannot be read |
| ScpReceive.PrintedIsALine | scp/messages.go:22-24 | a printed message is one line unless its name holds a newline |
| ScpReceive.OneMessage | scp/sink.go:18-33 | one turn of the sink's loop on a printed message is what the message does |
| ScpReceive.Received | scp/messages.go:47-206 | receiving a tree keeps directory and pending times, sends an ack for each step and adds exactly the tree's entries |
| ScpTransfer.FileReceived | scp/messages.go:47-87 | the sink takes a whole file, in every state that accepts it |
| ScpTransfer.NodeReceived | scp/sink.go:130-173 | inside a directory, a subtree leaves state and depth of the machine as they were |
| ScpTransfer.DirectoryReceived | scp/sink.go:110-216 | a directory ends in the state and at the depth where it began |
| ScpTransfer.ImageIsTheTree | scp/messages.go:47-140 | what the sink adds to its disk is the tree: each path once, of the node's kind, with the nine lowest bits of its mode, its content and its times, and no other path |
| ScpTransfer.SinkTakesTree | scp/sink.go:12-36 | the sink run on the bytes of a tree ends without error and has the tree |
| ScpTransfer.SourceSendsTree | scp/source.go:15-103 | the source run against good acks writes the bytes of the tree, or fails if something cannot be read |
| ScpTransfer.Transfer | scp/source.go:26-163 | end to end: both runs succeed, each reads exactly what the other writes, both directories are restored, each node of the tree is copied with permissions, content and times, and nothing else changes on the disk |
| ScpTransfer.FileAtRoot | scp/scp.go:175-181 | at the root the name is joined twice and the file cannot be opened |
| ScpTransfer.FileTakenExactlyIf | scp/messages.go:50-58 | a file is taken if and only if the sink's directory is not the root |
| ScpTransfer.EndAfterAFile | scp/sink.go:130-173 | a sink with times that gets a file's bytes and then an E line takes the file, ends without an error, and is in the parent of its directory |
| ScpOverwrite.FileOverwritten | scp/messages.go:50-82 | a file comes over another, with its content and the other's mode, or where nothing is; over a directory it cannot be opened |
| ScpOverwrite.DirectoryKept | scp/messages.go:120-140 | a directory that is there is kept with its mode; where a file is, none can be made |
| ScpOverwrite.MergeIsTheTree | scp/messages.go:47-140 | after a tree is merged each of its paths has its entry put over what was there, and all other paths are as before |
| ScpOverwrite.ReceivedOnto | scp/messages.go:47-206 | receiving a tree over what is there keeps directory and pending times, sends an ack for each step and leaves the disk merged |
| ScpOverwrite.TreeMergedExactlyIf | scp/sink.go:12-36 | whatever is on the disk, the sink run on the bytes of a tree ends without an error if and only if nowhere a file and a directory come in each other's place, and then the tree is merged |
| ScpRefusal.NameRefused | scp/lex.go:229-258 | a line with a name that is not lexable parses to no message at all |
| ScpRefusal.TimesRefused | scp/messages.go:170-212 | a line with a time before the epoch parses to no message at all |
| ScpRefusal.TreeTakenExactlyIf | scp/sink.go:12-36 | the bytes of a tree, in which the first misfit if any is a file too long without a zero byte at its announced end, are taken without an error if and only if all files fit, all names are lexable and all sent times are since the epoch |
| ScpRefusal.SessionSucceedsExactlyIf | scp/scp.go:110-128 | under every schedule, if both processes end, they both succeed if and only if that is so and the source can read the whole tree; only trees that spill first are left out |
| ScpTruncation.EntriesAreTheImage | scp/source.go:51-103 | the entries in the order they are sent make up the tree |
| ScpTruncation.ContentCut | scp/messages.go:66-82 | content that breaks off leaves a file with a prefix of it, and an error |
| ScpTruncation.Truncation | scp/sink.go:18-33 | for every prefix of the stream the disk gains a prefix of the entries, all complete but the last, which may be a file cut short |
| ScpSinkMachine.AcceptedWithoutTimes | scp/sink.go:175-216 | without times, accepted are exactly the nested sequences without T; depth and state are what the messages say |
| ScpSinkMachine.AcceptedWithTimes | scp/sink.go:110-173 | with times, accepted are exactly the sequences in which every T announces something and every E leaves a directory or follows a stray file; depth and state are what the messages say |
| ScpSinkMachine.AcceptedIfNested | scp/sink.go:110-173 | a nested sequence is accepted with times if and only if every T announces something |
| ScpSinkMachine.AcceptedFlat | scp/sink.go:63-108 | a sink that is not recursive accepts exactly the sequences of C, and with times of T messages that are the last or right before a C; its depth stays 0 |
| ScpSinkMachine.AcceptedExactlyIf | scp/sink.go:50-216 | for all flags: accepted is exactly what holds only messages that are asked for, each T right before what it announces, and E only as the directories before allow |
| ScpSinkMachine.LeavesExactlyIf | scp/sink.go:157-173 | outside of all directories an E is accepted if and only if a T has announced a file, no directory was entered or left since, and the last message is no T |
| ScpSinkMachine.NestedExactlyIf | scp/sink.go:110-173 | an accepted sequence is nested if and only if it has no such E |
| ScpSinkMachine.InStepExactlyIf | scp/sink.go:157-173 | the machine is always in step with an accepted sequence if and only if no T announces a file outside of all directories |
| ScpSinkMachine.PendingTimes | scp/messages.go:197-206 | times are pending exactly in the two states after T, so they apply to the next C or D only |
| ScpSinkMachine.DirIsBaseAndOpen | scp/messages.go:120-162 | in a nested run the directory is the first one joined with the names still open |
| ScpSinkMachine.RunStaysBelow | scp/messages.go:120-162 | in every run over nested messages the directory is the first one and the names still open below it, as many as the depth says |
| ScpSinkMachine.RunStaysBelowExactlyIf | scp/messages.go:120-162 | a run that does not start at the root stays at or below its first directory if and only if, with times, it has no E after a stray file |
| ScpSinkMachine.LeavesBase | scp/sink.go:157-173 | with times, T, C, E is accepted and is not nested |
| ScpSinkMachine.RunLeavesBase | scp/messages.go:155-162 | every run over T, C, E ends in the parent of its first directory |
| ScpLockstep.ScriptIsGood | scp/source.go:51-163 | what the source writes for a tree is lines and contents in turn, up to the first content that is not as long as announced |
| ScpLockstep.StepKeeps | scp/source.go:173-190 | every step of either process, failures included, keeps the lockstep of writes and answers |
| ScpLockstep.AlwaysLockstep | scp/scp.go:110-128 | every schedule keeps it |
| ScpLockstep.NeverStuck | scp/source.go:173-190 | a session that is not over has an enabled step, unless its first misfit is a content that is too short |
| ScpLockstep.EndsAgree | scp/scp.go:125-128 | both ends succeed or both fail, also when a content is too short or too long or the source fails to read in the middle of a file, unless a content spills; they succeed only if all contents fit, and then nothing is left in the channels |
| ScpLockstep.SourceFailsKeeps | scp/source.go:66-150 | a source that fails to read a directory or on in a file leaves bytes on which the sink must fail, whatever the error says, unless a content has spilled |
| ScpLockstep.SessionsEnd | scp/sink.go:18-33 | no schedule is longer than a bound known at the start |
| ScpLockstep.ScriptCount | scp/source.go:51-163 | the number of writes that are acknowledged for a tree: two for each node, and one more for each with times |
| ScpLockstep.SessionOverATree | scp/scp.go:110-128 | all of this for a session over a tree, with any sink on any disk, whatever the lengths of its files, unless one spills in a directory |
| ScpSessionResults.SourceRunsScript | scp/source.go:15-103 | the source whose reads succeed runs exactly this script, whatever acks it gets |
| ScpSessionResults.ScriptIsStream | scp/source.go:51-163 | the script's bytes are the stream of the tree |
| ScpSessionResults.WriteTwice | scp/messages.go:66-70 | copying in pieces of any size is copying at once |
| ScpSessionResults.SessionIsRun | scp/sink.go:12-36 | however the bytes arrive, the sink ends as on all of them in one piece |
| ScpSessionResults.BrokeExactlyIf | scp/source.go:143-151 | a source ends with a failure to read if and only if a read failed |
| ScpSessionResults.SessionTransfersTree | scp/source.go:26-163 | under every schedule a session over a tree copies each node of it, and nothing else, and both ends succeed, or a read failed and both fail |
| ScpMisfits.StepFollows | scp/source.go:148-160 | a session over a file that is too short follows that over the announced file, step by step, but never gets to the end of the content |
| ScpMisfits.ShorterNeverEnds | scp/source.go:125-160 | if the first misfit is a file that is too short and no read fails, no schedule ends the session |
| ScpMisfits.StuckExactlyIf | scp/messages.go:66-82 | a session over readable messages can get stuck without a failure to read if and only if its first misfit is a file that is too short |
| ScpMisfits.NotStuck | scp/source.go:173-190 | if it is not, no schedule at all gets the session stuck |
| ScpMisfits.StuckExactlyIfShorter | scp/source.go:125-160 | where no file is too long, a session can get stuck if and only if some file is too short |
| ScpMisfits.SessionGoesOn | scp/source.go:173-190 | every schedule can be continued, without a failure to read, until the session is over or stuck |
| ScpMisfits.SinkTakesSpilling | scp/messages.go:66-82 | on a file with a zero byte at its announced end the sink takes the announced file and goes on with the rest as messages |
| ScpMisfits.SpillingSession | scp/source.go:148-160 | under every schedule such a session ends with a source that succeeds and a sink that ends as just said |
| ScpMisfits.SpillingAgreesExactlyIf | scp/scp.go:110-128 | so both ends agree if and only if the sink takes the rest without an error |
| ScpMisfits.EndsDisagree | scp/source.go:125-160 | there is a file on which the source succeeds and the sink fails |
| JobConfig.LocalCommand | job/configVisitor.go:139-158 | rebuilds the command, at every depth: text, flow, retries, ignoreError, stdout, stderr and order are kept, every target is local, and every timeout is gone |
| JobConfig.RelocatesExactlyIf | job/configVisitor.go:139-158 | that relation, field by field, holds of one command only, the localized one |
| JobConfig.LocalizedIsNotRemote | job/config.go:237-249 | nothing in a localized command runs on a remote host, at any depth |
| JobRemote.RemoteExactlyIf | job/config.go:237-249 | a command counts as remote if and only if some step in the tree made from it runs remotely |
| JobRemote.ConnectedExactlyIf | job/configVisitor.go:168-189 | a host's group has a step that connects if and only if that is so for the command, and steps that forward or tunnel if and only if they are asked for too |
| JobVisitor.TreeGroup.Append | job/executionTree.go:35-57 | appends the children that are present, in order |
| JobVisitor.TreeGroup.Wrap | job/executionTree.go:55-57 | the group with the children appended so far |
| JobVisitor.Visitor.NextName | telemetry/naming.go:20-26 | each node gets the next name |
| JobVisitor.Visitor.NewGroup | telemetry/naming.go:62-78 | a group is named before its children |
| JobVisitor.Visitor.RedirectSteps | job/configVisitor.go:204-218 | the steps for stdout and stderr; one file for both is one step, put in twice |
| JobVisitor.Visitor.VisitCommandTree | job/configVisitor.go:194-262 | the tree of a command, or the error, as specified |
| JobVisitor.Visitor.VisitCommands | job/configVisitor.go:264-286 | the loop over child commands |
| JobVisitor.Visitor.VisitHostGroup | job/configVisitor.go:160-192 | the group of a host without its command, or the error |
| JobVisitor.Visitor.VisitHostTree | job/configVisitor.go:98-106 | the host's group with the shared command, bounded and safeguarded |
| JobVisitor.Visitor.VisitHostTrees | job/configVisitor.go:108-125 | the loop over hosts |
| JobVisitor.Visitor.VisitConfigTree | job/configVisitor.go:59-136 | the tree of a job, or the error, as specified, so any two builders see the same nodes and names |
| JobValid.CommandAccepted | job/configVisitor.go:194-286 | a command is accepted if and only if it and all below it are valid |
| JobValid.LocalizedValid | job/configVisitor.go:139-158 | made local, a command is valid if and only if it is so apart from its timeouts |
| JobValid.ConfigAccepted | job/configVisitor.go:59-192 | a job is accepted if and only if it is valid |
| JobValid.ErrorIsTrue | job/configVisitor.go:59-286 | what the visitor says is wrong with a job is wrong with it: its hosts, a timeout, a command at some depth, or something to forward without a connection |
| JobSafety.Sound | job/executionTree.go:60-644 | a run of a tree that passes the check lacks nothing, whatever fails or is cancelled |
| JobSafety.StepsTakenEquipped | job/executionTree.go:76-644 | no step is ever taken without the values it is documented to require |
| JobSafety.LacksExactlyIf | job/executionTree.go:76-644 | a step lacks something if and only if its context is without something it requires, and then the first of what it looks up; else it can be taken |
| JobSafety.FailsExactlyIf | job/executionTree.go:76-644 | a step that lacks nothing may fail if and only if it opens a file, listens, connects or starts a program |
| JobContexts.ContextsKeep | job/executionTree.go:26-33 | a property of contexts that no step takes away holds in every run of all contexts in which steps are taken |
| JobContexts.TimeoutTightens | job/executionTree.go:193-216 | after a timeout is set a context may be done exactly in the runs in which it might before, and in those that last as long |
| JobContexts.DoneStaysDone | job/executionTree.go:193-216 | in a run in which a context may be done, every context of every step under it may be done, whatever limits are set there |
| JobContexts.JobWritesToItsOutput | job/executionTree.go:82-124 | every step of a job after the second is taken with the job's own output file, or with standard output if it names none |
| JobSafety.CommandIsSafe | job/configVisitor.go:194-286 | the tree of a command passes, given a logger, templating and, if it is remote, a client |
| JobSafety.HostIsSafe | job/configVisitor.go:160-192 | the tree of a host passes, given an output and a logger |
| JobSafety.ConfigIsSafe | job/configVisitor.go:59-136 | the tree of every job passes with nothing given |
| JobSafety.JobLacksNothing | job/configVisitor.go:59-136 | no run of any job has a step that lacks an output, a logger, templating or a client |
| JobMeaning.CommandMeans | job/configVisitor.go:194-286 | compiler correctness: the tree of a command can do a trace and end with an error if and only if the command means that, cancelled or not |
| JobMeaning.CommandHandsNothingOn | job/executionTree.go:285-298 | a command's context does not leave it |
| JobMeaning.OutputOfACommand | job/configVisitor.go:204-226 | a command's stdout and limit are those of its scope; its stderr is so exactly if the streams do not share a file or stderr went there already |
| JobMeaning.RunsInItsScope | job/executionTree.go:436-544 | a command that succeeds has run in the scope its preparations left |
| JobLocal.LocalizedMeans | job/configVisitor.go:84-91 | a localized command means what the original says when it is read with every step local and no limit set |
| JobLimits.RunsThrough | job/executionTree.go:193-216 | where nothing is cancelled from outside and no limit is up, no step is cut short |
| JobLimits.CutShortByItsLimits | job/configVisitor.go:220-226 | a command is cut short only if the scope around it is done or a limit set in it is up |
| JobLimits.LocalizedHasNoLimit | job/configVisitor.go:139-158 | commands made local have no time limits |
| JobLimits.LimitsKeptExactlyIf | job/configVisitor.go:139-158 | made local, a command's limits are up in the same runs if and only if no command in it sets one |
| JobWhole.HostEnds | job/configVisitor.go:160-192 | a host's group does what the host means: log, templating, connection, then the command |
| JobWhole.HostTreeEnds | job/executionTree.go:258-298 | guarded, it always returns without an error |
| JobWhole.TargetsEnd | job/configVisitor.go:98-125 | one host, or all hosts in parallel, do what they mean |
| JobWhole.JobEnds | job/configVisitor.go:59-136 | compiler correctness for whole jobs, whatever is cancelled and whichever limits are up |
| JobHosts.GuardsHold | job/executionTree.go:258-298 | a group in safeguard and bounds runs as it would alone and never fails |
| JobHosts.GuardedInParallel | flunc/flunc.go:59-100 | guarded groups in parallel, their context not done, all run to their ends, and the parallel group succeeds |
| JobHosts.HostsAreIsolated | job/configVisitor.go:98-133 | an undisturbed job that reaches its hosts runs each to its end as if alone, whatever fails or times out on others, and then runs post |
| JobHosts.CommandsStayInScope | job/executionTree.go:285-298 | a command changes only redirections and limits of the contexts in it |
| JobHosts.CommandsServeTheirHost | job/configVisitor.go:160-192 | every command in a host's group runs with that host's logger, templating engine and client |
| JobHosts.PreAndPostStayLocal | job/configVisitor.go:84-90 | no run of pre or post runs anything remotely |
| JobCounts.AtMost | job/executionTree.go:305-334 | no run takes a step more often than the attempts on its path allow |
| JobCounts.MostOfCommand | job/configVisitor.go:251-259 | that bound, for the tree of a command, is the sum over its places of the products of max(1, retries) on the path |
| JobCounts.StepsAreBounded | job/configVisitor.go:194-286 | the two together |
| JobCounts.CanFailEachTime | job/executionTree.go:305-334 | a command has a run in which it fails in every attempt, and in that it is taken as often as the bound allows |
| JobCounts.RetriedAsSaidExactlyIf | job/configVisitor.go:253-255 | a command has a run that takes it once and then as often as its retries say if and only if they are 0 |
| JobLate.HappensIsRun | flunc/flunc.go:71-98 | with the events after a group's return or without them, what happens before is a run |
| JobLate.RunHappens | flunc/flunc.go:71-98 | every run happens with nothing after its groups' returns, also if its context may be done in more ways |
| JobLate.RestsHappen | flunc/flunc.go:79-84 | when a parallel group fails, all its branches have left to do may still happen |
| JobLate.LateCount | job/executionTree.go:305-334 | the events before and after together are no more than the attempts on the path of a step allow |
| JobLate.AllStepsAreBounded | job/configVisitor.go:194-286 | so for a command no step is taken more often than the sum of these products, late steps included |
| JobLate.PreAndPostStayLocalLate | job/configVisitor.go:84-90 | nothing of pre or post runs remotely, late steps included |
| JobLate.LateSound | job/executionTree.go:60-644 | in a tree that passes the check late steps lack nothing |
| JobLate.JobNeverLacks | job/configVisitor.go:59-136 | no step of any job lacks anything, late steps included |
| JobLate.LateStaysInScope | job/executionTree.go:285-298 | the contexts of a command's late steps differ from its own by redirections and limits only |
| JobLate.AllCommandsServeTheirHost | job/configVisitor.go:160-192 | every command in a host's group runs with that host's logger, templating engine and client, late ones included |
| JobProbes.WatchedErased | telemetry/telemetry.go:66-78 | the logger under all telemetry loggers is the original one |
| JobProbes.ProbesAddNothing | telemetry/telemetry.go:30-63 | every run of an instrumented tree is, without its telemetry, a run of the plain tree |
| JobProbes.ProbesLoseNothing | telemetry/telemetry.go:30-63 | every run of the plain tree is such a run |
| JobProbes.InstrumentedJob | telemetry/builder.go:20-165 | instrumenting keeps the meaning of every job: same actions, order, errors and contexts, the telemetry loggers aside |
| JobProbes.ProbesHideAMissingLogger | telemetry/telemetry.go:31-37 | outside of safe trees instrumenting can change the meaning |
| JobNesting.LogNests | telemetry/telemetry.go:39-62 | without parallel groups the log of every run, with failures and retries, is a bracket word nested as the tree |
| JobNesting.LogEncloses | telemetry/telemetry.go:39-62 | with parallel groups, where nothing fails, everything logged below a node lies between its start and its end, in every interleaving |
| JobNames.CommandNamed | telemetry/naming.go:57-154 | within a command a name belongs to one node |
| JobNames.HostsNamed | telemetry/naming.go:100-106 | besides the command's nodes, which all hosts share, a name belongs to one node of the hosts |
| JobNames.JobNamed | telemetry/naming.go:57-154 | in a whole job a name belongs to one node |
| JobTiming.EventStore.Store | telemetry/event.go:49-53 | appends an event |
| JobTiming.EventStore.Get | telemetry/event.go:56-61 | gives all events |
| JobTiming.EventStore.Reset | telemetry/event.go:65-71 | gives all events and empties the store |
| JobTiming.Timing.StoreNode | telemetry/timing.go:90-94 | a new node under its name and its host, all others untouched |
| JobTiming.Timing.Apply | telemetry/timing.go:51-73 | one event changes the start, the node it names and the job's time, as specified |
| JobTiming.Timing.ApplyStore | telemetry/timing.go:44-48 | all events, one after the other |
| JobTiming.OwnMarksCount | telemetry/timing.go:51-73 | a node's time depends on its own marks only |
| JobTiming.NothingStarted | telemetry/timing.go:51-73 | as long as nothing has started, no time is taken for the job's |
| JobTiming.RuntimeIsEndMinusStart | telemetry/timing.go:62-67 | a node that starts and ends once took the time between |
| JobTiming.JobRuntimeIsLastEndMinusFirstStart | telemetry/timing.go:52-72 | the job took from the first start to the last end of a timed node |
| JobTimes.NewTiming | telemetry/timing.go:22-33 | one node for each host, under the name of the host's group |
| JobTimes.HostNames | telemetry/naming.go:104-106 | the names of the hosts' groups differ |
| JobTimes.GuardedMarks | telemetry/telemetry.go:39-62 | a host's group is logged once at its start and once at its end |
| JobTimes.HostMarks | job/configVisitor.go:98-125 | in an undisturbed run, each host's group is not started, or started once and ended once |
| JobTimes.HostRuntime | telemetry/timing.go:51-73 | applying the log gives each host its own end minus its own start |
| JobTimes.TimeJob | telemetry/timing.go:22-73 | from config and log: every host's runtime, and the job's from first start to last host end |
| JobRunner.FindOriginalLogger | telemetry/telemetry.go:66-78 | the loop finds the logger below all telemetry loggers |
| JobRunner.Runner.RunStep | job/executionTree.go:82-644 | a step looks up what it needs, in order, and does or fails to do its work |
| JobRunner.Runner.RunSequential | flunc/flunc.go:22-47 | the loop checks for cancellation, passes contexts on and stops at the first error |
| JobRunner.Runner.RunSafeguard | job/executionTree.go:258-279 | an error of the child is swallowed, its context otherwise passed on |
| JobRunner.Runner.RunBounds | job/executionTree.go:285-298 | the child's context is dropped, its error kept |
| JobRunner.Runner.RunRetry | job/executionTree.go:305-334 | the loop ends at the first success, or with the last error |
| JobRunner.Runner.RunProbe | telemetry/telemetry.go:30-63 | start, the step with a telemetry logger, end or failure |
| JobRunner.Runner.RunTree | job/executionTree.go:26-33 | running a tree without parallel groups does one of the things the tree can do |
| FluncParallel.StepKeepsSane | flunc/flunc.go:71-98 | every step of the loop and the goroutines keeps what is said of them |
| FluncParallel.AlwaysSane | flunc/flunc.go:59-100 | after every schedule: nil means that all children returned nil and were received, an error is a child's or the context's |
| FluncParallel.NeverStuck | flunc/flunc.go:87-98 | while the loop waits, a child is at work or a step is enabled that brings it on |
| FluncParallel.NoChildStaysBlocked | flunc/flunc.go:79-84 | after the loop has returned, every schedule can be extended, by drops only, until no child is left at its send |
| FluncParallel.NoFailureNoCancellation | flunc/flunc.go:87-98 | without failure and cancellation the loop returns only when all children have, with nil |
| FluncRefinement.SchedulesAreRuns | flunc/flunc.go:59-100 | what a schedule of steps brings about is a run of the parallel group |
| FluncRefinement.RunsHaveSchedules | flunc/flunc.go:59-100 | every run of the parallel group is brought about by a schedule |
| TreeText.SimpleBranch.Append | job/tree.go:62-75 | appends the children that are present, in order |
| TreeText.SimpleBranch.Wrap | job/tree.go:78-80 | the branch with the children appended so far |
| TreeText.AppendTees | job/tree.go:82-118 | the loop over children that are not the last |
| TreeText.String | job/tree.go:82-118 | the rendering as programmed is the specified one |
| TreeText.RenderIsBlock | job/tree.go:82-118 | the text is the block of lines that marks children and indents what is below them |
| TreeText.TextTellsTree | job/tree.go:82-118 | two fully shown trees with one-line labels have the same text if and only if they are the same tree |
| TreeText.LineForEachNode | job/tree.go:82-118 | the text has one line for each node |
| TreeText.ShortenedText | job/tree.go:96-103 | a tree that is not fully shown has the text of the fully shown tree that has, at each depth, a leaf with the number of the children left out in their place |
| TreeText.Drawing | job/tree.go:82-118 | how two children with a child each are drawn, character by character |
| LineComments.RemoveLineComment | job/config.go:282-295 | the loop cuts at the first indicator that seems outside a string, and nowhere else |
| LineComments.SeemsAfter | job/config.go:278-295 | counting quotes is a one-pass scanner: only a quote without a backslash before it changes sides |
| LineComments.RightExactlyIf | job/config.go:278-295 | that scanner agrees with the literals of section 7 of RFC 8259 everywhere if and only if each backslash before a quote escapes it |
| LineComments.PlainBackslashesEscape | job/config.go:278-295 | which holds without doubled backslashes and without backslashes outside of strings |
| LineComments.CutsOutsideLiterals | job/config.go:282-295 | then lines are cut at indicators outside of literals only |
| LineComments.EscapedBackslashFools | job/config.go:278-295 | a literal that ends in an escaped backslash is taken to go on |
| ExecutorRuns.Executor.AddRunning | executor.go:352-362 | admits a run exactly if its file has no entry, and so does the step of every state that it stands for |
| ExecutorRuns.Executor.RemoveRunning | executor.go:365-370 | deletes the file's entry, whatever run it is about, as the step does |
| ExecutorRuns.Executor.AddComplete | executor.go:392-401 | appends to the history and keeps the latest, as the step does |
| ExecutorRuns.Executor.IsRunning | executor.go:373-377 | tells the run listed for a file, as a removal looks it up |
| ExecutorRuns.Executor.Remove | executor.go:303-309 | finds a file's run and deletes its entry, as a removal's two steps do |
| ExecutorRuns.Executor.Run | executor.go:75-110 | an admitted run ends in the history and out of the running map, a rejected one changes nothing |
| ExecutorRuns.RecentOneMore | executor.go:392-401 | keeping the latest after each run is keeping the latest of the whole history |
| ExecutorRuns.StepKeepsBooks | executor.go:303-370 | every critical section keeps the books right: entries, cancel functions, removals and history |
| ExecutorRuns.BooksAlwaysRight | executor.go:75-110 | under every interleaving entries are unfinished runs with their cancel function set, and the history has each finished run once |
| ExecutorRuns.OneRunForEachFile | executor.go:352-362 | a file of which no removal has found a run has at most one run under way, the one listed |
| ExecutorRuns.CompletedIsRecent | executor.go:392-401 | the completed list is a suffix of the history, no longer than the maximum |
| ExecutorRuns.AdmittedRunsComplete | executor.go:75-110 | an admitted run can always go on until it is in the history |
| ExecutorRuns.RemovalLetsRunsOverlap | executor.go:303-322 | there is a schedule with one removal after which two runs of a file are under way |
| ExecutorRuns.OverlapExactlyIf | executor.go:303-370 | from every state, runs of a file can come to overlap without a further removal that finds one if and only if a removal has yet to delete the file's entry or a run of it is under way that is not listed |

## Left out

- `args` and `scp` in scp/scp.go: flag parsing and the choice of source or sink; the model starts with both flags and an absolute directory.
- Texts of errors and log messages. The reply an end writes when it gives up carries any text.
- Errors of writing to the channels, which the code ignores for acks and for replies; in the model writes succeed.
- What the operating system does by itself: umask, and the change of a directory's time when something is put into it.
- The lexer's goroutine and channel: the channel is the sequence of items.
- ScpLex leaves open which runes above U+007F are numbers; the results hold for any such table.
- The SSH and socket side of jobs (job/scp.go, job/tunnel.go, job/context.go, job/cert.go, job/client.go): steps that succeed or fail at will.
- Templating, shell word splitting, regular expressions, opening of output files: part of such a step. A local command of blanks only, on which the code panics, is a step that fails. Closing the files when their context is done is not modelled.
- Parsing of durations and of hosts files: any function from text, any list of hosts. Hosts come in a fixed order, where the code takes the random order of a map; a null in a list of commands, on which the code panics, does not occur.
- JSON and the reading of files around it (job/config.go). Of the comment stripper the inner loop is modelled; that the rewritten lines lose their newlines is not.
- Clocks: a context may be done at any moment of a run that lasts as long as one of its limits; when exactly is open, and so is which of several limits is up first.
- What the other children of a parallel group do after it has returned an error is no part of the traces of JobRuns; JobLate has it, without saying when it comes.
- JobMeaning.CommandMeans: is about the traces of JobRuns, because what comes after a group's return does not change how a command ends.
- JobWhole.JobEnds: is about the traces of JobRuns, for the same reason.
- JobHosts.HostsAreIsolated: is about the traces of JobRuns; that what comes later still serves its own host is JobLate.AllCommandsServeTheirHost.
- JobSafety.JobLacksNothing: is about the traces of JobRuns; for later steps see JobLate.JobNeverLacks.
- JobCounts.AtMost: counts in the traces of JobRuns; for later steps see JobLate.LateCount.
- JobCounts.StepsAreBounded: counts in the traces of JobRuns; for later steps see JobLate.AllStepsAreBounded.
- ScpLex.Lexer.Error: does not say what the error's text is.
- ScpSource.Source.WriteFile: reads a file as a whole or not at all; reads that break off are steps of ScpSession.
- ScpSession lets a read of the source fail before any line, where the code reads before some lines only.
- ScpRefusal.TreeTakenExactlyIf: is about names without newlines, because others are not one line; and not about trees in which a file that is too short comes first, or one with a zero byte at its announced end, because there the sink takes bytes of one thing for another.
- ScpRefusal.SessionSucceedsExactlyIf: leaves out names with newlines, and trees in which a file with a zero byte at its announced end comes first, for the same reason.
- ScpLockstep.ScriptIsGood: leaves out such a file in a directory: what follows it is out of step with the sink.
- ScpLockstep.SessionOverATree: leaves out the same trees, and names with newlines.
- ScpFormat.NamedLinesOnly: says of numbers with other than ASCII digits only that they are read; their values are those that come with the conversion errors the code drops.
- ScpFormat.TimesLinesOnly: as NamedLinesOnly.
- ScpEffects.FileTakenExactlyIf: says of a message that is not taken its error only; what is on the disk when the input breaks off is in ScpTruncation.ContentCut.
- ScpAcks.SourceIsTold: is about a source that could read everything; ScpAcks.SourceStops is about one that gets its acks, and ScpLockstep has runs in which both go wrong.
- JobValid.ErrorIsTrue: does not say which error is reported of a job with several.
- JobTiming.Timing.StoreNode: asks for a name and a host that are not stored yet, as the names and hosts of a job are; the code would overwrite.
- JobTimes.NewTiming: takes the names of the hosts' groups as a parameter; JobTimes.TimeJob gives it those that visiting the config yields.
- JobRunner.Runner.RunTree: does not take trees with parallel groups, because those are the step system of FluncParallel, which FluncRefinement relates to the same runs.
- JobRunner.Runner.RunSequential: as RunTree.
- JobRunner.Runner.RunSafeguard: as RunTree.
- JobRunner.Runner.RunBounds: as RunTree.
- JobRunner.Runner.RunRetry: as RunTree.
- JobRunner.Runner.RunProbe: as RunTree.
- JobNesting.LogEncloses: is stated for runs in which nothing fails, because a child of a failed parallel group can be logged after the group.
- JobTimes.HostMarks: is stated for undisturbed runs, because a cancelled hosts group returns before its hosts end, and their ends can come after the job's.
- Telemetry's log messages, the formatting of its loggers, and the visualization and string builders with their labels and colours.
- Node names are the counter's numbers; that the code makes UUIDs of them, and that its counter wraps around at 2^64, is not modelled.
- TreeText.String: does not interpolate host values into labels.
- Scheduling, activation, the lists of the executor's interface, its output buffers and sending telemetry (executor.go); of Remove, the part about running jobs is modelled.
