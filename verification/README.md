# A verified model of the conversion relay

This project models the stack that turns typed romaji into Japanese text through a
serial conversion engine, and proves what its parts promise each other. It has two
halves.

**The relay.** A client sends lines to a daemon; the daemon asks a `Session` (batch
conversions, with a cache, remembered hints and a background prefetch) or a
`SessionEngine` (one live composition); both drive a child process that can fail to
start, die, fall silent or answer in any pieces.

- `Proto`, `Lines`, `Process`: the line format, line-buffered parsing of a stream that
  arrives in pieces, and the child as a script of arbitrary outcomes with the bounded
  read loop over it.
- `WorkerInput`: the commands that a worker reads in one write, and what it may print for
  them.
- `SessionProtocol`, `SessionEngine`, `SessionWorker`, `SessionDiscipline`,
  `SessionReplies`, `SessionStale`: the session engine as functions, as a class proved equal
  to them, and two whole-run results, each with its exact condition: which commands a
  worker can see outside a composition, and that no reply is stale.
- `SessionMachine`: what the commands mean. Over workers that report what some composition
  does with each command, the engine is that composition, call by call.
- `HarnessProtocol`, `HarnessEngine`, `HarnessReplies`, `HarnessStale`: the same for the
  batch engine, with the native printer of result blocks and its round trip through the
  parser.
- `BatchMeaning`: over workers that print some items for each question, flat and enriched, a
  call returns exactly these items. `Patience`: how long is waited and how often tried.
- `Candidates`, `Session`, `ListMeaning`: the cache and the built list, one call at a time, and
  what the list holds in terms of what the workers print.
- `Threads`, `ThreadsLocks`, `ThreadsProgress`, `ThreadsCache`, `ThreadsSolo`,
  `ThreadsBuilds`, `ThreadsPriority`: any number of callers, the prefetch worker and the
  destructor as one step relation over three locks and a condition variable. The main theorem is `ThreadsCache.CacheIsInvisible`;
  `ThreadsSolo` shows that a call nobody interferes with comes to what the method of the
  class does, both stated by the same functions of `Candidates`; `ThreadsBuilds` says what
  keeps a list from being built twice and that nothing less does, `ThreadsPriority` when
  the prefetch goes first.
- `Wire`, `Relay`, `Sockets`, `Daemon`, `Client`: what goes over the socket, for any backend.
- `WireWords`: the lines of the protocol document, letter by letter, down to the calls of the
  two engines and up to what the client returns.
- `Stack`, `EndToEnd`: the backend as it is, `Session` and `SessionEngine` behind one
  daemon, and the main theorem `EndToEnd.StackOverSocketIsDirect`, from the bytes that the
  client writes to the answers it returns.
- `Tidy`, `TidyEngines`, `StackClean`, `StackReplies`: what workers have to print for that
  theorem to hold of every conversation (`StackClean.TidyWorkersMakeItDirect`), and which
  requests keep the answers of the workers apart (`StackReplies.ServingIsNeverStale`).

**The native text machinery.** `TextStore` (a document in a fixed array, edited by
overlapping moves), `Composition` (the composition buffer, its range and its commit),
`SinkTable` (advised sinks, cookies, references) and `AtomRegistry` (GUIDs and atoms).
Each is a class over an array, proved against a value-level specification, with results
about whole runs. `CompositionKeys` says what is typed and committed in key codes and
characters; `CompositionText` proves the buffer to be plain text over any mix of
operations, and which text each commit appends; `CompositionSink` says what the owner of
a context hears of it. `Search` and `Wrappers` hold what the tables share.

## Conventions

The child process is a script of moves, one per call: whether the call works, what the
worker emits, how many bytes a read delivers. Statements quantify over all scripts; past
its end a script only fails. The output for a command enters the pipe when the command is
written, and a read delivers any prefix of the pipe, the empty one standing for a
timeout. The read loops of `ensureWarm`, `readReply` and `readBlock` have the same shape in the
code and share one verified loop here, with a line handler each.

In `Threads` each lock acquisition, critical section, counter update, engine entry and
engine exit is a step of its own. As in the code an empty pending reading is the absence
of one, so an empty reading is never prefetched. The engine is a relation
between a reading and the answers it may give; the transparency theorem is stated first
for any engine (lists are built from answers given for that reading) and then for one
that answers each reading always the same way.

A worker divides what is written to it at every CR, LF and semicolon, so a typed text or a
reading can carry further commands. Two things depend on that.

- A carried command can end a composition unnoticed. `RunsAreDisciplined` therefore asks
  that typed texts are harmless and that `start` is called only while no composition is
  active; `SessionDiscipline.TypeIsSafeExactlyWhenHarmless` and `StartIsSafeExactlyWhenIdle`
  show that both are the exact conditions.
- A worker prints an answer for each command, and the engine reads one for each write, so
  the answer to a carried command is taken for that to the next call.
  `RepliesAreNeverStale` and `BlocksAreNeverStale` ask that every write is a single command;
  `SessionStale.TypeIsSafeExactlyWhenSingle` and `HarnessStale.ReadingIsSafeExactlyWhenSingle`
  show that this is the exact condition, and `HarnessStale.StaleReadingRun` is a run where
  a reading gets the answer to another.

A text without those three characters is harmless and single. No text from the socket
holds a CR or LF; a semicolon gets through, in key texts and in readings.

What the worker does with a session command is not part of this model: a composition
counts as open from the reply accepted after an `sreset` to the next command that ends it,
kill or respawn. Replies do not name their command, so where one write carries an
`sreset` behind other commands, that reply can be the one to an earlier command of the write.

The messages of a conversation are assumed clean (no tab, CR or LF), and only the outcomes
met along it; `Relay.ConveysExactlyWhenClean` shows that nothing less would do, and
`StackClean.TalkIsClean` that workers which print clean lines meet it. `SetText` is defined
for a start within the text or a text that does not fit; a start behind the text with room
left would give its move a negative size.

## Where the code and its documentation differ

The model follows the code.

- `include/atzc/proto.h:55` leaves CR and LF to the caller of `split_tabs`; the code drops them
  wherever they stand in the line.
- `src/session.cpp:74` calls the alternatives deduplicated; only repeats of the commit are
  removed from the flat list. It is free of repeats if and only if the list of the engine
  repeats at most the commit (`Candidates.FlatListHasNoRepeats`, with
  `Candidates.RepeatedAlternativeStays` for a list where it is not).
- `include/atzc/session.h:10` gives foreground calls priority over the prefetch; the courtesy
  wait is bounded (`ThreadsPriority.CourtesyEndsExactly`), so a prefetch can enter the
  engine before a waiting caller (`ThreadsPriority.PrefetchOvertakes`), but only after 200 looks or
  before a caller that came after the last look (`ThreadsPriority.OvertakenOnlyThen`).
- `include/atzc/session_engine.h:77` speaks of a second attempt on an empty worker; a failed
  write is reported without another attempt (`SessionDiscipline.CommandSendsOnce`).
- `src/session.cpp:143` looks a reading up again because it may have been built meanwhile; the
  store comes after the engine is free, so two callers can still build the same reading
  (`ThreadsSolo.AReadingCanBeBuiltTwice`). Without such an overlap every store is of an
  uncached reading (`ThreadsBuilds.NoOverlapNoSecondBuild`), and from every such overlap some
  schedule stores a cached one (`ThreadsBuilds.OverlapCanBuildTwice`).

## Model

| member | source | states |
|---|---|---|
| Proto.SplitTabs | include/atzc/proto.h:56-69 | the splitting loop yields the fields of the line, with every CR and LF dropped |
| Proto.JoinTabs | include/atzc/proto.h:72-80 | the joining loop yields the fields with one tab between neighbours and one newline at the end |
| Proto.SplitJoinExact | include/atzc/proto.h:56-80 | splitting undoes joining if and only if the list is non-empty and no field holds a tab, CR or LF |
| Proto.JoinedOfFields | include/atzc/proto.h:56-80 | joining undoes splitting up to the CR and LF characters that are dropped, for every line |
| Proto.JoinedIsInjective | include/atzc/proto.h:72-80 | different lists of clean fields have different lines |
| Proto.JoinedHasNoNewline | include/atzc/proto.h:72-80 | a message of clean fields is one line on the wire |
| Lines.ScanInPieces | src/harness_engine.cpp:73-101 | parsing a stream in two pieces, with the partial line carried over, equals parsing it whole, for any line handler |
| Lines.LinesOfText | src/harness_engine.cpp:76-80 | lines printed one after another are the lines read back |
| Process.HarnessProcess.Spawn | include/atzc/harness_process.h:25-28 | a launch replaces any worker; whether one runs afterwards is exactly whether the launch worked |
| Process.HarnessProcess.Terminate | include/atzc/harness_process.h:33-34 | no worker runs afterwards and its unread output is gone |
| Process.HarnessProcess.Write | include/atzc/harness_process.h:36-38 | a write that works puts the output for the command behind the unread output; it never changes whether a worker runs |
| Process.HarnessProcess.Read | include/atzc/harness_process.h:40-43 | a read appends a prefix of the unread output, possibly nothing, or fails and appends nothing |
| Process.TakeLines | src/harness_engine.cpp:76-80 | the inner loop takes complete lines off the buffer until the handler stops, and leaves exactly what one pass leaves |
| Process.ReadLoop | src/session_engine.cpp:39-59 | the outer loop on the live process equals its recursive specification: result, buffer, process state, end of file or silence |
| Process.TakenIsAPrefix | src/harness_engine.cpp:102-109 | bytes are conserved: what was in the pipe is what the loop took followed by what is still there |
| Process.LoopIsOnePass | src/harness_engine.cpp:73-112 | for every division into reads, the loop has computed one pass over its buffer followed by the bytes it took, and keeps what that pass left |
| Process.HitIsOnePass | src/session_engine.cpp:76-108 | a loop that finds its answer agrees with one pass over the whole stream, and buffer plus pipe is what that pass left unread |
| Process.ChunkingIsIrrelevant | src/session_engine.cpp:76-108 | two divisions of the same stream give the same answer and the same unread bytes |
| Process.DrainedStreamIsAnswered | src/harness_engine.cpp:73-112 | if reads with fewer empty polls than the limit drain the pipe, the loop finds any answer the stream holds |
| Process.DrainedStreamHits | src/harness_engine.cpp:73-112 | such a loop never gives up before the answer |
| Process.PatienceIsBounded | src/harness_engine.cpp:102-111 | the empty polls of a loop stay within its limit, and reach it exactly when it gives up on a live worker |
| Process.ReadingKeepsTheWorker | src/posix_harness_process.cpp:103-162 | reading never changes whether a worker runs |
| SessionEngine.SessionEngine.EnsureWarm | src/session_engine.cpp:35-59 | respawn and wait for the ready line, with every failure branch and its message; on a failed launch the flag `active_` is untouched |
| SessionEngine.SessionEngine.WriteCmd | src/session_engine.cpp:61-72 | one write, after a respawn if no worker runs; on failure the worker is gone and no composition is active |
| SessionEngine.SessionEngine.ReadReply | src/session_engine.cpp:76-108 | the first reply line of the wanted kind, other lines passed over, the rest left in the buffer |
| SessionEngine.SessionEngine.RunCmd | src/session_engine.cpp:110-119 | write then read, with termination and the flag cleared when no reply comes |
| SessionEngine.SessionEngine.Begin | src/session_engine.cpp:121-125 | `sreset`, and the flag is set exactly to its success |
| SessionEngine.SessionEngine.Type | src/session_engine.cpp:127-131 | an implicit begin first, then `stype`; nothing is typed when the begin failed |
| SessionEngine.SessionEngine.Backspace | src/session_engine.cpp:133-139 | without a composition nothing is sent |
| SessionEngine.SessionEngine.Convert | src/session_engine.cpp:141-147 | without a composition an error and nothing sent |
| SessionEngine.SessionEngine.Preedit | src/session_engine.cpp:149-155 | without a composition the empty text and nothing sent |
| SessionEngine.SessionEngine.Commit | src/session_engine.cpp:157-165 | the composition is over whether or not the commit worked |
| SessionEngine.SessionEngine.Cancel | src/session_engine.cpp:167-172 | nothing is sent to an idle live worker; otherwise `scancel`, and the composition is over |
| SessionEngine.SessionEngine.Start | src/session_engine.cpp:24-27 | the one-time bring-up, then a first worker |
| SessionEngine.SessionEngine.Stop | src/session_engine.cpp:29-32 | no worker and no composition afterwards |
| WorkerInput.PlainLineIsSingle | engine/native/AtTipLoad/AtTipLoad.c:679-705 | a line without CR, LF and semicolon is at most one command, however long it is and whatever else it holds |
| WorkerInput.TwoCommandsAreNotSingle | engine/native/AtTipLoad/AtTipLoad.c:1205-1220 | two texts with a semicolon between them, on a line that is kept whole, are exactly these two commands |
| WorkerInput.SingleWrite | engine/native/AtTipLoad/AtTipLoad.c:1194-1220 | whatever is printed command by command: a write of at most one command is answered at most once |
| WorkerInput.PrintsTwo | engine/native/AtTipLoad/AtTipLoad.c:1611-1647 | a write of two commands can be answered by both, one answer behind the other |
| WorkerInput.LongLineIsCut | engine/native/AtTipLoad/AtTipLoad.c:703-705 | what stands behind the first 511 characters of a line is dropped, commands included |
| WorkerInput.CaseAndBlanksDoNotMatter | engine/native/AtTipLoad/AtTipLoad.c:1194-1220 | a command is the same in capitals and behind blanks |
| WorkerInput.NulEndsTheLine | engine/native/AtTipLoad/AtTipLoad.c:679-705 | a line ends for the dispatcher at its first NUL |
| SessionWorker.OpenMeansAcknowledged | src/session_engine.cpp:121-125 | an open stage means that an `sreset` was read, a reply accepted after it, and nothing that ends a composition came since: no such command, kill or respawn |
| SessionWorker.Roles | include/atzc/session_engine.h:8-14 | the words of the protocol by what they need, end and begin |
| SessionWorker.HarmlessExactly | engine/native/AtTipLoad/AtTipLoad.c:679-705 | a typed text is harmless if and only if the write carries no command that ends a composition, or an `sreset` behind the last such command, and none that needs a composition behind the first |
| SessionWorker.PlainTextIsHarmless | engine/native/AtTipLoad/AtTipLoad.c:1194-1220 | a text without CR, LF and semicolon is one `stype` to the worker, whatever else it holds and however long it is, and so harmless |
| SessionWorker.CarriedCommitIsHarmful | engine/native/AtTipLoad/AtTipLoad.c:679-705 | a line end and `scommit` behind any text end the composition behind the back of the engine |
| SessionWorker.CommitBehindSemicolonIsHarmful | engine/native/AtTipLoad/AtTipLoad.c:1205-1220 | so does a semicolon, as long as the line fits the line buffer |
| SessionDiscipline.WarmKeepsDiscipline | src/session_engine.cpp:35-59 | a respawn ends any composition, and only a launch that fails outright leaves the flag as it was |
| SessionDiscipline.RunCmdKeepsDiscipline | src/session_engine.cpp:61-119 | a command whose write is allowed at its stage keeps the discipline; when it fails there is no worker and no active composition, so it never wedges the engine; a successful one adds exactly the command and its reply to the trace, after a possible respawn |
| SessionDiscipline.ApplyKeepsInv | src/session_engine.cpp:24-172 | every public call, with a harmless text and a `start` only when idle, keeps: an active flag means a running worker in an open stage, counting every command in every write |
| SessionDiscipline.RunsAreDisciplined | src/session_engine.cpp:29-172 | over every sequence of calls whose typed texts are harmless, and every spawn, write and read outcome, no worker reads `stype`, `sback`, `sconv`, `spre` or `scommit` outside a composition it has acknowledged itself, also not as a further command of a write |
| SessionDiscipline.PlainRunsAreDisciplined | src/session_engine.cpp:127-131 | the same under what a caller can check: no typed text holds a CR, an LF or a semicolon |
| SessionDiscipline.TypeIsSafeExactlyWhenHarmless | src/session_engine.cpp:127-131 | the exact condition: typing into an active composition is safe for every environment and every later run if and only if the text is harmless |
| SessionDiscipline.HarmfulTextStrays | src/session_engine.cpp:127-139 | after a text that is not harmless, in an environment that answers it, a command strays at the next backspace at the latest |
| SessionDiscipline.CarriedCommitRun | src/session_engine.cpp:121-139 | counterexample: `begin`, `type` of "a", a line end and "scommit", then `backspace`, from a fresh engine |
| SessionDiscipline.CommandSendsOnce | src/session_engine.cpp:61-119 | no second attempt: a command makes exactly one write if a worker runs or can be warmed, none otherwise, and succeeds only if that write works |
| SessionDiscipline.StrayKeystroke | src/session_engine.cpp:35-38 | counterexample: `start` in the middle of a composition with a failing relaunch leads to an `stype` on a worker that never saw `sreset` |
| SessionDiscipline.StartIsSafeExactlyWhenIdle | src/session_engine.cpp:24-38 | the exact condition: calling `start` is safe for every environment and every later run with harmless texts if and only if no composition is active |
| SessionReplies.ReplyIsTheAnswer | src/session_engine.cpp:76-108 | a reply found behind unread noise is the one reply line of the wanted kind that was printed, and what stays unread is noise again |
| SessionReplies.RepliesAreNeverStale | src/session_engine.cpp:35-131 | over every run with workers that print at most one reply line for each command they read, among any noise, and with typed texts that stay one command, every accepted reply is the payload printed for the write just made, across timeouts, kills and respawns |
| SessionReplies.PlainRepliesAreNeverStale | src/session_engine.cpp:127-131 | the same under what a caller can check: no typed text holds a CR, an LF or a semicolon |
| SessionReplies.CommandEndsWithItsReply | src/session_engine.cpp:110-119 | a successful command ends the trace with its own line and then exactly the text it returns |
| SessionReplies.AnswersAreNeverStale | src/session_engine.cpp:76-119 | after any such run, the text a successful command returns is the payload of a reply line of the kind it wants, printed for its own write |
| SessionStale.LeftReplyIsReturned | src/session_engine.cpp:76-108 | a reply left in the buffer answers the next command, whatever it is and whatever is printed for it |
| SessionStale.TwoCommandsStray | src/session_engine.cpp:127-139 | counterexample for every text of two commands: typed and followed by `backspace`, over polite workers, the backspace gets the reply to the second command |
| SessionStale.TypeIsSafeExactlyWhenSingle | src/session_engine.cpp:127-131 | the exact condition: in an active composition, typing a text is safe for every environment of polite workers and every later run of single commands if and only if its write holds at most one command |
| SessionMachine.CommitPayload | src/session_engine.cpp:78-93 | the payload of a finished composition is exactly what stands behind "ATD COMMIT ", and such a line answers no other command |
| SessionMachine.PreeditPayload | src/session_engine.cpp:78-93 | the payload of a preedit is exactly what stands behind "ATD PRE ", nothing for a bare "ATD PRE", and such a line answers no commit |
| SessionMachine.CallIsPromised | include/atzc/session_engine.h:8-14 | a successful call does to the composition of the worker what its word means (start over, append these keys, delete, convert, look, finish, abandon), returns what the composition reports, and leaves a composition active exactly as promised; keys begin one where there is none |
| SessionMachine.EngineIsTheComposition | src/session_engine.cpp:121-172 | over every run of calls that succeed with polite workers which report what a composition does, the texts returned are those of the composition held directly |
| SessionMachine.ReportedTextIsReturned | src/session_engine.cpp:61-119 | over a live worker that reports a text for a command, behind any unread noise, the call returns exactly this text and leaves nothing unread |
| SessionMachine.CommitReturnsWhatIsPrinted | src/session_engine.cpp:157-165 | a commit over a worker that prints "ATD COMMIT" and a text returns that text, and nothing is active afterwards |
| SessionReplies.AnswerIsUnique | src/session_engine.cpp:76-108 | there is only one payload such a command can have |
| HarnessEngine.HarnessEngine.EnsureWarm | src/harness_engine.cpp:35-58 | respawn and wait for the ready line, every failure branch included |
| HarnessEngine.HarnessEngine.Attempt | src/harness_engine.cpp:62-66 | one turn of the retry loop: no warm worker, delivered, or a broken pipe and no worker |
| HarnessEngine.HarnessEngine.WriteCmd | src/harness_engine.cpp:60-70 | the retry loop: at most two attempts, each on a warm worker, with a kill between them |
| HarnessEngine.HarnessEngine.ReadBlock | src/harness_engine.cpp:73-112 | fills the result line by line until END; on failure it may be left partly filled |
| HarnessEngine.HarnessEngine.RunCmd | src/harness_engine.cpp:114-122 | a command whose block does not come leaves no worker |
| HarnessEngine.HarnessEngine.TopOne | src/harness_engine.cpp:124-130 | the `henkan` command |
| HarnessEngine.HarnessEngine.Convert | src/harness_engine.cpp:132-142 | the `convert` command, with both lists cut to a positive maximum |
| HarnessEngine.HarnessEngine.Start | src/harness_engine.cpp:25-28 | the one-time bring-up, then a first worker |
| HarnessEngine.HarnessEngine.Stop | src/harness_engine.cpp:30-32 | no worker afterwards |
| HarnessProtocol.WriteCost | src/harness_engine.cpp:60-70 | delivering a command costs at most one launch and one write per attempt; success means a running worker, failure none |
| HarnessProtocol.CommandCost | src/harness_engine.cpp:60-122 | a batch command costs at most two launches and two writes, and a worker runs afterwards exactly if it succeeded |
| HarnessReplies.EmitResult | engine/native/AtTipLoad/AtTipLoad.c:156-170 | the native printing loop writes BEGIN, the head as COMMIT if there is one, one CAND per string and END, each line ended by CR LF |
| HarnessReplies.NoiseIsTransparent | src/harness_engine.cpp:76-101 | lines without a known tag change neither the result nor where the parser stops |
| HarnessReplies.PrintedBlockIsReadBack | src/harness_engine.cpp:73-101 | printer and parser undo each other: whatever came before and whatever noise is mixed in, the captured list and its head as commit are read back and the rest holds nothing the parser reacts to |
| HarnessReplies.PrintedBlockThroughThePipe | src/harness_engine.cpp:73-112 | the same through the pipe, for every division into reads with empty polls below the limit |
| HarnessReplies.BlockForgets | src/harness_engine.cpp:83-87 | a block that begins before it ends does not depend on what the result held before |
| HarnessReplies.BlocksAreNeverStale | src/harness_engine.cpp:35-142 | over every run with workers that print at most one block for each command they read, and with readings that stay one command, every accepted block is the one printed for the write just made |
| HarnessReplies.PlainBlocksAreNeverStale | src/harness_engine.cpp:124-142 | the same under what a caller can check: no reading holds a CR, an LF or a semicolon |
| HarnessReplies.CommandEndsWithItsBlock | src/harness_engine.cpp:60-122 | a successful command ends the trace with its own line and then exactly the result it returns |
| HarnessReplies.AnswersAreNeverStale | src/harness_engine.cpp:35-122 | after any such run, what a successful single command returns is the block printed for its own line, read on its own |
| HarnessStale.PrintedIsABlock | engine/native/AtTipLoad/AtTipLoad.c:156-170 | what the native loop prints for any list of strings without newlines is such a block, at most one END with a BEGIN before it |
| HarnessStale.FirstBlockIsReturned | src/harness_engine.cpp:73-101 | a write answered by two blocks returns the first, and buffer and pipe then hold exactly the second |
| HarnessStale.LeftBlockIsReturned | src/harness_engine.cpp:73-101 | a block left in the buffer answers the next command, whatever it is and whatever is printed for it |
| HarnessStale.TwoCommandsStray | engine/native/AtTipLoad/AtTipLoad.c:1611-1647 | counterexample for every line of two commands, in every state: polite workers answer it and any next command, and the next command returns the block of the second one |
| HarnessStale.ReadingIsSafeExactlyWhenSingle | src/harness_engine.cpp:124-142 | the exact condition: asking for a reading is safe for every environment of polite workers and every later run of single commands if and only if its write holds at most one command |
| HarnessStale.StaleReadingRun | engine/native/AtTipLoad/AtTipLoad.c:1205-1220 | counterexample from a fresh engine: `topOne` of "ka;henkan ki", then of any reading, returns for it what was printed for "ki" |
| BatchMeaning.CommitIsRead | src/harness_engine.cpp:89 | a COMMIT line sets the commit to what stands behind the word |
| BatchMeaning.FlatIsRead | src/harness_engine.cpp:90 | a CAND line adds what stands behind the word at the end of the flat list |
| BatchMeaning.RichIsRead | src/harness_engine.cpp:92-100 | the fields of a CANDX line are surface, reading and part of speech, missing ones empty; without a surface it adds nothing |
| BatchMeaning.TripleIsRead | src/harness_engine.cpp:92-100 | a CANDX line of three clean fields adds exactly that entry at the end of the enriched list |
| BatchMeaning.BlockIsSaid | src/harness_engine.cpp:83-101 | a block of any commits, flat and enriched items, in any order and with either line end, is read as the last commit, the flat ones in order and the enriched ones in order, whatever the result held before |
| BatchMeaning.BlockThroughThePipe | src/harness_engine.cpp:73-112 | the same through `readBlock`, behind unended lines, among ignored ones, for every division into reads with empty polls below the limit |
| BatchMeaning.PrinterSaysItsStrings | engine/native/AtTipLoad/AtTipLoad.c:156-170 | the lines of the native printer are the block of its first string as the commit and of each string as a flat candidate |
| BatchMeaning.TopOneIsSaid | src/harness_engine.cpp:124-130 | over workers that print what they have to say to each question, `topOne` returns what is said to "henkan" with that reading |
| BatchMeaning.CappedIsCut | src/harness_engine.cpp:135-141 | a positive maximum keeps the first so many of the flat and of the enriched list, any other keeps all, and the commit stays |
| BatchMeaning.ConvertIsSaid | src/harness_engine.cpp:132-142 | `convert` returns what is said to "convert" with that reading, both lists cut to the maximum |
| Patience.ReadyInSixtySeconds | src/session_engine.cpp:39-59 | a live worker is given up for not reporting ready after exactly sixty silent polls of a second |
| Patience.BlockInThirtySeconds | src/harness_engine.cpp:73-112 | the same for a block, after thirty |
| Patience.ReplyInThirtySeconds | src/session_engine.cpp:76-108 | the same for a reply, after thirty |
| Patience.SecondAttemptDelivers | src/harness_engine.cpp:60-70 | a write that is lost with its worker is repeated on a new one, and the block printed there is the result |
| Patience.NoThirdAttempt | src/harness_engine.cpp:60-70 | when the second write is lost too the command fails, with its message and without a worker |
| Patience.NothingToConvert | src/session_engine.cpp:141-147 | without a composition a convert is refused with its message and sends nothing |
| Patience.LaunchFails | src/session_engine.cpp:35-38 | a launch that fails is reported with its own message |
| Patience.WriteFails | src/session_engine.cpp:61-72 | so is a write that fails, or else with the message of the engine, and then neither a worker nor a composition is left |
| Patience.NoReply | src/session_engine.cpp:97-107 | a worker that goes away without a message or stays silent is reported as one that produced no reply |
| Candidates.BuiltListLeadsWithCommit | src/session.cpp:82-100 | a non-empty commit leads the flat list and occurs once; the rest is the engine list in order, at exactly the positions of other values |
| Candidates.FlatListHasNoRepeats | src/session.cpp:98-100 | the flat list has no repeats if and only if every value that the engine list repeats is the commit |
| Candidates.RepeatedAlternativeStays | src/session.cpp:74 | counterexample: an engine list that holds another value twice |
| Candidates.BuiltCommit | src/session.cpp:84-97 | the commit is the remembered top-1, else that of a successful `topOne`, else that of the full list |
| Candidates.BuiltEnrichedList | src/session.cpp:102-108 | pairwise distinct surfaces, covering all surfaces, and exactly the first occurrences of the henkan list followed by the reconversion list |
| Candidates.HintIsInvisible | src/session.cpp:84-97 | a hint that repeats the own answer of the engine changes nothing in the built list |
| Candidates.FreshReadingEnters | src/session.cpp:45-55 | a fresh reading enters at the back, with 64 cached the oldest leaves, and a cached one keeps its place |
| Candidates.HintIsRemembered | src/session.cpp:57-61 | a hint is found again; the others stay unless there were more than 64, and then all go |
| Candidates.HintIsTaken | src/session.cpp:63-70 | a hint is used once, and taking it leaves the others |
| ListMeaning.ConsultIsUncut | src/session.cpp:82-97 | the list is built from one answer to "henkan" and then one uncut answer to "convert" |
| ListMeaning.ListHoldsWhatIsPrinted | src/session.cpp:82-155 | over such workers the list that is kept holds every flat candidate printed for the reading and no other, behind its commit, and the first entry of every enriched surface of both questions; a maximum only cuts what is returned |
| ListMeaning.BatchEngineAnswersSo | src/session.cpp:82-97 | the answers of the batch engine over such workers are answers of the engine that the interleavings assume |
| ListMeaning.ReturnedListHoldsWhatIsPrinted | src/session.cpp:111-182 | in every interleaving a returned list is a cut of one that holds exactly the candidates printed for its reading and leads with a commit printed for it |
| Session.Session.CacheGet | src/session.cpp:32-38 | a hit exactly for the cached readings, with the cached value |
| Session.Session.CachePut | src/session.cpp:45-55 | the eviction loop: a new reading enters at the back, the oldest beyond 64 leave queue and map together |
| Session.Session.RememberTop1 | src/session.cpp:57-61 | the hint is stored, after a drop of all hints when there are too many |
| Session.Session.TakeTop1 | src/session.cpp:63-70 | the hint is returned and removed, the empty text when there is none |
| Session.MergeFlat | src/session.cpp:98-100 | the filling loop: the commit, then the other values in order |
| Session.MergeEnriched | src/session.cpp:104-107 | the uniting loop: the first entry of each surface, henkan entries first |
| Session.Session.BuildCandidates | src/session.cpp:82-109 | takes the hint, asks the engine twice, and on success returns the built list; a failure of `convert` returns its error |
| Session.Session.Top1 | src/session.cpp:111-132 | the answer of the engine; on success the hint is remembered and an uncached reading handed to the prefetch |
| Session.Session.GetCandidates | src/session.cpp:134-155 | a hit touches neither engine nor cache; a miss builds, caches the uncut list and returns it cut; a failure caches nothing |
| Session.Session.PrefetchPending | src/session.cpp:157-181 | one turn of the worker: a cached reading is skipped, another is built and stored if that works |
| ThreadsLocks.LocalLock | src/session.cpp:111-182 | each step passes each lock between free and the moving thread exactly as its program point says |
| ThreadsLocks.StepKeepsInv | src/session.cpp:19-182 | every step of every thread keeps lock ownership, the waiting counter, the stop flag and the absence of lost wake-ups |
| ThreadsLocks.EngineIsSerial | src/session.cpp:111-182 | in every reachable state at most one thread is inside the engine |
| ThreadsLocks.WaitingIsExact | src/session.cpp:113-142 | `fg_waiting_` is the number of foreground calls between their increment and their decrement, never negative, positive exactly if there is one |
| ThreadsLocks.LockOrder | src/session.cpp:23-182 | locks are taken only in the order engine, cache, and the queue lock alone |
| ThreadsLocks.StepKeepsWakeup | src/session.cpp:125-162 | no lost wake-up: a sleeping worker with a pending reading or a set stop flag is about to be notified |
| ThreadsProgress.NoDeadlock | src/session.cpp:23-182 | in every reachable state someone can move, or all callers have returned and the worker sleeps or has exited |
| ThreadsProgress.QuietMeansDone | src/session.cpp:23-182 | in a reachable state where nobody can move every call has returned, all locks are free, and after stop the worker and the destructor are done |
| ThreadsProgress.StepLowersMeasure | src/session.cpp:111-182 | every step that is neither a new call nor a spurious wake-up lowers a measure |
| ThreadsProgress.EveryCallReturns | src/session.cpp:111-182 | without new calls and spurious wake-ups a schedule from a reachable state is at most as long as the measure, and where it can go no further everything is done |
| ThreadsProgress.WorkerStopsSoon | src/session.cpp:157-181 | from every reachable state in which `stop_` is set the worker takes no other reading and its remaining steps are bounded, under every schedule |
| ThreadsProgress.StopIsOneIteration | src/session.cpp:23-30 | the worker makes at most the steps of one iteration after `stop_` |
| ThreadsCache.CacheIsAWindow | src/session.cpp:45-55 | in every reachable state the queue has no repeats, holds exactly the cached readings, and is the last 64 that entered anew, in order; each value is the one last stored |
| ThreadsCache.CandidatesAreBuilt | src/session.cpp:134-155 | for any engine and schedule, a returned list is built from answers the engine gave for that very reading, cut to that maximum; a failure happens only where `convert` may fail |
| ThreadsCache.Top1IsTheAnswer | src/session.cpp:111-132 | for any engine and schedule, `top1` returns an answer of `topOne` for its reading |
| ThreadsCache.OneBuildPerReading | src/session.cpp:82-109 | with an engine that answers each reading always the same way, there is one list a reading can have, whatever hint was used |
| ThreadsCache.CacheIsInvisible | src/session.cpp:82-182 | with such an engine every `candidates(r, max)`, in every interleaving of callers, prefetch and destructor, succeeds exactly if `convert(r)` does and returns exactly the uncached recomputation cut to max |
| ThreadsCache.ListLeadsWithTop1 | src/session.cpp:72-75 | with such an engine a returned list leads with the non-empty commit that any `top1` of the reading returned |
| ThreadsSolo.CandidatesAlone | src/session.cpp:134-155 | without interference the steps of `candidates` (hit, miss or failure) return what the method of the class returns and leave the memory as it does, with all locks free |
| ThreadsSolo.Top1Alone | src/session.cpp:111-132 | the same for `top1`, up to its notification |
| ThreadsSolo.PrefetchAlone | src/session.cpp:157-181 | the same for one turn of the worker |
| ThreadsSolo.AReadingCanBeBuiltTwice | src/session.cpp:143-153 | a schedule in which two callers build and store the same uncached reading, since the store comes after the engine is free again |
| ThreadsBuilds.NoOverlapNoSecondBuild | src/session.cpp:146-179 | over every run in which no two calls or prefetches of one reading are between their second look and their store at once, every store finds its reading uncached |
| ThreadsBuilds.OverlapCanBuildTwice | src/session.cpp:146-179 | the other direction: from every reachable state with two builders of one reading that the engine can convert, whoever holds the locks, some schedule stores the reading while it is cached |
| ThreadsPriority.CourtesyEndsExactly | src/session.cpp:168-171 | in every reachable state the worker ends its courtesy wait if and only if no caller is counted at that look or its 200 looks are used up |
| ThreadsPriority.OvertakenOnlyThen | src/session.cpp:168-173 | if a caller is counted after the courtesy wait has ended, then the looks were used up with a caller counted, or a caller counted itself after the last look |
| ThreadsPriority.PrefetchOvertakes | src/session.cpp:168-173 | a schedule from the start to a state in which the worker owns the engine while a caller that counted itself before the first look is still waiting |
| Wire.VerbOfName | src/atzcd/main.cpp:101-211 | every operation name is dispatched to its own operation |
| Wire.NumberRoundTrip | src/atzcd/main.cpp:118 | `atoi` reads back what `to_string` printed |
| Wire.NumbersOfPeers | src/atzcd/main.cpp:118 | a number of any peer is read with its sign up to the first other character, and is zero where none stands |
| Wire.TriplesRoundTrip | src/client.cpp:155-165 | flattening entries into triples and grouping them by three again loses exactly the entries without a surface, wherever the triples stand |
| Relay.RequestIsUnderstood | src/client.cpp:92-97 | every request line of the client is dispatched to the call it stands for, with the same reading and its maximum, or zero for one below one, which is not sent |
| Relay.ReplyIsUnderstood | src/atzcd/main.cpp:107-219 | for every outcome whose fields in the reply are clean the client reads exactly what a direct caller is handed, an empty payload as empty |
| Relay.ConveysExactlyWhenClean | src/atzcd/main.cpp:107-219 | for every request but the enriched one, the client reads the direct response if and only if those fields are clean |
| Relay.RelayIsDirect | src/atzcd/main.cpp:94-224 | one request through client and daemon makes the step of the direct call, with the maximum of the caller, and yields its response in one line, given that its own outcome is clean |
| Relay.ConversationIsDirect | src/atzcd/main.cpp:94-224 | a conversation of any length is the same conversation held directly: same final backend, same responses in order; only the outcomes met along it have to be clean |
| Relay.MessagesAreRequestLines | src/client.cpp:92-97 | what the client writes for clean requests is read by the daemon as exactly their request lines |
| Relay.StreamAnswersRequests | src/client.cpp:70-118 | the k-th line of the byte stream the client receives decodes to the direct answer to its k-th request, and there are no other lines; only the outcomes met along the conversation have to be clean |
| Relay.OneReplyPerRequest | src/atzcd/main.cpp:94-224 | any peer, any lines: one reply for each line with a non-empty first field and none for others, in order, each in the backend state of its turn |
| Relay.RepliesUnderFailingWrites | src/atzcd/main.cpp:94-224 | the same for any write results: the lines served are all up to the first whose reply could not be written and whose write is checked; the replies are those of these lines, in order, without the ones whose write failed |
| Relay.EveryReplyIsOneLine | src/atzcd/main.cpp:94-224 | every reply to any line, the complaints about malformed requests included, is one LF-terminated line, given that the one outcome it carries, if any, is clean |
| WireWords.RequestsAreWrittenSo | docs/protocol.md:19-67 | the request lines of the client are those of the document, with the maximum only if it is positive |
| WireWords.SessionRequest | docs/protocol.md:58-67 | each session request line makes its own call of the session engine, with the same keys, touches nothing else, and is answered by an error with its message, the committed text behind "commit", a bare "ok", or the preedit behind "ok" |
| WireWords.ConvertRequest | docs/protocol.md:19-31 | "convert" asks for the top conversion only, answers with commit and candidates, remembers the commit and leaves an uncached reading to the prefetch |
| WireWords.CandidatesRequest | docs/protocol.md:19-31 | "candidates" and "session-candidates" answer with commit and flat list of the one call, cut to the maximum sent |
| WireWords.CandidatesExRequest | docs/protocol.md:29-37 | "candidates-ex" answers with the commit and three fields for each enriched entry, in order; only without any, for each flat surface with two empty fields |
| WireWords.EnrichedIsReadBack | src/client.cpp:147-165 | the client gets the enriched entries that have a surface, or without any the non-empty flat surfaces with empty reading and part of speech |
| WireWords.DirectAnswers | src/client.cpp:92-206 | what a caller in the same process is handed, request by request |
| WireWords.AskingForNothing | src/atzcd/main.cpp:94-224 | an empty operation is not answered; a ping, a missing reading, missing keys and an unknown operation are answered at once and ask nothing, and only the complaint about a reading may go unwritten |
| WireWords.ClientReadsList | src/client.cpp:92-118 | an "ok" line is read as its commit and its candidates |
| WireWords.ClientReadsText | src/client.cpp:181-206 | a text stands behind "commit" for a commit and behind "ok" otherwise; a bare verb is the empty text and a cancel hands out none |
| WireWords.ClientReadsError | src/client.cpp:92-206 | an error is refused with its message, one without a message with that of the client |
| WireWords.ClientRefuses | src/client.cpp:92-206 | any other verb is refused by name |
| WireWords.ClientReadsPong | src/client.cpp:169-179 | a ping is answered by any line that begins with "pong" |
| WireWords.GroupsOfThree | src/client.cpp:152-165 | groups of three fields are entries in order, a short last group has empty fields, and a group without a surface is none |
| WireWords.ClientReadsRows | src/client.cpp:130-167 | an "okx" line is read as its commit, the entries from the third field on, and their surfaces as the flat list; a bare one is empty |
| WireWords.RequestComesTo | src/client.cpp:70-118 | a request comes to no connection, a message not sent, no reply, or what is made of the first line of the stream, with the rest kept for the next |
| Sockets.ReadLine | src/atzcd/main.cpp:41-54 | for every division into pieces the line is the first of buffer plus stream, every later byte is kept, and there is none exactly if the stream holds no newline |
| Daemon.ReplyOk1 | src/atzcd/main.cpp:68-72 | an empty payload is a bare verb |
| Daemon.FlatReply | src/atzcd/main.cpp:125-127 | the loop pushes commit and candidates in order |
| Daemon.EnrichedFields | src/atzcd/main.cpp:146-159 | both loops: triples of the enriched list, or of the plain surfaces with empty reading and part of speech |
| Daemon.EncodeReply | src/atzcd/main.cpp:121-219 | the reply line for each operation and outcome |
| Daemon.ServeConn | src/atzcd/main.cpp:94-224 | the connection loop writes exactly the replies of its specification, until the stream ends or a checked write fails |
| Client.Client.Connect | src/client.cpp:33-54 | a new connection starts with an empty receive buffer; a failure leaves none |
| Client.Client.RecvLine | src/client.cpp:70-90 | the next line of the stream, whatever its pieces; every later byte is kept |
| Client.Client.Exchange | src/client.cpp:94-100 | dials if need be, writes at most one message, reads at most one line |
| Client.Client.RequestList | src/client.cpp:92-118 | the response is that of the next line; every failure branch |
| Client.Client.CandidatesEx | src/client.cpp:130-167 | the same for enriched entries |
| Client.Regroup | src/client.cpp:152-165 | the grouping loop, with a short last group padded and empty surfaces skipped |
| Client.Client.Ping | src/client.cpp:169-179 | any line that starts with the answer counts |
| Client.Client.SimpleReq | src/client.cpp:181-206 | the session requests, with the expected verb |
| Client.ClientOverDaemonIsDirect | src/client.cpp:92-206 | for any backend, a series of client requests over a daemon serving their lines gives, answer for answer, what calling the backend directly gives; only the outcomes met along it have to be clean |
| Stack.StackCutsNothingBelowOne | src/session.cpp:134-155 | every maximum below one means no cut in the stack, so nothing is lost when it is not sent |
| Stack.DaemonKeysAreOneLine | src/atzcd/main.cpp:94-224 | whatever line the daemon gets, the key text it passes on holds no CR or LF, and is harmless unless it holds a semicolon |
| Stack.ServingIsDisciplined | src/atzcd/main.cpp:94-224 | whatever lines any peer sends and whichever writes fail, the session workers behind the daemon stay disciplined as long as the key texts are harmless |
| Stack.LinesWithoutSemicolonAreHarmless | src/atzcd/main.cpp:179-188 | that condition concerns key texts with a semicolon only |
| Stack.SemicolonGetsThrough | src/atzcd/main.cpp:179-188 | counterexample: a request with the key text "a;scommit" |
| EndToEnd.AskAll | src/client.cpp:92-206 | a series of calls of the client returns the answers of the specification and writes exactly the messages of its requests, in order |
| EndToEnd.Converse | src/client.cpp:92-206 | client and daemon class joined: the daemon serves the bytes of the client in any pieces, the client reads its replies; every answer is the direct one and the backend ends where direct calls leave it |
| EndToEnd.ServedAnswers | src/atzcd/main.cpp:94-224 | the same as a statement about the two byte streams, for every division of each into pieces and any backend |
| EndToEnd.StackOverSocketIsDirect | src/atzcd/main.cpp:94-224 | end to end for `Session` and `SessionEngine` behind the daemon, with prefetches in between: the client gets, answer for answer, what direct calls with the same arguments give |
| EndToEnd.DirectListIsTheSessionCall | src/session.cpp:134-155 | such a list answer is the outcome of the one `Session` call, cut to the maximum of the caller |
| StackReplies.DaemonTextsAreOneLine | src/atzcd/main.cpp:94-224 | whatever line the daemon gets, the reading or key text it passes on holds no CR or LF, and is one command unless it holds a semicolon |
| StackReplies.ReadingOfTwoGetsThrough | src/atzcd/main.cpp:111-124 | counterexample: a request for the candidates of "a;convert b" is passed on as that reading, which is two commands |
| StackReplies.ServingIsNeverStale | src/atzcd/main.cpp:94-224 | whatever lines any peer sends whose texts stay one command, whichever writes fail and whenever a prefetch runs, no block and no reply that the two engines accepted belongs to another write |
| TidyEngines.BatchCommandIsClean | src/harness_engine.cpp:35-122 | over workers that print clean lines, CANDX lines apart, the result and the message of a batch command are clean, also when it fails halfway |
| TidyEngines.SessionCommandIsClean | src/session_engine.cpp:35-119 | over workers that print clean lines the text or the message of a session command is clean |
| StackClean.TalkIsClean | src/atzcd/main.cpp:94-224 | over such workers every conversation of clean requests fits on lines, with cached lists, hints and prefetches included |
| StackClean.TidyWorkersMakeItDirect | src/atzcd/main.cpp:94-224 | end to end from a fresh stack: if the workers print clean lines and errors are clean, every series of clean requests gets the answers of direct calls, for every division of both streams |
| TextStore.Memmove | engine/native/AtTipLoad/crtshim.c:34-50 | upward and downward copying of overlapping ranges have the effect of a copy through a third place (section 7.24.2.2 of ISO/IEC 9899:2011) |
| TextStore.TextStore.QueryInsert | engine/native/AtTipLoad/textstore.c:161-179 | accepts exactly if the text fits in place of the clamped range, and reports the clamped start |
| TextStore.TextStore.SetSelection | engine/native/AtTipLoad/textstore.c:204-220 | the selection is the clamped range, the text is unchanged, and a sink is told of the selection |
| TextStore.TextStore.GetText | engine/native/AtTipLoad/textstore.c:222-252 | the text between the clamped positions, at most as much as asked for, and the next position |
| TextStore.TextStore.SetText | engine/native/AtTipLoad/textstore.c:264-295 | the in-place edit is a splice: prefix, new text, suffix; the caret behind it; the change record, also told to a sink; a rejected edit changes nothing and tells nothing |
| TextStore.TextStore.InsertTextAtSelection | engine/native/AtTipLoad/textstore.c:297-322 | a query changes nothing, tells nothing and reports the change; an insertion is the edit of the selection with its notification |
| TextStore.TextStore.AppendChar | engine/native/AtTipLoad/textstore.c:568-591 | one character at the end while a place stays free, the selection by the interim flag, and both notifications exactly if the text grew |
| TextStore.EditReadsBack | engine/native/AtTipLoad/textstore.c:222-295 | an inserted text is read back from the place its change record names |
| TextStore.ChangeAccountsForAll | engine/native/AtTipLoad/textstore.c:275-292 | the record accounts for every character outside the edit: before it unchanged, behind it shifted by the difference of its ends; the document stays valid |
| TextStore.EditIsUndone | engine/native/AtTipLoad/textstore.c:264-295 | an edit is undone by putting back what its record says it replaced |
| TextStore.SeparateEditsCommute | engine/native/AtTipLoad/textstore.c:279-284 | edits of separate ranges commute once the later one is shifted |
| TextStore.InsertionsAddUp | engine/native/AtTipLoad/textstore.c:264-322 | two insertions at the selection are one insertion of both texts, accepted or rejected alike |
| TextStore.RunOfInsertions | engine/native/AtTipLoad/textstore.c:264-322 | a series of insertions fits exactly if the whole text does, and gives the same document |
| TextStore.QueryInsertDecides | engine/native/AtTipLoad/textstore.c:161-295 | `SetText` succeeds exactly if `QueryInsert` accepts, for an end that is not negative |
| TextStore.QueryInsertDecidesExactly | engine/native/AtTipLoad/textstore.c:161-295 | for any end the two agree if and only if the end is not negative, the text fits without replacing anything, or it does not fit even in place of the rest |
| TextStore.QueryInsertRefusesWhatSetTextDoes | engine/native/AtTipLoad/textstore.c:161-295 | counterexample: a full document replaced to its end by one character |
| TextStore.ClampedIsNearest | engine/native/AtTipLoad/textstore.c:204-220 | a selection within the text is taken as it is, a position outside is moved to the nearest inside, the end never before the start |
| TextStore.ReplacementIs | engine/native/AtTipLoad/textstore.c:264-295 | a replacement within the text, character by character, with the caret behind it; it is rejected exactly if more than 4096 characters would result |
| TextStore.OutsideIsMoved | engine/native/AtTipLoad/textstore.c:270-274 | a negative start is the beginning, a negative end or one behind the text is its end, an end before the start is the start |
| TextStore.ReadIs | engine/native/AtTipLoad/textstore.c:222-252 | reading within the text gives the characters from the start, up to the end or as many as asked for, whichever is less |
| TextStore.ReadOutside | engine/native/AtTipLoad/textstore.c:222-252 | a negative start reads from the beginning, a negative end or one behind the text to its end, an end before the start nothing |
| TextStore.AppendedIs | engine/native/AtTipLoad/textstore.c:568-591 | one more character unless it is zero or 4095 are there; an interim one leaves all selected, a final one the caret at the end |
| Composition.Context.StartComposition | engine/native/MsctfShim/MsctfShim.c:1676-1695 | the text is empty and active, cells and range stay as they were; exactly if there is a composition object the sink is taken over, with the one reference held to it and none to the sink before, and the object is handed out; the call fails otherwise |
| Composition.Context.SyncChar | engine/native/MsctfShim/MsctfShim.c:575-585 | a character of the host joins the buffer if there is room |
| Composition.Context.AppendKey | engine/native/MsctfShim/MsctfShim.c:1066-1125 | letters, digits, backspace, return, space and convert, and nothing for other keys; what a sink of the owner is told: start and update for letters and digits, the end for a return, by the flag before the key |
| Composition.Context.RangeGetText | engine/native/MsctfShim/MsctfShim.c:1222-1244 | the text of the clamped range that fits the caller with its end mark |
| Composition.Context.RangeSetText | engine/native/MsctfShim/MsctfShim.c:1246-1278 | accepts exactly if the new length stays below 256; then the cells, the end mark and the range are as specified |
| Composition.Context.ShiftStart | engine/native/MsctfShim/MsctfShim.c:1285-1294 | the start stays between zero and the end |
| Composition.Context.ShiftEnd | engine/native/MsctfShim/MsctfShim.c:1296-1304 | the end stays at or behind the start |
| Composition.Context.FlushCompTextToStore | engine/native/MsctfShim/MsctfShim.c:1482-1497 | the buffer is appended to the document if it is not empty and fits |
| Composition.Context.EndComposition | engine/native/MsctfShim/MsctfShim.c:1499-1517 | an active composition is flushed and over; otherwise nothing happens |
| Composition.Context.Reset | engine/native/MsctfShim/MsctfShim.c:5542-5554 | an empty, inactive buffer with its range; the document is untouched |
| Composition.RangeEditIsASplice | engine/native/MsctfShim/MsctfShim.c:1246-1278 | a range edit splices the text if the range starts within it, and replaces everything behind the start otherwise; the new length is that of a splice if and only if the range starts within the text |
| Composition.RangeEditReadsBack | engine/native/MsctfShim/MsctfShim.c:1222-1278 | written text is read back from where the range began |
| Composition.StaleCellsComeToLight | engine/native/MsctfShim/MsctfShim.c:1676-1685 | counterexample: after a start the range still spans the old text, and shifting it before writing brings back an old character |
| Composition.ApplyIsSound | engine/native/MsctfShim/MsctfShim.c:537-585 | whatever operation: the buffer stays below 256 and NUL-terminated, the range ordered, and only ending an active composition touches the document |
| Composition.DocumentIsCommits | engine/native/MsctfShim/MsctfShim.c:1482-1517 | over every run the document is what it was plus the committed buffers, in order |
| Composition.EndTwice | engine/native/MsctfShim/MsctfShim.c:1499-1517 | a repeated end changes nothing |
| Composition.BufferIsTyped | engine/native/MsctfShim/MsctfShim.c:1066-1107 | for every series of keys the buffer is the typed text with backspaces applied, capped at 255 |
| Composition.TypedTextIsCommitted | engine/native/MsctfShim/MsctfShim.c:1066-1517 | one composition from start to end adds exactly the typed text to the document, if it has room, whatever buffer and range held before |
| CompositionKeys.LetterIsTyped | engine/native/MsctfShim/MsctfShim.c:1066-1107 | the keys A to Z append the letters a to z in lower case, while a place is left among 255, and make the composition active |
| CompositionKeys.DigitIsTyped | engine/native/MsctfShim/MsctfShim.c:1066-1107 | the keys 0 to 9 append themselves |
| CompositionKeys.OtherKeys | engine/native/MsctfShim/MsctfShim.c:1082-1103 | by key code: backspace takes the last character, return only ends, space and convert only begin, and any other key does nothing |
| CompositionKeys.KeyIsHeard | engine/native/MsctfShim/MsctfShim.c:1066-1125 | by key code: what the owner hears of a key |
| CompositionKeys.HostCharacterJoins | engine/native/MsctfShim/MsctfShim.c:575-585 | a character of the host joins the text like a typed one but begins nothing, and a zero is none |
| CompositionKeys.WordIsCommitted | engine/native/MsctfShim/MsctfShim.c:1066-1517 | start, the keys of a romaji word and end add exactly the characters of the word to the document, with the caret behind them |
| CompositionKeys.ShiftsAreNearest | engine/native/MsctfShim/MsctfShim.c:1285-1304 | the start moves as far as asked between zero and the end, the end as far as asked behind the start |
| CompositionKeys.RangeIsRead | engine/native/MsctfShim/MsctfShim.c:1222-1244 | a reader gets the characters of the range, one fewer than it has places for if that is less |
| CompositionKeys.WriteIsTakenExactly | engine/native/MsctfShim/MsctfShim.c:1246-1278 | a write within the text is taken exactly if the new text keeps below 256; then it stands in place of the range, and the range is the whole text |
| CompositionText.WriteIsPlainExactly | engine/native/MsctfShim/MsctfShim.c:1246-1278 | the exact condition: a range edit does to the text what it does to plain text if and only if the range begins within the text or the edit is refused either way |
| CompositionText.RunIsPlain | engine/native/MsctfShim/MsctfShim.c:1066-1517 | over every mix of operations whose writes begin within the text, the context behaves as plain text: cells behind the text never matter |
| CompositionText.ComposedTextIsCommitted | engine/native/MsctfShim/MsctfShim.c:1246-1517 | from a start, over any mix of keys, characters, shifts and such writes, the committed text is that of plain text and does not depend on the old cells |
| CompositionText.StartLosesOpenText | engine/native/MsctfShim/MsctfShim.c:1676-1685 | a start on an active composition loses the open text: whatever it was, it is neither appended nor seen again |
| CompositionText.CommitAppendsTextSinceStart | engine/native/MsctfShim/MsctfShim.c:1482-1517 | a commit appends what the operations since the last start made of the empty text, whatever happened before |
| CompositionText.WithoutStartTextIsAppendedAgain | engine/native/MsctfShim/MsctfShim.c:1499-1517 | without a start the buffer outlives its commit: a key and another end append the same text once more |
| CompositionText.OpeningsAreSettledOnce | engine/native/MsctfShim/MsctfShim.c:1499-1517 | the count: each opening of a run, by a start or a key, is appended, lost, suspended or still open, and the document grows by the appended texts |
| CompositionText.EveryOpeningHasOneFate | engine/native/MsctfShim/MsctfShim.c:1482-1517 | opening by opening: each has one fate, followed from where it opens; the texts a run appends are exactly those of the openings closed by an end, in order, and the texts it throws away exactly those closed by a start or a reset |
| CompositionText.ResetLosesOpenText | engine/native/MsctfShim/MsctfShim.c:5542-5554 | a reset loses the open text as a start does: whatever it was, it is neither appended nor seen again |
| CompositionSink.KeyActivates | engine/native/MsctfShim/MsctfShim.c:1066-1103 | the flag after a key |
| CompositionSink.BracketedExactly | engine/native/MsctfShim/MsctfShim.c:1066-1125 | over every series of keys the owner hears well-bracketed starts, updates and ends if and only if no letter, digit or return follows a composition that a backspace or a conversion key has opened silently |
| SinkTable.Source.AdviseSink | engine/native/MsctfShim/MsctfShim.c:2653-2677 | a full table refuses; otherwise the sink is entered under the next non-zero cookie, referenced once, and once more if it fills the legacy slot, with its identifier |
| SinkTable.Source.FindSink | engine/native/MsctfShim/MsctfShim.c:905-916 | the look-up by identifier: the first entry with it, else the legacy slot |
| SinkTable.SlotNeverDecides | engine/native/MsctfShim/MsctfShim.c:905-916 | what the legacy slot could offer to a look-up is an entry as well, so a look-up succeeds if and only if an entry has the identifier |
| SinkTable.Source.UnadviseSink | engine/native/MsctfShim/MsctfShim.c:2750-2776 | the first entry with the cookie is released and the gap closed, the legacy slot released if it carries the cookie; an unknown cookie changes nothing |
| SinkTable.Source.CloseGap | engine/native/MsctfShim/MsctfShim.c:2764-2766 | the shifting loop removes exactly one entry and keeps the order |
| SinkTable.Source.Release | engine/native/MsctfShim/MsctfShim.c:2637-2651 | the last release of the source gives back every reference |
| SinkTable.AdviseConserves | engine/native/MsctfShim/MsctfShim.c:2661-2674 | the references taken are exactly those the new table should hold besides |
| SinkTable.DropConserves | engine/native/MsctfShim/MsctfShim.c:2758-2769 | the released reference was held, and the rest is what the new table should hold |
| SinkTable.ReferencesPerSink | engine/native/MsctfShim/MsctfShim.c:2637-2776 | sink by sink: as many references as entries, plus one for the legacy slot |
| SinkTable.RunConserves | engine/native/MsctfShim/MsctfShim.c:2653-2776 | any mix of advise and unadvise conserves the references, keeps the legacy slot a mirror of a live entry and never hands out cookie zero |
| SinkTable.AdviseIsUndone | engine/native/MsctfShim/MsctfShim.c:2653-2776 | taking back a sink right after giving it restores everything but the counter |
| SinkTable.UnadviseRemovesOne | engine/native/MsctfShim/MsctfShim.c:2758-2769 | with distinct cookies exactly the entry with the cookie goes, the others keep their order |
| SinkTable.DistinctExactlyWhenUnused | engine/native/MsctfShim/MsctfShim.c:2661-2667 | cookies stay distinct if and only if the next cookie is not in use |
| SinkTable.CookiesAreDistinct | engine/native/MsctfShim/MsctfShim.c:2661-2667 | below the wrap of the 32-bit counter the cookies of live sinks are distinct, over every run |
| SinkTable.CookieIsReused | engine/native/MsctfShim/MsctfShim.c:2661-2667 | the bound is exact: with the next cookie a run can hand out one that is still in use |
| SinkTable.AdviseJoins | engine/native/MsctfShim/MsctfShim.c:2653-2677 | a sink joins at the end under the next cookie, never zero, after the last 32-bit number one again; the slot takes the first sink only; a seventeenth is refused |
| SinkTable.FirstCookies | engine/native/MsctfShim/MsctfShim.c:2661-2667 | from an empty table the k-th sink gets cookie k |
| SinkTable.UnadviseTakesTheFirst | engine/native/MsctfShim/MsctfShim.c:2758-2775 | taking back removes the first entry with the cookie and no other, also where one occurs twice, and empties the slot if it carries the cookie |
| SinkTable.FirstSinkIsFound | engine/native/MsctfShim/MsctfShim.c:905-916 | a look-up gives the first sink that was advised under the identifier |
| AtomRegistry.Registry.RegisterGUID | engine/native/MsctfShim/MsctfShim.c:4414-4439 | a known GUID gets its old atom, a new one the next atom while there is room, none when the table is full |
| AtomRegistry.Registry.GetGUID | engine/native/MsctfShim/MsctfShim.c:4441-4457 | the GUID of a used atom, an error otherwise |
| AtomRegistry.Registry.IsEqualTfGuidAtom | engine/native/MsctfShim/MsctfShim.c:4459-4478 | true exactly if the atom is that of the GUID |
| AtomRegistry.AtomAndGuidAreInverse | engine/native/MsctfShim/MsctfShim.c:4414-4457 | one look-up finds the atom if and only if the other finds the GUID |
| AtomRegistry.AtomsInUse | engine/native/MsctfShim/MsctfShim.c:4431-4435 | the atoms in use are exactly one up to the number of entries |
| AtomRegistry.AtomsAreDistinct | engine/native/MsctfShim/MsctfShim.c:4422-4435 | equal atoms if and only if equal GUIDs |
| AtomRegistry.RegisterSucceedsExactly | engine/native/MsctfShim/MsctfShim.c:4422-4435 | registering succeeds if and only if the GUID is known or there is room, and a second time changes nothing |
| AtomRegistry.PairingsArePermanent | engine/native/MsctfShim/MsctfShim.c:4414-4457 | over every run a pairing is never changed, in either direction |
| AtomRegistry.RunRegisters | engine/native/MsctfShim/MsctfShim.c:4414-4439 | every GUID of a run is known afterwards unless the table is full |
| AtomRegistry.NewGuidGetsTheNext | engine/native/MsctfShim/MsctfShim.c:4414-4439 | a new GUID gets the number of entries there are with it, up to 256; a full table and a known GUID change nothing |
| AtomRegistry.EntriesAreFound | engine/native/MsctfShim/MsctfShim.c:4414-4457 | the k-th entry is found by its GUID as k and by k as its GUID, and nothing else is found |

## Left out

- Process launch, pipes, poll, signals and sockets: only their outcomes appear, as scripts of moves, pieces and write results; every call of a script is a step, so real time is not modelled and an empty poll counts as its full second.
- The client's texts for failed connects, writes and reads, and the unreachable "empty reply" branch: the three failures are told apart, their system messages are not.
- Relay.ConveysExactlyWhenClean: not stated for enriched lists, where an unclean entry without a surface is dropped anyway.
- Error strings passed in by the caller: the session engine's are taken to be empty at the start of a call, as its callers have them.
- The null pointers for out-parameters, and a context without a text store, whose flush does nothing.
- Machine integers: lengths, ranges and counters are unbounded except the sink cookies, whose 32-bit wrap is modelled; the text fits the 32-bit range in all arrays involved.
- The truncation of captured strings to their fixed buffers, which happens before the printer sees them.
- TextStore.Memmove: moves array elements, not bytes; ranges of whole characters are moved, so the two agree.
- Process.HarnessProcess.Read: the chunk is a prefix of output already in the pipe; output of a live worker without a command is not modelled after its launch.
- SessionReplies.RepliesAreNeverStale: assumes workers that print whole lines, at most one reply line per command, and none before the first; nothing could be said of others.
- Composition.Context.StartComposition: the ownership variant, which resets the buffer in the same way, is not modelled.
- TextStore.TextStore.SetText: a start behind the text, when the new text would fit, is not modelled, because the size of the move is negative there and the code leaves the effect undefined.
- What the worker does with a session command: the handlers in the native engine are not part of this model; commands are told apart as its dispatcher does, and one behind `quit` is counted like any other.
- The insertion at the selection through the context, which replaces the buffer and writes to the document directly.
- SinkTable.Source.AdviseSink: the callbacks delivered to a new sink and re-entrancy from them, and a null interface identifier.
- The COM and TSF surface, window procedures, memory scanning, logging, timing, the input method addon and the command line: they forward or display and keep no state of the core.
- Strict fairness of the locks: termination is stated for schedules without new calls and spurious wake-ups, not for a particular scheduler.
