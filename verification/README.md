# PerfPortal: a Dafny model of live runs and the algorithms around them

PerfPortal takes a Gatling `simulation.log` while the load test is still
writing it, stores it in chunks, closes the run, and turns the log into
statistics. This Dafny project models that path and proves what the code keeps
whatever fails and however its processes interleave. `dafny verify
dfyconfig.toml` checks all of it.

## What is modelled

**Streaming.** `LiveRun` holds the run row, the chunk objects, the assembled
bundle and the file. `LiveSink` has the tailer and `RunnerLiveSink` as classes;
between two awaits anything in `OthersMayDo` may happen to the run, and any
call may fail, a failed put having landed or not. The layout predicate `Laid`
says the chunks tile the file up to the cursor, with at most one more chunk,
put at the cursor; a sink's `Valid` carries it, with the size limit.

**Closing.** `Closing` says how one closing ends, by the fate of each of its
calls, the claim included. `LiveSink` proves the runner's three closings
against it with what others may do at every await of the holder (`WhileHeld`:
the file grows, and a pipeline worker may take the run and move its status,
which the flag `taken` records). `Sweeper` proves the sweeper's, where the run's
sink may also still put a chunk (`WhileClosed`). `ClosingProtocol` is the state
machine over one run: its sink, any number of closers (the runner's three, the API's, sweepers), sweeps and
pipeline workers, one awaited call a step, claims whose answer is lost among
them. It proves exclusivity, absorption and that a recorded log is never lost,
over every run, and that everyone's steps stay within what the sink's proofs
allow for; `SweeperSteps` shows that routing a row is one of its steps. `SweeperClients` is the sweeper's use of the database pool.

**The log.** `SimulationLog` reads Gatling's binary log forwards, and
`BinaryReader` reads it by position, as the source does, backwards over a string
of negative length; the two are proved to agree wherever no such string is met.
`Feed` is the theory of taking whole items off a growing input; `StreamingDecoder` is the streaming
decoder and the truncation to whole records. `LogWriter` writes a log from the
format alone, and `LogRoundTrip` proves that what is written is what is read.
`RebindingLog` is a whole log that
its feed does not decode alike for every cut, and `StandingLog` one the decoder
never comes back from.

**One job.** `Executor` is a runner job: its stages, cancels, throwing calls,
event log, and what that log says of the run. `IngestRetry` is an ingest job
over its attempts.

**Retention.** `Retention` is the sweeper's keyset walk and what it deletes of
one run; `RetentionLock` the interleavings over that run's lock.

**Algorithms.** `GatlingJar` and `Manifest` (a jar's central directory and
manifest), `SplitArgs` (JVM options), `LineSplitter` (child output), `Ring` and
`Sender` (the agent's buffer and sender), `Collect` (counter sources),
`SlaRounding` (measurements beside limits), `Groups` (group membership).
`Bytes`, `Text` and `Traces` are what the others share.

Storage, the database, the queue, clocks and child processes are parameters:
fates of calls, or arbitrary answers.

## Where the code and what is said of it part

Each is a theorem with the exact condition under which the claim does hold.

- `packages/plugin-gatling/src/stream.ts:19-22` says re-reading a rewound record
  is idempotent. A record that refers back to a cached string and then
  redefines that string decodes differently after some cut
  (`StreamingDecoder.FeedAgreesIffClean`; `RebindingLog.WholeLogIsNotClean` is
  such a log).
- `apps/worker/src/sweeper.ts:491-501` and `packages/plugin-gatling/src/truncate.ts:4-29`
  take truncation to come back with a whole log or throw. A string of negative
  length moves the reader back, so a record can end where it began, and the
  decoder then emits events for ever (`StandingLog.NeverComesBack`). A record
  moves the reader on exactly when the signed widths of its fields add up to more
  than nothing, so always when no length is below -4 (`BinaryReader.RecordMovesIff`).
- `incomplete` is documented as terminal, but the pipeline turns away only
  complete and failed runs and `markParsing` is not guarded: it is final exactly
  when the run's job is over, no worker is on it and no closing may yet hand a log
  over (`ClosingProtocol.IncompleteIsFinalIff`, with a run in `IncompleteCanReopen`).
- `apps/api/src/ingest/live.service.ts:259-264` names the dropping of a tail as a
  danger of releasing after `finalizeLive`; a healthy close that fails between
  writing the bundle and recording it has the same effect
  (`ClosingProtocol.HealthyLogCoversIff`, `HealthyCloseCanDropATail`).
- `agent/internal/collect/collect.go:96-98` puts the price of absent sources at
  two skipped ticks. It is two for each absent source, so four for both
  (`Collect.SkipsExactly`). `collect.go:111-115` says no spike is possible after
  degrading; one is drawn exactly when the first three reads fail and a later
  one succeeds (`Collect.JumpsIff`).
- The executor's log is in order unless a job that got to be marked as closing
  had that call throw and then reads as cancelled (`Executor.Tells`; such a log is
  `Executor.OutOfOrderLog`).
- `closeAbandoned` catches what fails after its claim, not the claim itself: it
  throws, with the sink left open, exactly when that call does
  (`LiveSink.RunnerLiveSink.CloseAbandoned`).
- Retention holds the run's lock by its session, and never looks at whether the
  session was lost: the death of a session can make a log vanish under a reader
  exactly when it is that of a retainer that may yet delete the log
  (`RetentionLock.LossHarmsIff`).
- A limit with more than two decimals is set beside some measurement the wrong
  way round, unless it is a midpoint (`SlaRounding.ReadingsFaithfulIff`).

## Model

| member | source | states |
|---|---|---|
| LiveRun.AssembleLaid | packages/storage/src/live-chunks.ts:268-306 | concatenating chunks that tile the file gives back the file byte for byte, to the cursor or the end of the one chunk put past it |
| LiveRun.PutKeepsLaid | packages/storage/src/live-chunks.ts:119-121 | a put at the cursor, over any stray chunk, keeps the tiling |
| LiveRun.AdvanceKeepsLaid | packages/persistence/src/repositories/run.ts:793-800 | moving the cursor past the chunk put there keeps the tiling |
| LiveRun.FinalizeIsSound | packages/storage/src/live-chunks.ts:268-306 | assembly, answered or not, leaves stored bytes a prefix of the file; a fresh bundle reaches the cursor; an existing one is left alone |
| LiveSink.RunnerLiveSink.Open | apps/runner/src/live-sink.ts:88-129 | the sink opens exactly when both calls are answered, at the row's cursor; a failure midway leaves one that can only be aborted |
| LiveSink.RunnerLiveSink.Append | apps/runner/src/live-sink.ts:148-170 | a chunk is stored and the cursor moved, or the cursor stays, an advance that throws unapplied included; never past the size limit; with both calls answered, refused only by a run no longer at running; stored bytes stay sound |
| LiveSink.RunnerLiveSink.AppendAt | apps/runner/src/live-sink.ts:131-146 | overlap is trimmed, a jump past the cursor is refused, and success leaves the cursor at the end of what was offered |
| LiveSink.RunnerLiveSink.Close | apps/runner/src/live-sink.ts:172-224 | whatever calls fail and whatever others do between them: stored means the whole assembled log is in the store and, unless a worker took the run, on the row; an empty run is incomplete; an earlier failure undoes the claim; a claim that throws leaves the run as it was or claimed by nobody, and the sink open |
| LiveSink.RunnerLiveSink.AbortIncomplete | apps/runner/src/live-sink.ts:226-237 | the run is incomplete; or it threw, and then the claim is left behind when marking failed, and the run is as it was or claimed by nobody when the claim failed; a run not running is untouched |
| LiveSink.RunnerLiveSink.CloseAbandoned | apps/runner/src/live-sink.ts:275-324 | throws exactly when the claim does; otherwise the outcome is kept exactly when every call up to recording succeeded on a whole-record log under the ceiling, and else the run ends incomplete once a mark lands, whatever others do meanwhile |
| LiveSink.RunnerLiveSink.EnqueueForParsing | apps/runner/src/live-sink.ts:383-399 | at most three tries, and the job is queued exactly if one is taken |
| LiveSink.SimulationLogTailer.ReadAvailable | apps/runner/src/log-tailer.ts:67-92 | no offset ever jumps past the cursor, through re-reads from 0; a read that returns has streamed the size it saw; it fails only when a call does, the run refuses a chunk or the file is past the limit |
| LiveSink.SimulationLogTailer.Stop | apps/runner/src/log-tailer.ts:37-42 | returning normally with the file found means every byte it then held is below the cursor; with every call answered, on a run at running and a file within the limit, it does return |
| LiveSink.SimulationLogTailer.Tick | apps/runner/src/log-tailer.ts:28-35 | the first failure is remembered and ends the polling; with every call answered, on such a run, a poll streams every byte there was |
| Closing.ImplementationsAgree | apps/worker/src/sweeper.ts:513-573 | with bytes, a log under both ceilings and no worker on the run meanwhile, the runner's and the sweeper's closing of what they find end with the same row and the same kept bundle, whichever calls fail |
| Closing.KeptLogParses | apps/worker/src/sweeper.ts:519-546 | a kept log is a prefix of the file; and if no string of the file has a negative length, the pull parser reads it to its end, with every record the assembled bytes held |
| Sweeper.Sweeper.AssembleAbandoned | apps/worker/src/sweeper.ts:513-573 | with the sink, Gatling and a worker having their turn at every await, ends the run as the closing specification says of the chunks it found; past the recorded log no failure discards it, and its job is on its way if the queue takes it |
| Sweeper.Sweeper.ReenqueueRun | apps/worker/src/sweeper.ts:586-609 | exactly when the queue answers and takes it, the run's job is on its way, with fresh attempts if it had ended, and other jobs are untouched; that a run has one job is the queue's shape, its id being the job's |
| Sweeper.Sweeper.RouteRows | apps/worker/src/sweeper.ts:368-394 | a selected row not at running keeps its row and gets a job; one at running with no byte is incomplete, one with bytes is claimed and marked abandoned; or none has moved when a statement fails; a COMMIT that fails may have landed; it throws only of one of these |
| Sweeper.Sweeper.RecoverStale | apps/worker/src/sweeper.ts:298-426 | of a recovery that returned: a run not at running keeps its row and has a job on its way, one with no byte is incomplete and otherwise unchanged, one with bytes ends as an assembly from its row claimed and abandoned, and no other has moved; none is assembled when it threw, even if the COMMIT landed with its answer lost |
| Sweeper.Sweeper.Sweep | apps/worker/src/sweeper.ts:173-183 | a firing that finds a sweep under way does nothing; otherwise recovery, then a whole retention pass unless it threw, and the flag is cleared however they end |
| SweeperSteps.RoutingIsAStep | apps/worker/src/sweeper.ts:368-394 | whatever else is happening to a run, routing its row is one step of the closing protocol: it is ended empty, claimed by a sweeping party, or given a job; so the protocol's invariant is kept |
| ClosingProtocol.StepKeepsInv | apps/worker/src/sweeper.ts:368-394 | every step of every party keeps exclusivity, soundness of what each has in hand, and that a recorded log is the stored one |
| ClosingProtocol.OneCloser | packages/persistence/src/repositories/run.ts:888-903 | in every reachable state at most one process holds the closing claim, and then no chunk is accepted |
| ClosingProtocol.NeverStranded | apps/runner/src/live-sink.ts:239-274 | from every state, whatever closings stopped for ever in it, sweeps and a worker alone can bring the run to an end |
| ClosingProtocol.StepRespects | apps/runner/src/live-sink.ts:172-324 | no step moves the cursor under a claim, sets the abandoned mark but when leaving running, or changes a complete or failed run or a recorded log |
| ClosingProtocol.HolderUndisturbed | apps/worker/src/sweeper.ts:481-489 | while a claim is held nobody else, the pipeline aside, writes the row or the bundle |
| ClosingProtocol.OthersAreWithinRely | apps/runner/src/live-sink.ts:148-170 | every step of everyone else is within what the sink's proof allows between its awaits |
| ClosingProtocol.OthersLeaveTheHolder | apps/worker/src/sweeper.ts:481-573 | while a claim is held by anyone, every step of everyone else, its sink and the pipeline included, is within what the sweeper's proof allows between its awaits |
| ClosingProtocol.OthersLeaveTheSink | apps/runner/src/live-sink.ts:172-324 | and every step but the sink's own within what the proof of a sink that closes its own run allows |
| ClosingProtocol.RecordedForGood | apps/runner/src/live-sink.ts:256-269 | once a log is recorded every later state of the protocol has it, stored whole, and while no job was ever queued the run is at parsing |
| ClosingProtocol.DecidedForGood | packages/persistence/src/repositories/run.ts:814-819 | complete and failed never change |
| ClosingProtocol.RecordedLogIsTheFile | apps/worker/src/sweeper.ts:495-501 | a recorded log is a prefix of simulation.log, and an abandoned run's parses to its end if no string of the file has a negative length |
| ClosingProtocol.IncompleteIsFinalIff | apps/worker/src/pipeline/pipeline.service.ts:214-219 | from every state, an incomplete run stays incomplete on every continuation exactly when its job is over, no worker is on it and no closing may yet hand a log over, by its place, the bundle and what the chunks may be assembled into |
| ClosingProtocol.IncompleteCanReopen | apps/worker/src/sweeper.ts:368-394 | a run from its opening that is incomplete with every closing ended, and then at parsing again |
| ClosingProtocol.HealthyLogCoversIff | apps/runner/src/live-sink.ts:191-223 | the log a healthy close records reaches the cursor exactly when no shorter bundle was already written at its claim |
| ClosingProtocol.HealthyCloseCanDropATail | packages/storage/src/live-chunks.ts:268-306 | a run in which a healthy close records one byte of the two streamed |
| SimulationLog.StepProgresses | packages/plugin-gatling/src/record-decoder.ts:36-78 | read forwards, every record uses at least one byte, so decoding ends; a string of negative length stops the reading |
| SimulationLog.StepExtends | packages/plugin-gatling/src/reader.ts:96-148 | read forwards, more bytes never change a record that was whole, nor turn a fault into anything else |
| BinaryReader.RecordMovesIff | packages/plugin-gatling/src/reader.ts:115-123 | a record that is read moves the reader on exactly when the signed widths of its fields sum to more than 0, so whenever no string length is below -4 |
| BinaryReader.RunAgrees | packages/plugin-gatling/src/stream.ts:66-80 | the decoder's loop over a buffer, by position, is the forward run and ends within a turn for each byte, if that meets no negative length |
| BinaryReader.GoesBackIff | packages/plugin-gatling/src/reader.ts:115-148 | the forward reading of a record stops for it exactly when the reader meets a negative string length |
| LogRoundTrip.WrittenLogReads | packages/plugin-gatling/src/records.ts:11-30 | every log written from the format, four kinds of record, strings in either coder, spelt out or referred back to, is read to its end as its header and exactly the events written, users numbered in file order |
| LogRoundTrip.WrittenRecordReads | packages/plugin-gatling/src/record-decoder.ts:36-78 | a record reads back as what it says, times counted from the start of the run, whatever follows it, and leaves the strings it defined |
| LogRoundTrip.WrittenHeaderReads | packages/plugin-gatling/src/header.ts:23-60 | so does a header, with its scenarios and its assertions' bytes |
| LogRoundTrip.UnknownScenarioStops | packages/plugin-gatling/src/record-decoder.ts:48-54 | a user record naming a scenario the header does not list is refused |
| LogRoundTrip.UnknownKindStops | packages/plugin-gatling/src/record-decoder.ts:75-76 | so is a type byte that is none of the four |
| LogRoundTrip.NotARunStops | packages/plugin-gatling/src/header.ts:20-23 | and a log that does not start with a Run record |
| LogRoundTrip.NegativePayloadStops | packages/plugin-gatling/src/header.ts:42-50 | and an assertion of negative length |
| LogRoundTrip.DanglingStops | packages/plugin-gatling/src/reader.ts:125-141 | so is a reference to a string the log has not defined |
| StandingLog.NeverComesBack | packages/plugin-gatling/src/stream.ts:66-80 | a log of 38 bytes on which the decoder has emitted an event for every turn, however many, and truncation has not come back |
| StreamingDecoder.TruncateIsLongestWholeLog | packages/plugin-gatling/src/truncate.ts:31-39 | with no negative string length met, the cut is the longest prefix the pull parser reads to its end, with all its events; a complete log is unchanged; cutting twice is cutting once |
| StreamingDecoder.TruncateToWholeRecords | packages/plugin-gatling/src/truncate.ts:31-39 | the decoder object cuts where its loop, by position, has got to, throws, or has not come back; with no negative string length it is the cut of TruncateIsLongestWholeLog, or a throw on a malformed log |
| StreamingDecoder.StreamingLogDecoder.Push | packages/plugin-gatling/src/stream.ts:35-82 | a push is so many turns of the loop, by position, over what was pending and the chunk; with no negative length it comes back with every whole record, and keeps the rest |
| StreamingDecoder.StreamingLogDecoder.Append | packages/plugin-gatling/src/reader.ts:85-94 | dropping consumed bytes never loses one the reader has not passed |
| StreamingDecoder.PushIsOneRun | packages/plugin-gatling/src/stream.ts:24-83 | a push after any pushes is the feed of one chunk more |
| StreamingDecoder.CleanLogAnyChunks | packages/plugin-gatling/src/stream.ts:6-23 | a complete log of clean records, no negative string length among them, gives the same events however it is cut into chunks |
| LogRoundTrip.WrittenLogFed | packages/plugin-gatling/src/stream.ts:35-82 | a written log of clean records, pushed in whatever chunks, gives exactly the events written |
| StreamingDecoder.FeedAgreesIffClean | packages/plugin-gatling/src/stream.ts:19-22 | for every complete log without a negative string length, feed and pull parser agree for every cut exactly when no record refers to a string and then redefines it |
| RebindingLog.WholeLogIsNotClean | packages/plugin-gatling/src/reader.ts:125-141 | the bytes of a whole log, read to its end by the pull parser, one of whose records does, so that some cut decodes to other events |
| Executor.ReasonDecides | apps/runner/src/run-events.ts:13-50 | the reason shown and the ended-early decision never disagree; finished is exit code 0 or 2 and no signal; terminated is a signal or a code above 128, and never counts as finished |
| Executor.RunnerExecutor.Run | apps/runner/src/executor.ts:72-307 | whatever throws, claims included, and whenever a cancel lands: the log is in order with one ending, last, except in the one case named by the fates; its lines are coherent; what it says of the results is so. It says the run ended exactly when every call was answered, a byte was streamed, the simulation finished and the log is stored and queued, or another had the run; then every byte Gatling wrote is recorded. What is kept of the run found is decided by the calls, either way of ending; and the run is not left at running if the last abort's claim is answered |
| Executor.RunnerExecutor.Inject | apps/runner/src/executor.ts:162-203 | start lines are awaited before any ending; a normal end leaves exactly the injection's lines and all bytes below the cursor; the last read fails only of a refused chunk, a file past the limit or a call not answered |
| Executor.RunnerExecutor.End | apps/runner/src/executor.ts:204-264 | of the run it finds: a finished one has its assembled log stored, recorded and queued exactly when the calls are answered; one ended early keeps its whole records exactly when they are; one with nothing streamed is marked incomplete; each with its own failure, or none exactly when it ends well; a closing whose claim throws leaves no ended-early line |
| Executor.RunnerExecutor.Recover | apps/runner/src/executor.ts:265-299 | the catch waits for the start lines, aborts an open run, which is then not at running if its claim is answered, and writes one ending, chosen by line, stage and the job's state |
| Executor.RecoveredTells | apps/runner/src/executor.ts:292-299 | every log the catch ends tells the truth, and is out of order only when marking as closing threw on a cancelled job |
| Executor.OutOfOrderLog | apps/runner/src/executor.ts:204-299 | such a log: every call is answered but the marking, and the injection ends twice |
| Retention.RetentionWalk.RetainRawLogs | apps/worker/src/sweeper.ts:245-260 | at most the capped number of pages, each of exactly the due runs there were; the cursor is where the walk over them gets to, and every run it attempts is retained; a page that throws leaves the cursor after the last finished page; over all sweeps so far the pages make one walk, and each walk that ended is whole |
| Retention.RetentionWalk.RetainOne | apps/worker/src/sweeper.ts:262-296 | nothing is touched but under the lock, of a run found ripe, unstamped, with something stored and needed by nobody, and all of it is with every call answered; agent file before log, log before stamp; it throws only without a connection or a lock answer |
| Retention.WalkIsFair | apps/worker/src/sweeper.ts:233-244 | however the due runs change, a whole walk attempts in key order, once each, exactly the runs that turn up ahead of it and stay due until their turn; with nothing newly due ahead these are those due from the start, in at most N / P + 1 pages |
| Retention.SweepsMakeOneWalk | apps/worker/src/sweeper.ts:241-243 | capped sweeps, each resuming at the cursor the last left, make one walk |
| Retention.SweepsAreFair | apps/worker/src/sweeper.ts:233-260 | so a backlog walked over any number of them has each run that stays due attempted once, in order, within N / P + 1 pages in all |
| Retention.DueOfIs | packages/persistence/src/repositories/verification.ts:180-187 | the due runs are exactly the ripe, unstamped ones with something stored that nothing needs, in key order |
| RetentionLock.StampMeansGone | apps/worker/src/sweeper.ts:262-296 | in every run, whatever is stored to begin with and whichever sessions die: a stamped run has neither log nor agent file |
| RetentionLock.AgentFileGoesFirst | apps/worker/src/sweeper.ts:262-296 | in every run no log goes before its agent file |
| RetentionLock.NoLogVanishes | apps/worker/src/sweeper.ts:206-213 | over every run, other sessions dying or not: if no session dies of a retainer that may yet delete the log, a log there when a reader took the lock is there as long as it holds it |
| RetentionLock.OnlyDueRunsAreTouched | apps/worker/src/sweeper.ts:276-285 | in every run, sessions dying or not, whoever deletes or stamps has before then re-checked the run and found it ripe, unstamped, with something stored and needed by nobody |
| RetentionLock.NeededLogStays | packages/persistence/src/repositories/verification.ts:177-187 | so over a run in which the log is needed throughout, or which is never ripe, log, agent file and stamp are as at the start |
| RetentionLock.DeletesUnderLock | apps/worker/src/sweeper.ts:262-296 | while no retainer's session dies at work, only the retainer holding the lock changes what is stored |
| RetentionLock.LossHarmsIff | apps/worker/src/sweeper.ts:262-296 | a session that dies, everything guarded until then, can make a log vanish under a reader, no other harm done, exactly when it is that of a retainer that may yet delete the log |
| RetentionLock.LostSessionLosesALog | apps/worker/src/held-client.ts:24-33 | a run in which it does |
| SweeperClients.WithinBudget | apps/worker/src/main.ts:126-128 | however firings overlap, one sweep runs at a time with at most two clients out, the page queries of its walk counted, and none is handed back twice |
| SweeperClients.AllHandedBack | apps/worker/src/held-client.ts:60-66 | with no sweep under way every client checked out has been handed back |
| SweeperClients.LostIsDestroyed | apps/worker/src/held-client.ts:46-67 | over every run, a client whose connection was lost while held, or whose clean-up failed, is in no later state one to lend again, and is handed back by the time no sweep is under way |
| SweeperClients.HealthyIsReused | apps/worker/src/held-client.ts:60-66 | and a held client with neither goes back to the pool |
| IngestRetry.Work | apps/worker/src/consumer.ts:15-37 | the queue's loop, by its own record of the job, ends as specified, within the attempts |
| IngestRetry.ToldTheTruth | apps/worker/src/consumer.ts:6-17 | what the pipeline was told before an attempt is what the queue does if that attempt throws an error it may retry |
| IngestRetry.NoFailureIsLost | apps/worker/src/pipeline/pipeline.service.ts:223-268 | a job that is over has left its run at an end exactly if the last attempt got to ingesting and its outcome was written; no retry was due |
| IngestRetry.TransientFailuresAreForgiven | apps/worker/src/consumer.ts:6-17 | attempts that a held lock, the database or the ingest failed for a while, fewer than there are, do not change the outcome: the job ends at the first that lasts, with what it came to |
| IngestRetry.DecidedStays | apps/worker/src/pipeline/pipeline.service.ts:214-219 | a run that is complete or failed stays so, whatever its job meets |
| GatlingJar.ReadCentralDirectory | packages/core/src/gatling-jar.ts:136-196 | the loops compute the specified directory or error |
| GatlingJar.FindEocd | packages/core/src/gatling-jar.ts:142-152 | the last signature a whole end record could start at, or none |
| GatlingJar.FindsTrueEndIff | packages/core/src/gatling-jar.ts:142-152 | the true end record is found exactly when no signature starts after it |
| GatlingJar.NoCommentIsUnshadowed | packages/core/src/gatling-jar.ts:97-100 | with no comment none can |
| GatlingJar.ClassicReadsBack | packages/core/src/gatling-jar.ts:136-196 | laying out any entries as APPNOTE.TXT 4.3.12 and 4.3.16 and reading them back gives those entries |
| GatlingJar.Zip64ReadsBack | packages/core/src/gatling-jar.ts:158-176 | the same with the Zip64 records of 4.3.14 and 4.3.15, when the end record saturates the count, the size or the offset and the locator is in the tail |
| GatlingJar.FarLocatorIsRefused | packages/core/src/gatling-jar.ts:164-168 | a locator the comment pushes out of the tail gets the archive refused |
| GatlingJar.NamedHas | packages/core/src/gatling-jar.ts:178-196 | distinctly named entries all survive under their names, and nothing else is there |
| GatlingJar.ParseGatlingJar | packages/core/src/gatling-jar.ts:105-122 | the facts are those of the directory and the manifest entry, or the first error met |
| GatlingJar.FactsRecovered | packages/core/src/gatling-jar.ts:105-122 | the facts of a jar a packager laid out plainly are whether the main class is there, the version and exactly the listed simulations |
| GatlingJar.Zip64FactsRecovered | packages/core/src/gatling-jar.ts:105-176 | and of one laid out with the Zip64 records |
| Manifest.ParseManifest | packages/core/src/gatling-jar.ts:243-273 | the loop computes the specified headers |
| Manifest.ParseWritten | packages/core/src/gatling-jar.ts:232-273 | written headers come back under lower-cased names, wrapped anywhere, with any line terminator, ignoring per-entry sections |
| Manifest.WholeIff | packages/core/src/gatling-jar.ts:269-270 | a value comes back whole exactly when its first line has no space at either end |
| Manifest.SimulationsRecovered | packages/core/src/gatling-jar.ts:112-115 | a comma-joined list of classes is recovered exactly, however wrapped |
| Manifest.NonEmptyIs | packages/core/src/gatling-jar.ts:112-115 | of a list with any spaces and empty entries: every name in it, trimmed, and no empty one |
| Manifest.NoneListed | packages/core/src/gatling-jar.ts:112-115 | a manifest without that header gives none |
| SplitArgs.SplitArgs | apps/runner/src/args.ts:7-54 | the loop computes the specified tokens or refusal |
| SplitArgs.SplitIs | apps/runner/src/args.ts:44-53 | no token is empty, and the only refusal is a quote open at the end |
| SplitArgs.SplitConcat | apps/runner/src/args.ts:15-42 | splitting two closed texts with white space between is splitting each |
| SplitArgs.TrailingBackslash | apps/runner/src/args.ts:44-53 | a backslash with nothing after it reads as an escaped one |
| SplitArgs.SplitUndoesQuoting | apps/runner/src/args.ts:7-54 | tokens written bare, escaped or in either quote style come back in order, whatever white space is between them and at either end; empty ones leave no trace |
| SplitArgs.UnchangedIff | apps/runner/src/args.ts:34-38 | so a list comes back unchanged exactly when no argument is empty |
| LineSplitter.PrefixPipe.OnData | apps/runner/src/process.ts:112-117 | after every chunk, what is written and what is pending are those of all the text so far |
| LineSplitter.Pipe | apps/runner/src/process.ts:110-121 | any cutting into chunks, between CR and LF too, writes what the whole text gives at once |
| LineSplitter.PiecesAreLines | apps/runner/src/process.ts:114 | the split is into lines, each but the last without one trailing carriage return |
| LineSplitter.UnterminatedLastLine | apps/runner/src/process.ts:118-121 | a last line without its line break is written as if it had one |
| Ring.Ring.Push | agent/internal/buffer/buffer.go:38-52 | appends, evicting the oldest exactly when full; the count of evictions is kept modulo 2^64 |
| Ring.Ring.DrainUpTo | agent/internal/buffer/buffer.go:60-82 | gives the oldest, in order, at most n, negative n as 0; drained slots hold the zero value |
| Ring.Overwrite | agent/internal/buffer/buffer.go:43-49 | overwriting the head slot and moving on drops the oldest and adds the newest |
| Ring.DropOne | agent/internal/buffer/buffer.go:72-79 | clearing the head slot and moving on drops exactly the oldest and leaves every other slot outside the window cleared |
| Sender.Agent.FinalFlush | agent/cmd/perfportal-agent/main.go:160-189 | ends with everything acknowledged, or at the first failed POST with the rest buffered and unsent |
| Sender.Agent.Wake | agent/cmd/perfportal-agent/main.go:148-157 | a full batch or a window gone by posts the oldest samples, a batch or all there are, once, and nothing otherwise |
| Sender.Agent.Run | agent/cmd/perfportal-agent/main.go:105-206 | every sample drained is in exactly one POST, in order; if at most a batch is sampled between two ticks nothing is evicted, whether the server answers or not; if every POST is answered none fails; and with both the server has every sample in order |
| Sender.PacedEvictsNothing | agent/cmd/perfportal-agent/main.go:148-204 | over any events with at most a batch between two ticks, and room for a batch more than is held, the buffer never overflows |
| Sender.EverySampleIsOneThing | agent/cmd/perfportal-agent/main.go:135-199 | every sample is acknowledged, in a failed POST, evicted or buffered, and in only one of them |
| Sender.DeliveredIff | agent/cmd/perfportal-agent/main.go:135-199 | the server has every sample in order exactly when none failed, was evicted or is left |
| Collect.Collector.Read | agent/internal/collect/collect.go:223-306 | one tick is the specified step of both sources, the second unread when the first skips the tick |
| Collect.RealStaysReal | agent/internal/collect/collect.go:146-154 | a source once real in a sample is never zero-filled later, so samples make at most one zero-to-real jump |
| Collect.ZeroIsEarned | agent/internal/collect/collect.go:108-115 | zero-filled only after three failed reads and no success |
| Collect.SkipsExactly | agent/internal/collect/collect.go:87-102 | with sources always there or never, exactly 0, 2 or 4 first ticks are skipped |
| Collect.JumpsIff | agent/internal/collect/collect.go:111-115 | a source jumps from zero to real exactly when its first three reads fail and a later one succeeds |
| Collect.SamplesShowOutcomes | agent/internal/collect/collect.go:277-303 | what a sample shows of each source, bandwidth and protocol counters, is what its latest read came to, and there is no sample when a read was skipped or CPU or memory failed |
| SlaRounding.Measure | packages/contracts/src/rules.ts:430-447 | the loop computes the specified number |
| SlaRounding.NearestIs | packages/contracts/src/rules.ts:381-383 | rounding moves a number no more than half a unit, halves away from zero, alike on both sides of it |
| SlaRounding.MeasuredIsFewest | packages/contracts/src/rules.ts:430-447 | a measurement that is not its limit is shown with the fewest decimals that tell it from the limit, and whole if none do |
| SlaRounding.OnGridIsFaithful | packages/contracts/src/rules.ts:402-428 | against a limit on the display grid, what is shown compares as the raw values do, through rounding, widening and the fallback |
| SlaRounding.ReadingsFaithfulIff | packages/contracts/src/rules.ts:354-358 | for times and rates that holds for all measurements exactly when 200 times the limit is whole |
| SlaRounding.PercentFaithfulIff | packages/contracts/src/rules.ts:469-472 | for percentages, exactly when the limit has at most four decimals of a percent |
| SlaRounding.OffGridExample | packages/contracts/src/rules.ts:430-447 | 100.0041 ms against a limit of 100.004 ms is shown as 100 |
| Groups.InnermostGroup | packages/contracts/src/groups.ts:29-37 | the longest group the request sits in, or none |
| Groups.GroupHolds | packages/contracts/src/groups.ts:39-53 | a known group holds in order exactly the requests whose innermost group is it or lies under it |
| Groups.HeldByKnownGroups | packages/contracts/src/groups.ts:39-53 | and a group the run does not have holds nothing |
| Groups.NoGroupIsTheRest | packages/contracts/src/groups.ts:47-49 | (no group) holds exactly the requests no group holds |
| Groups.ClassesPartition | packages/contracts/src/groups.ts:1-37 | the innermost groups, with (no group), count every request once |

## Left out

- LiveSink.SimulationLogTailer.ReadAvailable: reads are serialised and the file is append-only, by precondition; two callers that both waited on one read are not modelled.
- LiveSink.RunnerLiveSink.Append: an advance that throws after being applied; like every write to the row but the claim (marks, recording the log, releasing the claim), it is applied exactly when it is answered.
- LiveSink.RunnerLiveSink.Close: a run opened without a bundle key, and storing the agent's file before a close, are left out; the SHA-256 recorded on the row is the recorded log itself.
- ClosingProtocol.RecordedForGood: this protocol has no retention, which may delete a finished run's log much later; see `RetentionLock`.
- Sweeper.Sweeper.AssembleAbandoned: others have their turn at the run being assembled; what they do to other runs meanwhile is not shown. Assembling the chunks is one step.
- LiveSink.RunnerLiveSink.CloseAbandoned: a truncation that never comes back, here and in AssembleAbandoned, is watched for so many records and then counts as one that throws; the source stays in the call.
- StreamingDecoder.FeedAgreesIffClean: logs on which the reader meets a negative string length, where the feed also depends on which bytes it has dropped.
- ClosingProtocol.StepKeepsInv: one sink per run, a closing process that never crashes between two awaits other than by stopping there for ever, and staleness clocks replaced by letting a sweep happen at any time.
- Executor.RunnerExecutor.Run: the job's own row (complete, failed, heartbeat), the work directory and the job log file are left out; the log is of recording attempts.
- SimulationLog.StepExtends: the payload of an assertion is kept as bytes, and 64-bit times are exact integers.
- Retention.RetentionWalk.RetainRawLogs: a run's key stands for its time of ingestion and id; the reasons a log is still needed are one flag.
- IngestRetry.NoFailureIsLost: what makes an error transient is part of the trial; the commit inside an ingest is one step.
- GatlingJar.ReadCentralDirectory: UTF-8 decoding and inflating are parameters, 64-bit fields are exact beyond 2^53, and the reader is one over a fixed file.
- Manifest.ParseManifest: names are lower-cased over the Latin letters only.
- SlaRounding.ReadingsFaithfulIff: real arithmetic, with limits of more than fifteen significant digits shown as they are.
- Ring.Ring.Push: the mutex is taken as given, one call at a time.
- Sender.Agent.FinalFlush: runs once sampling has stopped; the five-second deadline is a POST that fails.
- Collect.Collector.Read: connection states and their slower cadence, and the failure counter's 64-bit width.
- LineSplitter.Pipe: a multi-byte character cut between two chunks, which the source decodes chunk by chunk.
- Upload-only runs, verification and recomputation themselves, the statistics engine, live folding, notifications, access control and the user interface.
- Sorting of system properties, display paths, error and remediation texts, and configuration parsing: one-branch members.
