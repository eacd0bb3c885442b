/**
 * One runner job, from claim to the last line of its event log:
 * `RunnerExecutor.run` (apps/runner/src/executor.ts) and the decisions its
 * endings rest on (apps/runner/src/run-events.ts).
 *
 * The log is of attempts: recording is best effort and never throws. Every
 * call that can throw has a fate, and a cancel may land before any of the
 * four times the job's status is read.
 */
module Executor {
  import opened Bytes
  import opened Closing
  import opened Feed
  import opened LiveRun
  import opened LiveSink
  import opened SimulationLog
  import opened StreamingDecoder

  datatype ProcessResult = ProcessResult(code: Option<int>, signal: Option<string>, stopped: bool)

  datatype Reason = TerminatedBy(signal: string) | Normally | ExitedWith(code: Option<int>) | Cancelled

  datatype Failure = Signalled | LogNotFound | EndedEarlyFailure | OtherFailure

  datatype Event =
    | ClaimedByRunner | Deploying | PackagePrepared | ProcessStarted | Injecting
    | InjectionEnded(reason: Reason) | Ending
    | CancelledBeforeOpened | CancelledBeforeStart | EndedWithoutResults
    | RunEnded | EndedEarly(reason: Reason, kept: bool) | RunFailed(failure: Failure)

  datatype Stage = Claimed | Opened | Spawned | Closing

  // ----- Decisions -----

  /** A signal wins over an exit code. */
  function InjectionEndReason(result: ProcessResult): (reason: Reason)
  {
    if result.signal.Some? then TerminatedBy(result.signal.value)
    else if result.code == Some(0) then Normally
    else ExitedWith(result.code)
  }

  predicate StoppedEarly(result: ProcessResult)
  {
    if result.signal.Some? then true else result.code != Some(0) && result.code != Some(2)
  }

  predicate WasTerminated(result: ProcessResult)
  {
    result.signal.Some? || (if result.code.Some? then result.code.value else 0) > 128
  }

  function EndedEarlyEvent(result: ProcessResult, outcome: AbandonedOutcome): Event
  {
    EndedEarly(InjectionEndReason(result), outcome.Kept?)
  }

  /** The endings a finished simulation can have. */
  predicate Finished(reason: Reason) { reason == Normally || reason == ExitedWith(Some(2)) }

  /** The reason shown and the decision taken never disagree; a terminated Gatling never counts as finished. */
  lemma ReasonDecides(result: ProcessResult)
    ensures StoppedEarly(result) <==> !Finished(InjectionEndReason(result))
    ensures Finished(InjectionEndReason(result)) <==> result.signal.None? && result.code in {Some(0), Some(2)}
    ensures WasTerminated(result) <==> result.signal.Some? || (result.code.Some? && result.code.value > 128)
    ensures WasTerminated(result) ==> StoppedEarly(result)
  {
  }

  function CancelledEnding(stage: Stage): (lines: seq<Event>)
    requires !stage.Closing?
  {
    match stage
    case Claimed => [CancelledBeforeOpened]
    case Opened => [CancelledBeforeStart, EndedWithoutResults]
    case Spawned => [InjectionEnded(Cancelled), Ending, EndedWithoutResults]
  }

  // ----- What a log says -----

  /** Where in a job's story an event belongs. */
  function Rank(e: Event): nat
  {
    match e
    case ClaimedByRunner => 0
    case Deploying => 1
    case PackagePrepared => 2
    case ProcessStarted => 3
    case Injecting => 4
    case InjectionEnded(_) => 5
    case Ending => 6
    case CancelledBeforeStart => 7
    case _ => LAST
  }

  const LAST := 8

  /** Every event at most once and in its place, and the last one, and only it, an ending. */
  ghost predicate Ordered(log: seq<Event>)
  {
    && log != [] && Rank(log[|log| - 1]) == LAST
    && forall i, j :: 0 <= i < j < |log| ==> Rank(log[i]) < Rank(log[j])
  }

  /** Lines that come together come together, and a cancelled ending fits how far the job got. */
  ghost predicate Coherent(log: seq<Event>)
  {
    && (ClaimedByRunner in log <==> Deploying in log)
    && (ProcessStarted in log <==> Injecting in log)
    && (Ending in log <==> exists e :: e in log && e.InjectionEnded?)
    && (Ending in log ==> ProcessStarted in log)
    && (ProcessStarted in log ==> PackagePrepared in log)
    && (CancelledBeforeStart in log ==> ProcessStarted !in log && EndedWithoutResults in log)
    && (CancelledBeforeOpened in log ==> PackagePrepared !in log)
    && (EndedWithoutResults in log ==> CancelledBeforeStart in log || Ending in log)
  }

  // ----- The job -----

  datatype Answer = Yes | No | Threw

  datatype Launch = NotLaunched | LostAfterLaunch | Exited(result: ProcessResult)

  /**
   * `known` and `cursorRead` are the two calls that open the run; `earlyPolls`
   * and `polls` the tailer's polls before and after the launch, `lastPoll` its
   * last read, `lateRead` the one the catch makes; `abort` is the abandoning on
   * the way out, `lastAbort` the one the catch makes.
   */
  datatype Fates = Fates(
    logger: bool, isolated: bool, known: bool, cursorRead: bool, earlyPolls: seq<PollFate>, polls: seq<PollFate>,
    lastPoll: PollFate, lateRead: PollFate,
    attached: Answer, cancelledOnOpen: Answer, prepared: bool,
    cancelledOnPrepare: Answer, launch: Launch, cancelledOnExit: Answer, markClosing: bool,
    markComplete: bool, cancelledAtEnd: Answer, abort: Calls, lastAbort: Calls, close: Calls)

  datatype Flow = Continues | Returns | Throws(failure: Failure)

  const CLAIMED: seq<Event> := [ClaimedByRunner, Deploying]
  const PREPARED: seq<Event> := [ClaimedByRunner, Deploying, PackagePrepared]
  const STARTED: seq<Event> := [ProcessStarted, Injecting]

  /** The log of a job whose Gatling has gone. */
  function Injected(result: ProcessResult): seq<Event>
  {
    PREPARED + STARTED + [InjectionEnded(InjectionEndReason(result)), Ending]
  }

  /** The package is ready to launch: every call was answered, and no cancel was seen. */
  predicate Prepares(fates: Fates)
  {
    && fates.logger && fates.isolated && fates.known && fates.cursorRead && fates.attached.Yes?
    && fates.cancelledOnOpen.No? && fates.prepared && fates.cancelledOnPrepare.No?
  }

  /** Gatling has gone, its log was read to the end, and the job was not cancelled. */
  predicate Exits(fates: Fates, lastRead: bool)
  {
    fates.launch.Exited? && lastRead && !fates.launch.result.stopped && fates.cancelledOnExit.No?
  }

  /** Whether the job gets to be marked as closing. `lastRead` is whether the tailer's last read was answered. */
  predicate MarksClosing(fates: Fates, lastRead: bool)
  {
    Prepares(fates) && Exits(fates, lastRead)
  }

  /**
   * What the log holds when a step throws, by how far the job got; `asked` is
   * whether marking it as closing was tried.
   */
  ghost predicate Reached(log: seq<Event>, stage: Stage, asked: bool, fates: Fates)
  {
    match stage
    case Claimed => !asked && (log == [] || log == CLAIMED)
    case Opened => !asked && (log == CLAIMED || log == PREPARED)
    case Spawned =>
      if asked then fates.launch.Exited? && !fates.markClosing && log == Injected(fates.launch.result)
      else log == PREPARED + STARTED
    case Closing => asked && fates.launch.Exited? && fates.markClosing && log == Injected(fates.launch.result)
  }

  ghost predicate CancelledStory(log: seq<Event>)
  {
    || log == CLAIMED + CancelledEnding(Claimed)
    || log == CLAIMED + CancelledEnding(Opened)
    || log == PREPARED + CancelledEnding(Opened)
    || log == PREPARED + STARTED + CancelledEnding(Spawned)
  }

  ghost predicate CompletedStory(log: seq<Event>, fates: Fates)
  {
    fates.launch.Exited? && fates.markClosing && !StoppedEarly(fates.launch.result)
    && log == Injected(fates.launch.result) + [RunEnded]
  }

  /** How the catch ends a log. */
  function LastLines(stage: Stage, line: Option<Event>, failure: Failure, fates: Fates): (lines: seq<Event>)
  {
    if line.Some? then [line.value]
    else if stage != Closing && fates.cancelledAtEnd.Yes? then CancelledEnding(stage)
    else [RunFailed(failure)]
  }

  /**
   * What a log's ending says of the run is so. `kept` is the log the job's
   * sink recorded, `written` how many bytes it streamed.
   */
  ghost predicate Honest(log: seq<Event>, kept: Option<seq<byte>>, written: nat, fates: Fates)
  {
    && (EndedWithoutResults in log ==> kept == None)
    && (RunEnded in log ==>
          fates.launch.Exited? && Finished(InjectionEndReason(fates.launch.result)) && written > 0)
    && (forall reason, keeps :: EndedEarly(reason, keeps) in log ==>
          InjectionEnded(reason) in log && !Finished(reason) && keeps == kept.Some? && written > 0)
    && (RunFailed(Signalled) in log || RunFailed(LogNotFound) in log ==>
          && kept == None && written == 0 && fates.launch.Exited?
          && (RunFailed(Signalled) in log <==> WasTerminated(fates.launch.result)))
  }

  lemma CancelledIsOrdered(log: seq<Event>)
    requires CancelledStory(log)
    ensures Ordered(log)
    ensures forall e :: e in log && Rank(e) == LAST ==> e in {CancelledBeforeOpened, EndedWithoutResults}
  {
  }

  lemma CancelledIsCoherent(log: seq<Event>)
    requires CancelledStory(log)
    ensures Coherent(log)
  {
    if log == PREPARED + STARTED + CancelledEnding(Spawned) {
      assert log[5].InjectionEnded? && log[6] == Ending;
    } else {
      var cancels := {CancelledBeforeOpened, CancelledBeforeStart, EndedWithoutResults};
      assert forall e :: e in log ==> e in PREPARED || e in cancels;
    }
  }

  lemma CancelledIsHonest(log: seq<Event>, written: nat, fates: Fates)
    requires forall e :: e in log && Rank(e) == LAST ==> e in {CancelledBeforeOpened, EndedWithoutResults}
    ensures Honest(log, None, written, fates) && RunEnded !in log && forall f :: RunFailed(f) !in log
  {
    forall f ensures RunFailed(f) !in log { assert Rank(RunFailed(f)) == LAST; }
    assert Rank(RunEnded) == LAST && Rank(RunFailed(Signalled)) == LAST && Rank(RunFailed(LogNotFound)) == LAST;
    forall reason, keeps ensures EndedEarly(reason, keeps) !in log { assert Rank(EndedEarly(reason, keeps)) == LAST; }
  }

  lemma CompletedIsOrdered(log: seq<Event>, fates: Fates)
    requires CompletedStory(log, fates)
    ensures Ordered(log) && RunEnded in log
    ensures forall e :: e in log && Rank(e) == LAST ==> e == RunEnded
  {
    assert log[|log| - 1] == RunEnded;
  }

  lemma CompletedIsCoherent(log: seq<Event>, fates: Fates)
    requires CompletedStory(log, fates)
    ensures Coherent(log)
  {
    assert log[5].InjectionEnded? && log[6] == Ending;
  }

  lemma CompletedIsHonest(log: seq<Event>, kept: Option<seq<byte>>, written: nat, fates: Fates)
    requires forall e :: e in log && Rank(e) == LAST ==> e == RunEnded
    requires fates.launch.Exited? && !StoppedEarly(fates.launch.result) && written > 0
    ensures Honest(log, kept, written, fates) && forall f :: RunFailed(f) !in log
  {
    assert Rank(EndedWithoutResults) == LAST;
    forall f ensures RunFailed(f) !in log { assert Rank(RunFailed(f)) == LAST; }
    forall reason, keeps ensures EndedEarly(reason, keeps) !in log { assert Rank(EndedEarly(reason, keeps)) == LAST; }
  }

  lemma RecoveredIsOrdered(log: seq<Event>, stage: Stage, asked: bool, line: Option<Event>, failure: Failure,
                           fates: Fates)
    requires Reached(log, stage, asked, fates)
    requires line.Some? ==> stage == Closing && Rank(line.value) == LAST
    ensures var all := log + LastLines(stage, line, failure, fates);
      && (Ordered(all) <==> !(asked && !fates.markClosing && fates.cancelledAtEnd.Yes?))
      && (forall e :: e in all && Rank(e) == LAST ==> e in LastLines(stage, line, failure, fates))
      && (stage == Closing ==> InjectionEnded(InjectionEndReason(fates.launch.result)) in all)
  {
    var tail := LastLines(stage, line, failure, fates);
    var all := log + tail;
    if fates.launch.Exited? && log == Injected(fates.launch.result) {
      var e := InjectionEnded(InjectionEndReason(fates.launch.result));
      assert log[5] == e && all[5] == e;
      if stage == Spawned && fates.cancelledAtEnd.Yes? {
        assert all[7] == InjectionEnded(Cancelled);
        assert !Ordered(all);
      }
    }
  }

  lemma ReachedIsCoherent(log: seq<Event>, stage: Stage, asked: bool, fates: Fates)
    requires Reached(log, stage, asked, fates)
    ensures Coherent(log)
    ensures stage == Claimed ==> PackagePrepared !in log
    ensures stage == Opened ==> ProcessStarted !in log
    ensures stage == Spawned || stage == Closing ==>
              ProcessStarted in log && PackagePrepared in log && CancelledBeforeStart !in log
    ensures CancelledBeforeOpened !in log
  {
    if stage == Spawned || stage == Closing {
      assert log[2] == PackagePrepared && log[3] == ProcessStarted && log[4] == Injecting;
      if |log| == 7 { assert log[5].InjectionEnded? && log[6] == Ending; }
    }
  }

  /** An ending that is not a cancelled one fits any log. */
  lemma EndingIsCoherent(log: seq<Event>, last: Event)
    requires Coherent(log) && CancelledBeforeOpened !in log && (last.EndedEarly? || last.RunFailed?)
    ensures Coherent(log + [last])
  {
    if Ending in log {
      var e :| e in log && e.InjectionEnded?;
      assert e in log + [last];
    }
  }

  lemma CancelledFits(log: seq<Event>, stage: Stage)
    requires Coherent(log) && !stage.Closing? && CancelledBeforeOpened !in log
    requires stage == Claimed ==> PackagePrepared !in log
    requires stage == Opened ==> ProcessStarted !in log
    requires stage == Spawned ==> ProcessStarted in log && PackagePrepared in log && CancelledBeforeStart !in log
    ensures Coherent(log + CancelledEnding(stage))
  {
    var all := log + CancelledEnding(stage);
    match stage {
      case Claimed =>
      case Opened => assert all[|log| + 1] == EndedWithoutResults;
      case Spawned => assert all[|log|].InjectionEnded? && all[|log| + 1] == Ending;
    }
  }

  lemma RecoveredIsCoherent(log: seq<Event>, stage: Stage, asked: bool, line: Option<Event>, failure: Failure,
                            fates: Fates)
    requires Reached(log, stage, asked, fates)
    requires line.Some? ==> stage == Closing && line.value.EndedEarly?
    ensures Coherent(log + LastLines(stage, line, failure, fates))
  {
    ReachedIsCoherent(log, stage, asked, fates);
    if line.Some? {
      EndingIsCoherent(log, line.value);
    } else if stage != Closing && fates.cancelledAtEnd.Yes? {
      CancelledFits(log, stage);
    } else {
      EndingIsCoherent(log, RunFailed(failure));
    }
  }

  /** The two failures that name an empty log are about one, and which of them says how the process went. */
  ghost predicate NothingWritten(failure: Failure, kept: Option<seq<byte>>, written: nat, fates: Fates)
  {
    failure.Signalled? || failure.LogNotFound? ==>
      && kept == None && written == 0 && fates.launch.Exited?
      && (failure.Signalled? <==> WasTerminated(fates.launch.result))
  }

  lemma RecoveredIsHonest(all: seq<Event>, stage: Stage, line: Option<Event>, failure: Failure, fates: Fates,
                          kept: Option<seq<byte>>, written: nat)
    requires forall e :: e in all && Rank(e) == LAST ==> e in LastLines(stage, line, failure, fates)
    requires line.Some? ==>
               && stage == Closing && fates.launch.Exited? && StoppedEarly(fates.launch.result)
               && InjectionEnded(InjectionEndReason(fates.launch.result)) in all
               && line.value == EndedEarly(InjectionEndReason(fates.launch.result), kept.Some?) && written > 0
    requires NothingWritten(failure, kept, written, fates)
    requires kept.Some? ==> stage == Closing
    ensures Honest(all, kept, written, fates) && RunEnded !in all
    ensures forall f :: RunFailed(f) in all ==>
              line == None && f == failure && (stage == Closing || !fates.cancelledAtEnd.Yes?)
  {
    assert Rank(RunEnded) == LAST && Rank(RunFailed(Signalled)) == LAST && Rank(RunFailed(LogNotFound)) == LAST;
    forall reason, keeps | EndedEarly(reason, keeps) in all
      ensures line == Some(EndedEarly(reason, keeps))
    {
      assert Rank(EndedEarly(reason, keeps)) == LAST;
    }
    forall f | RunFailed(f) in all ensures RunFailed(f) in LastLines(stage, line, failure, fates) {
      assert Rank(RunFailed(f)) == LAST;
    }
  }

  /**
   * All that a job's log tells. It is in order, each event at most once, with
   * one ending, last, unless marking the job as closing threw on a job that
   * then reads as cancelled; it is coherent and honest; and it says the run
   * failed only of a job not cancelled, or cancelled too late to matter.
   * `asked` is whether marking the job as closing was tried.
   */
  ghost predicate Tells(log: seq<Event>, kept: Option<seq<byte>>, written: nat, asked: bool, fates: Fates)
  {
    && (Ordered(log) <==> !(asked && !fates.markClosing && fates.cancelledAtEnd.Yes?))
    && Coherent(log)
    && Honest(log, kept, written, fates)
    && forall f :: RunFailed(f) in log ==> !fates.cancelledAtEnd.Yes? || (asked && fates.markClosing)
  }

  lemma CancelledTells(log: seq<Event>, written: nat, fates: Fates)
    requires CancelledStory(log)
    ensures Tells(log, None, written, false, fates) && RunEnded !in log
  {
    CancelledIsOrdered(log);
    CancelledIsCoherent(log);
    CancelledIsHonest(log, written, fates);
  }

  lemma CompletedTells(log: seq<Event>, kept: Option<seq<byte>>, written: nat, fates: Fates)
    requires CompletedStory(log, fates) && written > 0
    ensures Tells(log, kept, written, true, fates)
  {
    CompletedIsOrdered(log, fates);
    CompletedIsCoherent(log, fates);
    CompletedIsHonest(log, kept, written, fates);
  }

  lemma RecoveredTells(log: seq<Event>, stage: Stage, asked: bool, line: Option<Event>, failure: Failure, fates: Fates,
                       kept: Option<seq<byte>>, written: nat)
    requires Reached(log, stage, asked, fates)
    requires line.Some? ==>
               && stage == Closing && StoppedEarly(fates.launch.result)
               && line.value == EndedEarly(InjectionEndReason(fates.launch.result), kept.Some?) && written > 0
    requires NothingWritten(failure, kept, written, fates)
    requires kept.Some? ==> stage == Closing
    ensures var all := log + LastLines(stage, line, failure, fates);
            Tells(all, kept, written, asked, fates) && RunEnded !in all
  {
    var all := log + LastLines(stage, line, failure, fates);
    RecoveredIsOrdered(log, stage, asked, line, failure, fates);
    RecoveredIsCoherent(log, stage, asked, line, failure, fates);
    RecoveredIsHonest(all, stage, line, failure, fates, kept, written);
    if stage == Closing {
      assert !InjectionEndReason(fates.launch.result).Cancelled?;
    }
  }

  const ANSWERED := Calls(true, true, true, true, true, true, true, true, true, true, 0, 0, {}, 1)

  const NOTHING_NEW := PollFate(true, true, [])

  /** Everything is answered but the marking of the job as closing, and the job then reads as cancelled. */
  const UNMARKED := Fates(
    true, true, true, true, [], [], NOTHING_NEW, NOTHING_NEW, Yes, No, true, No,
    Exited(ProcessResult(Some(0), None, false)), No, false, true, Yes, ANSWERED, ANSWERED, ANSWERED)

  /** A log that is out of order: the injection ends twice, the second time as cancelled. */
  lemma OutOfOrderLog() returns (log: seq<Event>)
    ensures MarksClosing(UNMARKED, true)
    ensures log == Injected(UNMARKED.launch.result) + LastLines(Spawned, None, OtherFailure, UNMARKED)
    ensures log[5] == InjectionEnded(Normally) && log[7] == InjectionEnded(Cancelled)
    ensures Tells(log, None, 0, true, UNMARKED) && !Ordered(log)
  {
    var before := Injected(UNMARKED.launch.result);
    log := before + LastLines(Spawned, None, OtherFailure, UNMARKED);
    assert Reached(before, Spawned, true, UNMARKED);
    RecoveredTells(before, Spawned, true, None, OtherFailure, UNMARKED, None, 0);
  }

  /** A log kept is in the store, is the start of the file, and is on the row unless the pipeline took the run first. */
  ghost predicate IsKept(kept: Option<seq<byte>>, live: Live, taken: bool)
    requires kept.Some?
  {
    kept == live.bundle && kept.value <= live.file && (!taken ==> live.row.recorded == kept)
  }

  /**
   * What a job that marked itself as closing leaves of the run it found: the
   * log its sink recorded, and a parsing job for it unless the queue refused
   * three times. Nothing is kept where nothing was streamed, the claim was not
   * answered or another had the run.
   */
  ghost predicate Settled(found: Live, result: ProcessResult, written: nat, calls: Calls, ceiling: nat,
                          kept: Option<seq<byte>>, queued: bool)
  {
    if written == 0 || !calls.claim || !found.row.status.Running? then kept == None
    else
      && (StoppedEarly(result) ==>
            (kept.Some? <==> calls.read && found.row.cursor > 0 && Keeps(found, calls, ceiling)))
      && (!StoppedEarly(result) ==> (kept.Some? <==> StoresLog(found, calls)))
      && (kept.Some? ==> kept == if StoppedEarly(result) then WholeLog(found, calls) else Assembled(found))
      && (kept.Some? && calls.refusals < 3 ==> queued)
  }

  /** What lets a job say the run ended: its log is stored and queued, or another had the run. */
  predicate EndsWell(found: Live, result: ProcessResult, written: nat, fates: Fates)
  {
    && !StoppedEarly(result) && written > 0 && fates.close.claim && fates.markComplete
    && (found.row.status.Running? ==> StoresLog(found, fates.close) && fates.close.refusals < 3)
  }

  /**
   * The row as the job's ending leaves it, where the claim was answered on a
   * running run. `taken` is whether a pipeline worker took the run meanwhile.
   */
  ghost predicate LeavesRun(found: Live, live: Live, result: ProcessResult, written: nat, fates: Fates, ceiling: nat,
                            closed: bool, kept: Option<seq<byte>>, taken: bool)
  {
    if written == 0 then
      fates.abort.claim && !taken ==>
        live.row == found.row.(status := if fates.abort.marks > 0 then Parsing else Incomplete)
    else if !fates.close.claim then true
    else if StoppedEarly(result) then RunnerEnd(found, live, kept.Some?, fates.close, ceiling, taken)
    else
      HealthyEnd(found, live, !StoresLog(found, fates.close) || fates.close.refusals >= 3, closed, kept, fates.close,
                 taken)
  }

  /** Every read the tailer makes while the job is going well. */
  function AllPolls(fates: Fates): seq<PollFate> { fates.earlyPolls + fates.polls + [fates.lastPoll] }

  /** Why these polls may have failed. */
  ghost predicate InTrouble(sink: RunnerLiveSink, polls: seq<PollFate>)
    reads sink, sink.backend
  {
    Troubled(sink.rejected, sink.backend.live.file, sink.maxLogBytes, polls)
  }

  /** One poll more: what had failed before, or fails of it. */
  lemma PollTroubled(failed: bool, rejected: bool, file: seq<byte>, ceiling: nat, polls: seq<PollFate>, poll: PollFate,
                     later: bool, more: seq<byte>)
    requires (rejected ==> later) && file <= more
    requires if failed then Troubled(rejected, file, ceiling, polls) else Troubled(later, more, ceiling, [poll])
    ensures Troubled(later, more, ceiling, polls + [poll])
  {
    if failed {
      TroubleLasts(rejected, file, ceiling, polls, later, more, [], [poll]);
      EmptyThen([], polls);
    } else {
      TroubleLasts(later, more, ceiling, [poll], later, more, polls, []);
      EmptyThen([], polls + [poll]);
    }
  }

  /** If the last read finds the file, what it then held, which is no less than before, is known. */
  predicate LastPollSees(fates: Fates, before: seq<byte>, exited: Option<seq<byte>>)
  {
    fates.lastPoll.located && fates.lastPoll.sized ==> exited.Some? && before <= exited.value
  }

  class RunnerExecutor {
    const backend: Backend
    const maxLogBytes: nat

    constructor (backend: Backend, maxLogBytes: nat)
      ensures this.backend == backend && this.maxLogBytes == maxLogBytes
    {
      this.backend, this.maxLogBytes := backend, maxLogBytes;
    }

    /** Ends a cancelled job: the run keeps nothing, then the log says so. */
    method Cancel(sink: RunnerLiveSink, stage: Stage, before: seq<Event>, abort: Calls)
      returns (flow: Flow, log: seq<Event>)
      requires sink.Valid() && sink.hasRun && !stage.Closing?
      modifies sink`closed, sink.backend
      ensures sink.Valid()
      ensures (flow == Returns && log == before + CancelledEnding(stage))
                || (flow == Throws(OtherFailure) && log == before)
      ensures sink.closed <==> flow.Returns?
      ensures sink.closed && !old(sink.closed) ==> !sink.backend.live.row.status.Running?
      ensures abort.claim && abort.marks == 0 ==> flow.Returns?
    {
      sink.backend.Interfere();
      var threw := sink.AbortIncomplete(abort);
      if threw { return Throws(OtherFailure), before; }
      flow, log := Returns, before + CancelledEnding(stage);
    }

    /** From the claim to a prepared package. */
    method Prepare(sink: RunnerLiveSink, fates: Fates)
      returns (flow: Flow, stage: Stage, log: seq<Event>)
      requires sink.Valid() && !sink.hasRun && !sink.closed && sink.kept == None
      modifies sink, sink.backend
      ensures sink.Valid() && sink.kept == None
      ensures flow.Continues? ==> stage == Opened && log == PREPARED && sink.isOpen && !sink.closed
      ensures flow.Continues? ==> old(sink.backend.live.file) <= sink.backend.live.file
      ensures flow.Continues? <==> Prepares(fates)
      ensures flow.Returns? ==> CancelledStory(log)
      ensures flow.Throws? ==>
                flow == Throws(OtherFailure) && stage in {Claimed, Opened} && Reached(log, stage, false, fates)
      ensures sink.closed <==> flow.Returns?
      ensures sink.closed ==> !sink.backend.live.row.status.Running?
    {
      flow, stage, log := Throws(OtherFailure), Claimed, [];
      if !fates.logger { return; }
      log := CLAIMED;
      if !fates.isolated { return; }
      var out := sink.Open(fates.known, fates.cursorRead);
      if !out.Fine? || fates.attached.Threw? { return; }
      if fates.attached.No? {
        flow, log := Cancel(sink, Claimed, log, fates.abort);
        return;
      }
      stage := Opened;
      if fates.cancelledOnOpen.Threw? { return; }
      if fates.cancelledOnOpen.Yes? {
        flow, log := Cancel(sink, Opened, log, fates.abort);
        return;
      }
      if !fates.prepared { return; }
      log := log + [PackagePrepared];
      if fates.cancelledOnPrepare.Threw? { return; }
      if fates.cancelledOnPrepare.Yes? {
        flow, log := Cancel(sink, Opened, log, fates.abort);
        return;
      }
      flow := Continues;
    }

    /** Some of the tailer's polls; `before` is those made already. */
    method Poll(tailer: SimulationLogTailer, ghost before: seq<PollFate>, polls: seq<PollFate>)
      requires tailer.Valid() && (tailer.failed ==> InTrouble(tailer.sink, before))
      modifies tailer, tailer.sink`offset, tailer.sink`attemptBytes, tailer.sink`rejected, tailer.sink.backend
      ensures tailer.Valid() && old(tailer.sink.backend.live.file) <= tailer.sink.backend.live.file
      ensures (old(tailer.sink.rejected) ==> tailer.sink.rejected)
      ensures tailer.failed ==> InTrouble(tailer.sink, before + polls)
    {
      ghost var sink := tailer.sink;
      EmptyThen([], before);
      for i := 0 to |polls|
        invariant tailer.Valid() && old(tailer.sink.backend.live.file) <= sink.backend.live.file
        invariant old(tailer.sink.rejected) ==> sink.rejected
        invariant tailer.failed ==> InTrouble(sink, before + polls[..i])
      {
        ghost var rejected, file, failed := sink.rejected, sink.backend.live.file, tailer.failed;
        tailer.Tick(polls[i]);
        assert before + polls[..i + 1] == before + polls[..i] + [polls[i]];
        if tailer.failed {
          PollTroubled(failed, rejected, file, sink.maxLogBytes, before + polls[..i], polls[i], sink.rejected,
              sink.backend.live.file);
        }
      }
      assert polls[..|polls|] == polls;
    }

    /** The tailer's last read. */
    method LastPoll(tailer: SimulationLogTailer, fates: Fates) returns (threw: bool, exited: Option<seq<byte>>)
      requires tailer.Valid() && (tailer.failed ==> InTrouble(tailer.sink, fates.earlyPolls + fates.polls))
      modifies tailer, tailer.sink`offset, tailer.sink`attemptBytes, tailer.sink`rejected, tailer.sink.backend
      ensures tailer.Valid() && old(tailer.sink.backend.live.file) <= tailer.sink.backend.live.file
      ensures old(tailer.sink.rejected) ==> tailer.sink.rejected
      ensures threw ==> InTrouble(tailer.sink, AllPolls(fates))
      ensures exited.Some? ==>
                && old(tailer.sink.backend.live.file) == exited.value
                && (!threw ==> |exited.value| <= tailer.sink.offset)
      ensures !threw && fates.lastPoll.located && fates.lastPoll.sized ==> exited.Some?
    {
      ghost var sink := tailer.sink;
      ghost var rejected, failed := sink.rejected, tailer.failed;
      var file := tailer.sink.backend.live.file;
      var seen;
      threw, seen := tailer.Stop(fates.lastPoll);
      if threw {
        PollTroubled(failed, rejected, file, sink.maxLogBytes, fates.earlyPolls + fates.polls, fates.lastPoll,
            sink.rejected, sink.backend.live.file);
      }
      exited := if seen.Some? then Some(file) else None;
    }

    /**
     * From the launch to the `Ending` phase. `starting` is the start lines not
     * yet awaited; `tailer` is the one still to be stopped; `exited` is what the
     * file held when Gatling had gone, if the last read found it.
     */
    method Inject(sink: RunnerLiveSink, before: seq<Event>, fates: Fates)
      returns (flow: Flow, stage: Stage, log: seq<Event>, starting: seq<Event>, tailer: SimulationLogTailer?,
               exited: Option<seq<byte>>, lastRead: bool)
      requires sink.Valid() && sink.isOpen && !sink.closed && sink.kept == None && before == PREPARED
      modifies sink`offset, sink`attemptBytes, sink`rejected, sink`closed, sink.backend
      ensures sink.Valid()
      ensures tailer != null ==> fresh(tailer) && tailer.sink == sink && tailer.Valid() && !sink.closed
      ensures sink.closed <==> flow.Returns?
      ensures sink.closed ==> !sink.backend.live.row.status.Running?
      ensures flow.Continues? ==>
                && fates.launch.Exited? && stage == Closing && fates.markClosing && !sink.closed
                && starting == [] && tailer == null && log == Injected(fates.launch.result)
                && (exited.Some? ==> exited.value <= sink.backend.live.file && |exited.value| <= sink.offset)
                && LastPollSees(fates, old(sink.backend.live.file), exited)
      ensures old(sink.rejected) ==> sink.rejected
      ensures fates.launch.Exited? && !lastRead ==>
                InTrouble(sink, AllPolls(fates))
      ensures flow.Continues? ==> Exits(fates, lastRead)
      ensures flow.Returns? ==> CancelledStory(log) && tailer == null && !Exits(fates, lastRead)
      ensures flow.Throws? ==>
                && flow == Throws(OtherFailure) && stage in {Opened, Spawned}
                && Reached(log + starting, stage, Exits(fates, lastRead), fates)
    {
      stage, log, starting, exited, lastRead := Opened, before, [], None, false;
      tailer := new SimulationLogTailer(sink);
      Poll(tailer, [], fates.earlyPolls);
      if fates.launch.NotLaunched? { flow := Throws(OtherFailure); return; }
      stage, starting := Spawned, STARTED;
      EmptyThen([], fates.earlyPolls);
      Poll(tailer, fates.earlyPolls, fates.polls);
      if fates.launch.LostAfterLaunch? { flow := Throws(OtherFailure); return; }
      log, starting := log + starting, [];
      var threw, held := LastPoll(tailer, fates);
      lastRead := !threw;
      if threw { flow := Throws(OtherFailure); return; }
      exited := held;
      tailer := null;

      if !fates.launch.result.stopped && fates.cancelledOnExit.Threw? { flow := Throws(OtherFailure); return; }
      if fates.launch.result.stopped || fates.cancelledOnExit.Yes? {
        flow, log := Cancel(sink, Spawned, log, fates.abort);
        return;
      }
      log := log + [InjectionEnded(InjectionEndReason(fates.launch.result)), Ending];
      if !fates.markClosing { flow := Throws(OtherFailure); return; }
      flow, stage := Continues, Closing;
    }

    /** Decides the run's outcome, from the run it found. */
    method End(sink: RunnerLiveSink, before: seq<Event>, fates: Fates, result: ProcessResult)
      returns (flow: Flow, line: Option<Event>, log: seq<Event>, ghost found: Live)
      requires sink.Valid() && sink.isOpen && !sink.closed && sink.kept == None
      modifies sink`closed, sink`kept, sink.backend
      ensures sink.Valid() && old(sink.backend.live.file) <= sink.backend.live.file
      ensures (flow.Returns? && log == before + [RunEnded] && line == None) || (flow.Throws? && log == before)
      ensures flow.Returns? ==> !StoppedEarly(result) && sink.closed && fates.markComplete && sink.attemptBytes > 0
      ensures line.Some? <==> flow == Throws(EndedEarlyFailure)
      ensures line.Some? ==>
                && StoppedEarly(result) && sink.closed && sink.attemptBytes > 0
                && line.value == EndedEarly(InjectionEndReason(result), sink.kept.Some?)
      ensures flow == Throws(Signalled) || flow == Throws(LogNotFound) ==>
                sink.closed && sink.kept == None && sink.attemptBytes == 0
                && (flow == Throws(Signalled) <==> WasTerminated(result))
      ensures sink.kept.Some? ==> sink.kept.value <= sink.backend.live.file
      ensures sink.kept.Some? && StoppedEarly(result) ==>
                && sink.kept.value != [] && sink.backend.live.row.abandoned
                && (Forward(sink.backend.live.file) ==> Pull(sink.kept.value).end == AtEnd)
      ensures sink.kept.Some? && !StoppedEarly(result) && found.bundle.None? ==> sink.offset <= |sink.kept.value|
      ensures sink.kept.Some? ==> sink.closed && IsKept(sink.kept, sink.backend.live, sink.backend.taken)
      ensures OthersMayDo(old(sink.backend.live), found) && (old(sink.backend.queued) ==> sink.backend.queued)
      ensures Settled(found, result, sink.attemptBytes, fates.close, sink.maxLogBytes, sink.kept, sink.backend.queued)
      ensures flow.Returns? <==> EndsWell(found, result, sink.attemptBytes, fates)
      ensures sink.closed ==> !sink.backend.live.row.status.Running?
      ensures found.row.status.Running? ==>
                LeavesRun(found, sink.backend.live, result, sink.attemptBytes, fates, sink.maxLogBytes, sink.closed,
                          sink.kept, sink.backend.taken)
    {
      line, log := None, before;
      sink.backend.Interfere();
      found := sink.backend.live;
      ghost var s := found;
      if sink.attemptBytes == 0 {
        var threw := sink.AbortIncomplete(fates.abort);
        if threw { flow := Throws(OtherFailure); return; }
        flow := Throws(if WasTerminated(result) then Signalled else LogNotFound);
        return;
      }
      if StoppedEarly(result) {
        var threw, outcome := sink.CloseAbandoned(fates.close);
        if threw { flow := Throws(OtherFailure); return; }
        if outcome == Kept { KeptLogParses(s, fates.close, sink.maxLogBytes, sink.backend.live.file); }
        line := Some(EndedEarlyEvent(result, outcome));
        flow := Throws(EndedEarlyFailure);
        return;
      }
      var threw := sink.Close(fates.close);
      if s.bundle.None? { AssembleLaid(s.chunks, s.file, 0, s.row.cursor); }
      if threw { flow := Throws(OtherFailure); return; }
      if !fates.markComplete { flow := Throws(OtherFailure); return; }
      flow, log := Returns, log + [RunEnded];
    }

    /** The catch: stops what is still running, lets the start lines land, and gives the log its one last line. */
    method Recover(sink: RunnerLiveSink, tailer: SimulationLogTailer?, stage: Stage, line: Option<Event>,
                   failure: Failure, before: seq<Event>, starting: seq<Event>, fates: Fates)
      returns (log: seq<Event>)
      requires sink.Valid() && (tailer != null ==> tailer.sink == sink && tailer.Valid())
      requires sink.closed ==> tailer == null || sink.kept == None
      modifies sink`offset, sink`attemptBytes, sink`rejected, sink`closed, sink.backend
      modifies if tailer == null then {} else {tailer}
      ensures sink.Valid()
      ensures old(sink.closed) && tailer == null ==>
                sink.backend.live == old(sink.backend.live) && sink.backend.taken == old(sink.backend.taken)
      ensures tailer == null ==>
                sink.attemptBytes == old(sink.attemptBytes) && (old(sink.backend.queued) ==> sink.backend.queued)
      ensures log == before + starting + LastLines(stage, line, failure, fates)
      ensures (old(sink.rejected) ==> sink.rejected) && old(sink.backend.live.file) <= sink.backend.live.file
      ensures old(sink.hasRun) && !old(sink.closed) && fates.lastAbort.claim ==>
                !sink.backend.live.row.status.Running? && (fates.lastAbort.marks == 0 ==> sink.closed)
    {
      if tailer != null {
        var threw, seen := tailer.Stop(fates.lateRead);
      }
      if sink.hasRun && !sink.closed {
        sink.backend.Interfere();
        var threw := sink.AbortIncomplete(fates.lastAbort);
      }
      log := before + starting;
      if line.Some? {
        log := log + [line.value];
      } else if stage != Closing && fates.cancelledAtEnd.Yes? {
        log := log + CancelledEnding(stage);
      } else {
        log := log + [RunFailed(failure)];
      }
    }

    /** The try: everything up to the throw or the return. */
    method Attempt(sink: RunnerLiveSink, fates: Fates)
      returns (flow: Flow, stage: Stage, line: Option<Event>, log: seq<Event>, starting: seq<Event>,
               tailer: SimulationLogTailer?, exited: Option<seq<byte>>, ghost found: Live, lastRead: bool)
      requires sink.Valid() && !sink.hasRun && !sink.closed && sink.kept == None
      modifies sink, sink.backend
      ensures sink.Valid()
      ensures tailer != null ==>
                fresh(tailer) && tailer.sink == sink && tailer.Valid() && sink.kept == None && !sink.closed
      ensures sink.closed ==> !sink.backend.live.row.status.Running?
      ensures flow.Returns? ==> sink.closed
      ensures flow.Returns? ==>
                || (CancelledStory(log) && sink.kept == None && !MarksClosing(fates, lastRead))
                || (CompletedStory(log, fates) && sink.closed && sink.attemptBytes > 0
                    && MarksClosing(fates, lastRead))
      ensures !flow.Continues?
      ensures flow.Throws? ==> Reached(log + starting, stage, MarksClosing(fates, lastRead), fates)
      ensures line.Some? <==> flow == Throws(EndedEarlyFailure)
      ensures line.Some? ==>
                && stage == Closing && StoppedEarly(fates.launch.result) && sink.closed && sink.attemptBytes > 0
                && line.value == EndedEarly(InjectionEndReason(fates.launch.result), sink.kept.Some?)
      ensures flow.Throws? ==> NothingWritten(flow.failure, sink.kept, sink.attemptBytes, fates)
      ensures line.Some? || flow == Throws(Signalled) || flow == Throws(LogNotFound) ==> tailer == null
      ensures sink.kept.Some? ==> fates.launch.Exited? && (stage == Closing || flow.Returns?)
      ensures sink.kept.Some? && StoppedEarly(fates.launch.result) && Forward(sink.backend.live.file) ==>
                Pull(sink.kept.value).end == AtEnd
      ensures sink.kept.Some? ==>
                sink.closed && IsKept(sink.kept, sink.backend.live, sink.backend.taken)
      ensures flow.Returns? && sink.kept.Some? && exited.Some? && found.bundle.None? ==>
                exited.value <= sink.kept.value
      ensures MarksClosing(fates, lastRead) && fates.markClosing ==>
                && LastPollSees(fates, old(sink.backend.live.file), exited)
                && tailer == null && (flow.Returns? ==> CompletedStory(log, fates))
                && Settled(found, fates.launch.result, sink.attemptBytes, fates.close, sink.maxLogBytes, sink.kept,
                           sink.backend.queued)
                && (flow.Returns? <==> EndsWell(found, fates.launch.result, sink.attemptBytes, fates))
      ensures Prepares(fates) && fates.launch.Exited? && !lastRead ==> InTrouble(sink, AllPolls(fates))
      ensures !(MarksClosing(fates, lastRead) && fates.markClosing) ==>
                sink.kept == None && (flow.Returns? ==> CancelledStory(log))
    {
      starting, line, tailer, exited, lastRead, found := [], None, null, None, false, sink.backend.live;
      flow, stage, log := Prepare(sink, fates);
      assert log + [] == log;
      if !flow.Continues? { return; }
      flow, stage, log, starting, tailer, exited, lastRead := Inject(sink, log, fates);
      if !flow.Continues? { return; }
      flow, line, log, found := End(sink, log, fates, fates.launch.result);
      assert log + [] == log;
    }

    /**
     * A whole job. Besides what its log tells: a log its sink recorded is on
     * the row and in the store, is a prefix of simulation.log, and, when the
     * job says the run ended, holds every byte the file had when Gatling was
     * gone, if the last read found the file and no bundle was stored earlier.
     */
    method Run(fates: Fates)
      returns (log: seq<Event>, sink: RunnerLiveSink, exited: Option<seq<byte>>, ghost found: Live, lastRead: bool)
      requires Sound(backend.live)
      modifies backend
      ensures fresh(sink) && sink.backend == backend && Sound(backend.live)
      ensures Tells(log, sink.kept, sink.attemptBytes, MarksClosing(fates, lastRead), fates)
      ensures RunEnded in log ==> sink.closed
      ensures sink.kept.Some? ==>
                && IsKept(sink.kept, backend.live, backend.taken)
                && fates.launch.Exited?
                && (StoppedEarly(fates.launch.result) && Forward(backend.live.file)
                    ==> Pull(sink.kept.value).end == AtEnd)
      ensures sink.kept.Some? && RunEnded in log && exited.Some? && found.bundle.None? ==>
                exited.value <= sink.kept.value
      ensures var closing := MarksClosing(fates, lastRead) && fates.markClosing;
        && (closing ==> Settled(found, fates.launch.result, sink.attemptBytes, fates.close, maxLogBytes, sink.kept,
                                backend.queued))
        && (!closing ==> sink.kept == None)
        && (closing ==> LastPollSees(fates, old(backend.live.file), exited))
        && (RunEnded in log <==> closing && EndsWell(found, fates.launch.result, sink.attemptBytes, fates))
      ensures Prepares(fates) && fates.launch.Exited? && !lastRead ==> InTrouble(sink, AllPolls(fates))
      ensures sink.hasRun && fates.lastAbort.claim ==> !backend.live.row.status.Running?
    {
      sink := new RunnerLiveSink(backend, maxLogBytes);
      var flow, stage, line, starting, tailer;
      flow, stage, line, log, starting, tailer, exited, found, lastRead := Attempt(sink, fates);
      if flow.Throws? {
        ghost var landed, rejected, file := log + starting, sink.rejected, backend.live.file;
        log := Recover(sink, tailer, stage, line, flow.failure, log, starting, fates);
        RecoveredTells(landed, stage, MarksClosing(fates, lastRead), line, flow.failure, fates, sink.kept,
            sink.attemptBytes);
        if Troubled(rejected, file, maxLogBytes, AllPolls(fates)) {
          TroubleLasts(rejected, file, maxLogBytes, AllPolls(fates), sink.rejected, backend.live.file, [], []);
          EmptyThen([], AllPolls(fates));
        }
      } else if CancelledStory(log) {
        CancelledTells(log, sink.attemptBytes, fates);
      } else {
        CompletedTells(log, sink.kept, sink.attemptBytes, fates);
      }
    }
  }
}
