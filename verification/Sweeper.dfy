/**
 * One sweep (apps/worker/src/sweeper.ts): a transaction that routes each stale
 * row, the assembly of the abandoned runs it claimed, then the retention pass.
 */
module Sweeper {
  import opened Bytes
  import opened Closing
  import opened LiveRun
  import opened Retention
  import opened StreamingDecoder

  type RunId = nat

  datatype JobState = Waiting | Delayed | Prioritized | Active | Done | Dead

  /** A parsing job, one per run: the run's id is the job's id. */
  datatype Job = Job(state: JobState, attemptsMade: nat)

  type Queue = map<RunId, Job>

  predicate OnTrack(q: Queue, run: RunId)
  {
    run in q && (q[run].state.Waiting? || q[run].state.Delayed? || q[run].state.Prioritized? || q[run].state.Active?)
  }

  /** Whether the queue answers what it holds for a run, and whether it then takes the job. */
  datatype QueueFate = QueueFate(read: bool, wrote: bool)

  /** The queue after `#reenqueue` when its calls succeed. */
  ghost predicate Reenqueued(q: Queue, r: Queue, run: RunId)
  {
    && OnTrack(r, run)
    && (OnTrack(q, run) ==> r == q)
    && (!OnTrack(q, run) ==> r[run].attemptsMade == 0)
    && r.Keys == q.Keys + {run}
    && (forall other :: other in q && other != run ==> r[other] == q[other])
  }

  /** What the transaction does to the row of a run it selects. */
  ghost predicate RouteMoves(s: Live, t: Live)
  {
    && (!s.row.status.Running? ==> t == s)
    && (s.row.status.Running? && s.row.cursor == 0 ==> t == s.(row := s.row.(status := Incomplete)))
    && (s.row.status.Running? && s.row.cursor > 0 ==> t == Claimed(s))
  }

  /** The run as a sweeper's claim leaves it: at `parsing`, marked abandoned. */
  function Claimed(s: Live): Live { s.(row := s.row.(status := Parsing, abandoned := true)) }

  class Sweeper {
    const maxDecompressedBundleBytes: nat
    /** The run table and each run's objects. */
    var runs: map<RunId, Live>
    var queue: Queue
    var sweeping: bool
    /** The runs a pipeline worker has taken. */
    ghost var taken: set<RunId>
    const retention: RetentionWalk

    constructor (ceiling: nat, runs: map<RunId, Live>, queue: Queue, retention: RetentionWalk)
      ensures maxDecompressedBundleBytes == ceiling && this.runs == runs && this.queue == queue && !sweeping
      ensures this.retention == retention
    {
      maxDecompressedBundleBytes, this.retention := ceiling, retention;
      this.runs, this.queue, sweeping, taken := runs, queue, false, {};
    }

    /** Everyone else's turn at a run this sweeper has claimed: its sink, Gatling, a pipeline worker. */
    method Others(run: RunId)
      requires run in runs
      modifies `runs, `taken
      ensures OnlyAt(old(runs), runs, run) && old(taken) <= taken <= old(taken) + {run}
      ensures WhileClosed(old(runs)[run], runs[run], run in taken)
    {
    }

    /** `Queue.add` on an id the queue already knows changes nothing. */
    method Add(run: RunId, ok: bool)
      modifies `queue
      ensures queue == if ok && run !in old(queue) then old(queue)[run := Job(Waiting, 0)] else old(queue)
    {
      if ok && run !in queue { queue := queue[run := Job(Waiting, 0)]; }
    }

    /** Finished or failed jobs are retried with fresh attempts; a job on its way is left alone. */
    method ReenqueueRun(run: RunId, fate: QueueFate) returns (ok: bool)
      modifies `queue
      ensures if ok then Reenqueued(old(queue), queue, run) else queue == old(queue)
      ensures ok <==> fate.read && (OnTrack(old(queue), run) || fate.wrote)
    {
      if !fate.read { return false; }
      if run !in queue {
        Add(run, fate.wrote);
        return fate.wrote;
      }
      var state := queue[run].state;
      if state.Dead? || state.Done? {
        if fate.wrote { queue := queue[run := Job(Waiting, 0)]; }
        return fate.wrote;
      }
      ok := true;
    }

    /**
     * The work after the commit, for a run the transaction claimed, others
     * having their turn at every await. A failure before the log is recorded
     * ends the run `incomplete`; after it, the run is left at `parsing` for a
     * later sweep. Never throws.
     */
    method AssembleAbandoned(run: RunId, calls: Calls) returns (kept: bool)
      requires run in runs && runs[run].row.status == Parsing && runs[run].row.abandoned
      modifies `runs, `queue, `taken
      ensures OnlyAt(old(runs), runs, run) && old(taken) <= taken <= old(taken) + {run}
      ensures SweeperEnd(old(runs)[run], runs[run], kept, calls, maxDecompressedBundleBytes, run in taken)
      ensures queue == old(queue) || (kept && Reenqueued(old(queue), queue, run))
      ensures kept && calls.refusals == 0 ==> OnTrack(queue, run)
    {
      Others(run);
      ghost var seen := runs[run];
      var (live, finalized) := FinalizeChunks(runs[run], calls);
      runs := runs[run := live];
      var whole := FetchWhole(run, finalized, calls);
      kept := KeepOrMark(run, whole, seen, calls);
      Witnessed(old(runs)[run], seen, runs[run], kept, calls, maxDecompressedBundleBytes, run in taken);
    }

    /** What follows the truncation: nothing decodable, a log to keep, or a failure. */
    method KeepOrMark(run: RunId, whole: Option<seq<byte>>, ghost seen: Live, calls: Calls) returns (kept: bool)
      requires run in runs && seen.row.abandoned && Unkept(seen, runs[run], false, run in taken)
      requires whole == if calls.finalize && calls.fetch then WholeLog(seen, calls) else None
      modifies `runs, `queue, `taken
      ensures OnlyAt(old(runs), runs, run) && old(taken) <= taken <= old(taken) + {run}
      ensures AssembledEnd(seen, runs[run], kept, calls, maxDecompressedBundleBytes, run in taken)
      ensures queue == old(queue) || (kept && Reenqueued(old(queue), queue, run))
      ensures kept && calls.refusals == 0 ==> OnTrack(queue, run)
    {
      var failures := calls.marks;
      if whole == Some([]) {
        var marked := MarkUnkept(run, seen, failures);
        if marked {
          UnkeptIsAssembledEnd(seen, runs[run], calls, maxDecompressedBundleBytes, true, run in taken);
          return false;
        }
        failures := failures - 1;
      } else if whole.Some? {
        kept := StoreWhole(run, whole.value, seen, calls);
        if kept {
          var enqueued := ReenqueueRun(run, QueueFate(calls.refusals == 0, calls.refusals == 0));
          return;
        }
      }
      var marked := MarkUnkept(run, seen, failures);
      UnkeptIsAssembledEnd(seen, runs[run], calls, maxDecompressedBundleBytes, marked, run in taken);
      kept := false;
    }

    /** Reads the bundle back and cuts it to whole records. */
    method FetchWhole(run: RunId, finalized: bool, calls: Calls) returns (whole: Option<seq<byte>>)
      requires run in runs
      ensures whole == if finalized && calls.fetch then WholeOf(runs[run].bundle, calls.turns) else None
    {
      if !finalized || !calls.fetch || runs[run].bundle.None? { return None; }
      var cut := TruncateToWholeRecords(runs[run].bundle.value, calls.turns);
      whole := if cut.Whole? then Some(cut.log) else None;
    }

    /** One statement that marks the run incomplete; it fails while any failures are left. */
    method MarkUnkept(run: RunId, ghost seen: Live, failures: nat) returns (marked: bool)
      requires run in runs && Unkept(seen, runs[run], false, run in taken)
      modifies `runs, `taken
      ensures OnlyAt(old(runs), runs, run) && old(taken) <= taken <= old(taken) + {run}
      ensures marked == (failures == 0) && Unkept(seen, runs[run], marked, run in taken)
    {
      ghost var t, was := runs[run], run in taken;
      Others(run);
      UnkeptStays(seen, t, runs[run], was, run in taken);
      marked := failures == 0;
      if marked { runs := runs[run := runs[run].(row := MarkIncomplete(runs[run].row))]; }
    }

    /** Stores the whole-record log, then records it, whatever the row's status. */
    method StoreWhole(run: RunId, whole: seq<byte>, ghost seen: Live, calls: Calls) returns (kept: bool)
      requires run in runs && Unkept(seen, runs[run], false, run in taken)
      modifies `runs, `taken
      ensures OnlyAt(old(runs), runs, run) && old(taken) <= taken <= old(taken) + {run}
      ensures kept <==> |whole| <= maxDecompressedBundleBytes && calls.store && calls.record
      ensures !kept ==> Unkept(seen, runs[run], false, run in taken)
      ensures kept ==>
        var row := runs[run].row;
        && runs[run].bundle == Some(whole)
        && Unkept(seen, runs[run].(row := row.(recorded := seen.row.recorded)), false, run in taken)
        && row.recorded == Some(whole)
    {
      if |whole| > maxDecompressedBundleBytes || (!calls.store && !calls.storeLanded) { return false; }
      runs := runs[run := runs[run].(bundle := Some(whole))];
      ghost var t, was := runs[run], run in taken;
      Others(run);
      UnkeptStays(seen, t, runs[run], was, run in taken);
      if !calls.store || !calls.record { return false; }
      runs := runs[run := runs[run].(row := runs[run].row.(recorded := Some(whole)))];
      kept := true;
    }

    /**
     * The transaction. It throws when a statement or a re-enqueue fails, or the
     * COMMIT does, whether or not that landed: every selected row is routed, or
     * none. A job enqueued before a rollback stays enqueued. `rows` is what
     * becomes of each row's statement, or of its re-enqueue.
     */
    method RouteRows(selected: seq<RunId>, rows: map<RunId, QueueFate>, commits: bool, landed: bool)
      returns (threw: bool, toAssemble: seq<RunId>)
      requires Selects(selected, runs) && forall r :: r in selected ==> r in rows
      modifies `runs, `queue
      ensures threw ==> runs == old(runs) || (landed && AllRouted(old(runs), runs, selected))
      ensures threw && landed && (forall r :: r in selected ==> rows[r].read && rows[r].wrote) ==>
                AllRouted(old(runs), runs, selected)
      ensures !threw ==> AllRouted(old(runs), runs, selected) && Collects(old(runs), toAssemble, selected)
      ensures !threw ==> Enqueued(old(runs), queue, selected)
      ensures OnlyEnqueues(old(runs), old(queue), queue, selected)
      ensures threw ==> !commits || exists r :: r in selected && !(rows[r].read && rows[r].wrote)
      ensures !threw ==> commits && forall r :: r in selected ==> rows[r].read
    {
      var before := runs;
      toAssemble := [];
      ghost var done: seq<RunId> := [];
      for i := 0 to |selected|
        invariant before == old(runs) && done == selected[..i]
        invariant AllRouted(before, runs, done) && Collects(before, toAssemble, done)
        invariant Enqueued(before, queue, done) && OnlyEnqueues(before, old(queue), queue, selected)
        invariant forall r :: r in done ==> rows[r].read
      {
        var run := selected[i];
        assert selected[..i + 1] == done + [run] && run !in done;
        assert runs[run] == before[run];
        var answered := rows[run].read;
        ghost var q, r, t := queue, runs, toAssemble;
        if !runs[run].row.status.Running? {
          answered := ReenqueueRun(run, rows[run]);
        } else if answered {
          if runs[run].row.cursor == 0 {
            runs := runs[run := runs[run].(row := MarkIncomplete(runs[run].row))];
          } else {
            var (row, claimed) := ClaimForClose(runs[run].row, true);
            runs := runs[run := runs[run].(row := row)];
            toAssemble := toAssemble + [run];
          }
        }
        if !answered {
          runs := before;
          return true, [];
        }
        RoutedOne(before, r, runs, done, run);
        CollectedOne(before, t, toAssemble, done, run);
        EnqueuedOne(before, q, queue, done, run);
        done := done + [run];
      }
      assert selected[..|selected|] == selected;
      threw := !commits;
      if threw {
        toAssemble := [];
        if !landed { runs := before; }
      }
    }

    /** The assemblies after the commit, one run at a time. */
    method AssembleAll(toAssemble: seq<RunId>, calls: map<RunId, Calls>)
      requires Distinct(toAssemble) && forall r :: r in toAssemble ==> r in calls
      requires forall r :: r in toAssemble ==> r in runs && runs[r].row.status == Parsing && runs[r].row.abandoned
      modifies `runs, `queue, `taken
      ensures runs.Keys == old(runs).Keys && forall r :: r in runs && r !in toAssemble ==> runs[r] == old(runs)[r]
      ensures AllAssembled(old(runs), runs, queue, toAssemble, calls, maxDecompressedBundleBytes, taken)
      ensures old(taken) <= taken && KeepsJobs(old(queue), queue)
    {
      ghost var before := runs;
      ghost var done: seq<RunId> := [];
      for i := 0 to |toAssemble|
        invariant before == old(runs) && runs.Keys == before.Keys && done == toAssemble[..i] && old(taken) <= taken
        invariant forall r :: r in runs && r !in done ==> runs[r] == before[r]
        invariant AllAssembled(before, runs, queue, done, calls, maxDecompressedBundleBytes, taken)
        invariant KeepsJobs(old(queue), queue)
      {
        assert toAssemble[..i + 1] == done + [toAssemble[i]] && toAssemble[i] !in done;
        AssembleNext(toAssemble[i], calls, before, done);
        done := done + [toAssemble[i]];
      }
      assert toAssemble[..|toAssemble|] == toAssemble;
    }

    method AssembleNext(run: RunId, calls: map<RunId, Calls>, ghost before: Runs, ghost done: seq<RunId>)
      requires run !in done && run in runs && run in calls && run in before && runs[run] == before[run]
      requires runs[run].row.status == Parsing && runs[run].row.abandoned
      requires AllAssembled(before, runs, queue, done, calls, maxDecompressedBundleBytes, taken)
      modifies `runs, `queue, `taken
      ensures OnlyAt(old(runs), runs, run) && old(taken) <= taken
      ensures AllAssembled(before, runs, queue, done + [run], calls, maxDecompressedBundleBytes, taken)
      ensures KeepsJobs(old(queue), queue)
    {
      ghost var r, q, was := runs, queue, taken;
      var kept := AssembleAbandoned(run, calls[run]);
      AssembledOne(before, r, runs, q, queue, done, run, kept, calls, maxDecompressedBundleBytes, was, taken);
    }

    /**
     * One recovery. When it throws, no row has moved, unless the COMMIT landed
     * with its answer lost: then every row is routed and nothing is assembled.
     * Otherwise every selected run at `parsing` has a job on its way, every run
     * with no byte is `incomplete`, every other run at `running` ends as
     * `SweeperEnd` says, and no run outside the selection is touched.
     */
    method RecoverStale(selected: seq<RunId>, rows: map<RunId, QueueFate>, calls: map<RunId, Calls>, commits: bool,
                        landed: bool)
      returns (threw: bool)
      requires Selects(selected, runs) && forall r :: r in selected ==> r in rows && r in calls
      modifies `runs, `queue, `taken
      ensures threw ==> runs == old(runs) || (landed && AllRouted(old(runs), runs, selected))
      ensures threw && landed && (forall r :: r in selected ==> rows[r].read && rows[r].wrote) ==>
                AllRouted(old(runs), runs, selected)
      ensures !threw ==> Recovered(old(runs), runs, queue, selected, calls, maxDecompressedBundleBytes, taken)
      ensures runs.Keys == old(runs).Keys && (forall r :: r in runs && r !in selected ==> runs[r] == old(runs)[r])
      ensures !threw ==> forall r :: r in selected && !old(runs)[r].row.status.Running? ==>
                runs[r] == old(runs)[r] && OnTrack(queue, r)
      ensures !threw ==> forall r ::
                r in selected && old(runs)[r].row.status.Running? && old(runs)[r].row.cursor == 0 ==>
                runs[r] == old(runs)[r].(row := old(runs)[r].row.(status := Incomplete))
      ensures !threw ==> forall r ::
                r in selected && old(runs)[r].row.status.Running? && old(runs)[r].row.cursor > 0 ==>
                exists kept ::
                  SweeperEnd(old(runs)[r].(row := old(runs)[r].row.(status := Parsing, abandoned := true)), runs[r],
                             kept, calls[r], maxDecompressedBundleBytes, r in taken)
                  && (kept && calls[r].refusals == 0 ==> OnTrack(queue, r))
      ensures threw ==> !commits || exists r :: r in selected && !(rows[r].read && rows[r].wrote)
      ensures !threw ==> commits
    {
      ghost var before := runs;
      var toAssemble;
      threw, toAssemble := RouteRows(selected, rows, commits, landed);
      if threw { return; }
      ghost var routed, mid := runs, queue;
      RoutedIsClaimed(before, routed, toAssemble, selected);
      AssembleAll(toAssemble, calls);
      AssembledIsRecovered(before, routed, runs, mid, queue, toAssemble, selected, calls, maxDecompressedBundleBytes,
          taken);
      forall r | r in selected ensures RecoveredAt(before, runs, queue, r, calls, maxDecompressedBundleBytes, taken) {}
    }

    /**
     * One firing. While a sweep is under way it does nothing. Otherwise the
     * recovery, then, unless it threw, the retention pass; the flag is cleared
     * however they end.
     */
    method Sweep(selected: seq<RunId>, rows: map<RunId, QueueFate>, calls: map<RunId, Calls>, commits: bool,
                 landed: bool, answers: seq<bool>, fates: map<nat, OneFate>)
      returns (threw: bool, ghost retained: bool, ghost seen: seq<seq<nat>>, ghost attempted: seq<nat>,
               ghost deeds: seq<Deed>)
      requires Selects(selected, runs) && (forall r :: r in selected ==> r in rows && r in calls)
      requires retention.Valid() && retention.pagesPerSweep <= |answers|
      requires forall k :: k in retention.keys ==> k in fates
      modifies this, retention
      ensures retention.Valid() && sweeping == old(sweeping)
      ensures old(sweeping) ==> !threw && runs == old(runs) && queue == old(queue)
      ensures retained ==>
                && Recovered(old(runs), runs, queue, selected, calls, maxDecompressedBundleBytes, taken)
                && Passed(old(retention.cursor), retention.cursor, seen, attempted, deeds, fates, threw,
                          retention.pageSize, if retention.days > 0 then retention.pagesPerSweep else 0)
      ensures !retained ==> retention.runs == old(retention.runs) && retention.cursor == old(retention.cursor)
      ensures !old(sweeping) && commits && (forall r :: r in selected ==> rows[r].read && rows[r].wrote) ==> retained
      ensures !old(sweeping) && !threw ==> retained
    {
      threw, retained, seen, attempted, deeds := false, false, [], [], [];
      if sweeping { return; }
      sweeping := true;
      threw, retained, seen, attempted, deeds :=
        SweepOnce(selected, rows, calls, commits, landed, answers, fates);
      sweeping := false;
    }

    /** The guarded part: it may throw between its halves or in either. */
    method SweepOnce(selected: seq<RunId>, rows: map<RunId, QueueFate>, calls: map<RunId, Calls>, commits: bool,
                     landed: bool, answers: seq<bool>, fates: map<nat, OneFate>)
      returns (threw: bool, ghost retained: bool, ghost seen: seq<seq<nat>>, ghost attempted: seq<nat>,
               ghost deeds: seq<Deed>)
      requires Selects(selected, runs) && (forall r :: r in selected ==> r in rows && r in calls)
      requires retention.Valid() && retention.pagesPerSweep <= |answers|
      requires forall k :: k in retention.keys ==> k in fates
      modifies `runs, `queue, `taken, retention
      ensures retention.Valid()
      ensures retained ==>
                && Recovered(old(runs), runs, queue, selected, calls, maxDecompressedBundleBytes, taken)
                && Passed(old(retention.cursor), retention.cursor, seen, attempted, deeds, fates, threw,
                          retention.pageSize, if retention.days > 0 then retention.pagesPerSweep else 0)
      ensures !retained ==> threw && retention.runs == old(retention.runs) && retention.cursor == old(retention.cursor)
      ensures !retained ==> !commits || exists r :: r in selected && !(rows[r].read && rows[r].wrote)
    {
      retained, seen, attempted, deeds := false, [], [], [];
      threw := RecoverStale(selected, rows, calls, commits, landed);
      if threw { return; }
      retained := true;
      ghost var states;
      threw, states, seen, attempted, deeds := retention.RetainRawLogs(answers, fates);
    }
  }

  // ----- A set of rows routed, and then assembled -----

  type Runs = map<RunId, Live>

  /** Only this run has moved. */
  ghost predicate OnlyAt(s: Runs, t: Runs, run: RunId)
  {
    t.Keys == s.Keys && run in t && forall r :: r in t && r != run ==> t[r] == s[r]
  }

  lemma Witnessed(s: Live, seen: Live, t: Live, kept: bool, calls: Calls, ceiling: nat, taken: bool)
    requires WhileClosed(s, seen, taken) && AssembledEnd(seen, t, kept, calls, ceiling, taken)
    ensures SweeperEnd(s, t, kept, calls, ceiling, taken)
  {
  }

  ghost predicate Distinct(ids: seq<RunId>) { forall i, j :: 0 <= i < j < |ids| ==> ids[i] != ids[j] }

  /** What the query selects: runs there are, each once. */
  ghost predicate Selects(selected: seq<RunId>, runs: Runs)
  {
    Distinct(selected) && forall r :: r in selected ==> r in runs
  }

  /** These rows are as the transaction leaves them, and no others have moved. */
  ghost predicate AllRouted(before: Runs, runs: Runs, done: seq<RunId>)
  {
    && runs.Keys == before.Keys
    && forall r :: r in runs ==> if r in done then RouteMoves(before[r], runs[r]) else runs[r] == before[r]
  }

  /** The runs claimed for assembly are those done that were at `running` with a byte, each once. */
  ghost predicate Collects(before: Runs, toAssemble: seq<RunId>, done: seq<RunId>)
  {
    && Distinct(toAssemble)
    && forall r :: r in toAssemble <==>
         r in done && r in before && before[r].row.status.Running? && before[r].row.cursor > 0
  }

  /** Every row done that was not at `running` has a job on its way. */
  ghost predicate Enqueued(before: Runs, queue: Queue, done: seq<RunId>)
  {
    forall r :: r in done && r in before && !before[r].row.status.Running? ==> OnTrack(queue, r)
  }

  /** No run at `running` is ever enqueued, and none outside the selection. */
  ghost predicate OnlyEnqueues(before: Runs, was: Queue, queue: Queue, selected: seq<RunId>)
  {
    forall r :: r in queue ==> r in was || (r in selected && r in before && !before[r].row.status.Running?)
  }

  ghost predicate AllAssembled(before: Runs, runs: Runs, queue: Queue, done: seq<RunId>, calls: map<RunId, Calls>,
      ceiling: nat, taken: set<RunId>)
  {
    forall r :: r in done ==> AssembledAt(before, runs, queue, r, calls, ceiling, taken)
  }

  /** A run whose log is kept has a job on its way, unless the queue refused it. */
  ghost predicate AssembledAt(before: Runs, runs: Runs, queue: Queue, r: RunId, calls: map<RunId, Calls>, ceiling: nat,
      taken: set<RunId>)
  {
    && r in before && r in runs && r in calls
    && exists kept :: SweeperEnd(before[r], runs[r], kept, calls[r], ceiling, r in taken)
                      && (kept && calls[r].refusals == 0 ==> OnTrack(queue, r))
  }

  /** What a recovery that returned has done of each run, and of the queue. */
  ghost predicate Recovered(before: Runs, runs: Runs, queue: Queue, selected: seq<RunId>, calls: map<RunId, Calls>,
      ceiling: nat, taken: set<RunId>)
  {
    && runs.Keys == before.Keys
    && forall r :: r in runs ==>
         if r in selected then RecoveredAt(before, runs, queue, r, calls, ceiling, taken) else runs[r] == before[r]
  }

  ghost predicate RecoveredAt(before: Runs, runs: Runs, queue: Queue, r: RunId, calls: map<RunId, Calls>,
      ceiling: nat, taken: set<RunId>)
  {
    && r in before && r in runs && r in calls
    && (!before[r].row.status.Running? ==> runs[r] == before[r] && OnTrack(queue, r))
    && (before[r].row.status.Running? && before[r].row.cursor == 0 ==> RouteMoves(before[r], runs[r]))
    && (before[r].row.status.Running? && before[r].row.cursor > 0 ==>
          exists kept :: SweeperEnd(Claimed(before[r]), runs[r], kept, calls[r], ceiling, r in taken)
                         && (kept && calls[r].refusals == 0 ==> OnTrack(queue, r)))
  }

  /** No job on its way is lost. */
  ghost predicate KeepsJobs(q: Queue, r: Queue) { forall run :: OnTrack(q, run) ==> OnTrack(r, run) }

  lemma RoutedOne(before: Runs, was: Runs, runs: Runs, done: seq<RunId>, run: RunId)
    requires AllRouted(before, was, done) && run in before && run !in done
    requires run in runs && runs == was[run := runs[run]] && RouteMoves(before[run], runs[run])
    ensures AllRouted(before, runs, done + [run])
  {
  }

  lemma CollectedOne(before: Runs, was: seq<RunId>, toAssemble: seq<RunId>, done: seq<RunId>, run: RunId)
    requires Collects(before, was, done) && run in before && run !in done
    requires toAssemble == if before[run].row.status.Running? && before[run].row.cursor > 0 then was + [run] else was
    ensures Collects(before, toAssemble, done + [run])
  {
    forall r ensures r in done + [run] <==> r in done || r == run {}
    if before[run].row.status.Running? && before[run].row.cursor > 0 {
      forall r ensures r in toAssemble <==> r in was || r == run {}
    }
  }

  lemma EnqueuedOne(before: Runs, was: Queue, queue: Queue, done: seq<RunId>, run: RunId)
    requires Enqueued(before, was, done) && run in before
    requires if before[run].row.status.Running? then queue == was else Reenqueued(was, queue, run)
    ensures Enqueued(before, queue, done + [run])
  {
  }

  lemma AssembledOne(before: Runs, was: Runs, runs: Runs, earlierQueue: Queue, queue: Queue, done: seq<RunId>,
                     run: RunId, kept: bool, calls: map<RunId, Calls>, ceiling: nat, earlier: set<RunId>,
                     taken: set<RunId>)
    requires AllAssembled(before, was, earlierQueue, done, calls, ceiling, earlier) && KeepsJobs(earlierQueue, queue)
    requires run !in done && run in before && run in calls
    requires runs.Keys == was.Keys && run in runs && forall r :: r in runs && r != run ==> runs[r] == was[r]
    requires earlier <= taken <= earlier + {run}
    requires SweeperEnd(before[run], runs[run], kept, calls[run], ceiling, run in taken)
    requires kept && calls[run].refusals == 0 ==> OnTrack(queue, run)
    ensures AllAssembled(before, runs, queue, done + [run], calls, ceiling, taken)
  {
    forall r | r in done + [run] ensures AssembledAt(before, runs, queue, r, calls, ceiling, taken) {
      if r != run {
        assert AssembledAt(before, was, earlierQueue, r, calls, ceiling, earlier) && runs[r] == was[r];
        assert r in earlier <==> r in taken;
      }
    }
  }

  lemma RoutedIsClaimed(before: Runs, routed: Runs, toAssemble: seq<RunId>, selected: seq<RunId>)
    requires AllRouted(before, routed, selected) && Collects(before, toAssemble, selected)
    ensures forall r :: r in toAssemble ==>
              r in selected && r in routed && routed[r].row.status == Parsing && routed[r].row.abandoned
  {
  }

  lemma AssembledIsRecovered(before: Runs, routed: Runs, runs: Runs, mid: Queue, queue: Queue, toAssemble: seq<RunId>,
                             selected: seq<RunId>, calls: map<RunId, Calls>, ceiling: nat, taken: set<RunId>)
    requires AllRouted(before, routed, selected) && Collects(before, toAssemble, selected)
    requires forall r :: r in selected ==> r in calls
    requires runs.Keys == routed.Keys && forall r :: r in runs && r !in toAssemble ==> runs[r] == routed[r]
    requires AllAssembled(routed, runs, queue, toAssemble, calls, ceiling, taken)
    requires Enqueued(before, mid, selected) && KeepsJobs(mid, queue)
    ensures Recovered(before, runs, queue, selected, calls, ceiling, taken)
  {
    forall r | r in runs && r in selected ensures RecoveredAt(before, runs, queue, r, calls, ceiling, taken) {
      assert RouteMoves(before[r], routed[r]);
      if r in toAssemble {
        assert AssembledAt(routed, runs, queue, r, calls, ceiling, taken);
      } else if !before[r].row.status.Running? {
        assert OnTrack(mid, r);
      }
    }
  }
}
