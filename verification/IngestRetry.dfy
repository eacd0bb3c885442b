/**
 * One ingest job over all its attempts: the queue's retries, the consumer's
 * split of errors (apps/worker/src/consumer.ts), and what the pipeline records
 * of a failure (apps/worker/src/pipeline/pipeline.service.ts).
 */
module IngestRetry {
  import opened Bytes
  import opened LiveRun

  /** How often an ingest job is tried (packages/core/src/ingest-queue.ts). */
  const ATTEMPTS := 3

  /**
   * What befalls one attempt: the database is not reached before the run is
   * marked; the live fold still holds the run's lock; the run is gone or
   * another processor has it; it is ingested; or ingesting fails, and writing
   * that failure down is answered or throws in turn.
   */
  datatype Trial =
    | Unreached(transient: bool)
    | FoldHoldsLock
    | Elsewhere
    | Ingested(abandoned: bool)
    | Fails(transient: bool, recording: Recording)

  datatype Recording = Recorded | Threw(transient: bool)

  /** What the consumer tells the pipeline before an attempt (consumer.ts). */
  predicate QueueWillRetry(attemptsMade: nat, attempts: Option<nat>)
  {
    attemptsMade + 1 < (if attempts.Some? then attempts.value else 1)
  }

  /** The queue's own record of a job: the attempts that failed, and whether it is done with it. */
  datatype Job = Job(made: nat, attempts: Option<nat>, over: bool)

  /** An attempt threw: the job fails for good when the error is unrecoverable or no attempt is left. */
  function OnThrow(job: Job, unrecoverable: bool): (next: Job)
  {
    var allowed := if job.attempts.None? || job.attempts.value == 0 then 1 else job.attempts.value;
    job.(made := job.made + 1, over := unrecoverable || job.made + 1 >= allowed)
  }

  /** What the pipeline was told is what the queue does, if the attempt throws an error it may retry. */
  lemma ToldTheTruth(job: Job, unrecoverable: bool)
    ensures !OnThrow(job, unrecoverable).over <==> !unrecoverable && QueueWillRetry(job.made, job.attempts)
  {
  }

  /** `PipelineService.process`: the run's status after, and the error thrown, if any: whether it is transient. */
  function Process(status: Status, trial: Trial, willRetry: bool): (r: (Status, Option<bool>))
  {
    match trial
    case Unreached(transient) => (status, Some(transient))
    case FoldHoldsLock => (status, if Decided(status) then None else Some(true))
    case Elsewhere => (status, None)
    case Ingested(abandoned) =>
      if Decided(status) then (status, None) else (if abandoned then Incomplete else Complete, None)
    case Fails(transient, recording) =>
      if Decided(status) then (status, None)
      else if willRetry && transient then (Parsing, Some(true))
      else
        match recording
        case Recorded => (Status.Failed, Some(transient))
        case Threw(again) => (Parsing, Some(again))
  }

  /** A job's life: the run's status when the queue is done with it, and how many attempts that took. */
  datatype Life = Life(status: Status, used: nat)

  /** The queue runs the job until an attempt returns, or it is done with it. */
  function RunJob(status: Status, trials: seq<Trial>, job: Job): (life: Life)
    requires |trials| > 0
    ensures 1 <= life.used <= |trials|
    decreases |trials|
  {
    var (after, thrown) := Process(status, trials[0], QueueWillRetry(job.made, job.attempts));
    if thrown.None? || OnThrow(job, !thrown.value).over || |trials| == 1 then Life(after, 1)
    else
      var rest := RunJob(after, trials[1..], OnThrow(job, !thrown.value));
      Life(rest.status, rest.used + 1)
  }

  function Fresh(attempts: Option<nat>): Job { Job(0, attempts, false) }

  /** The loop the queue runs, with the consumer's conversion of deterministic errors. */
  method Work(status: Status, trials: seq<Trial>, attempts: Option<nat>) returns (life: Life)
    requires |trials| > 0 && (attempts.Some? ==> attempts.value <= |trials|)
    ensures life == RunJob(status, trials, Fresh(attempts))
    ensures life.used <= 1 || (attempts.Some? && life.used <= attempts.value)
  {
    var now, job, used := status, Fresh(attempts), 0;
    while true
      invariant used == job.made < |trials| && job.attempts == attempts
      invariant job.made > 0 ==> attempts.Some? && job.made < attempts.value
      invariant var rest := RunJob(now, trials[used..], job);
        RunJob(status, trials, Fresh(attempts)) == Life(rest.status, rest.used + used)
      decreases |trials| - used
    {
      var willRetry := QueueWillRetry(job.made, attempts);
      var (after, thrown) := Process(now, trials[used], willRetry);
      assert trials[used..][1..] == trials[used + 1..];
      now := after;
      if thrown.None? { return Life(now, used + 1); }
      var unrecoverable := !thrown.value;
      ToldTheTruth(job, unrecoverable);
      job := OnThrow(job, unrecoverable);
      if job.over { return Life(now, used + 1); }
      used := used + 1;
    }
  }

  /** Whether an attempt got to ingesting and was able to say how that went. */
  predicate Conclusive(trial: Trial)
  {
    trial.Ingested? || (trial.Fails? && trial.recording.Recorded?)
  }

  /** The attempt the queue stopped at. */
  lemma {:induction false} StopsAt(status: Status, trials: seq<Trial>, job: Job, attempts: nat)
    requires job.attempts == Some(attempts) && |trials| + job.made == attempts && |trials| > 0 && !Terminal(status)
    ensures var life := RunJob(status, trials, job);
      && (Conclusive(trials[life.used - 1]) <==> Terminal(life.status))
      && (Terminal(life.status) ==>
            (life.status.Failed? <==> trials[life.used - 1].Fails?))
      && (forall k :: 0 <= k < life.used - 1 ==> Process(status, trials[k], true).1 == Some(true))
      && (life.used < |trials| ==> Process(status, trials[life.used - 1], true).1 != Some(true))
    decreases |trials|
  {
    var (after, thrown) := Process(status, trials[0], QueueWillRetry(job.made, job.attempts));
    if thrown.Some? {
      ToldTheTruth(job, !thrown.value);
      var next := OnThrow(job, !thrown.value);
      if !next.over {
        assert after == Parsing || after == status;
        StopsAt(after, trials[1..], next, attempts);
        var life := RunJob(status, trials, job);
        forall k | 0 <= k < life.used - 1 ensures Process(status, trials[k], true).1 == Some(true) {
          if k > 0 { assert Process(after, trials[1..][k - 1], true).1 == Some(true); }
        }
      }
    }
  }

  /**
   * A transient failure goes unrecorded exactly while the queue will really try
   * again: when the queue is done with a job, its run is at an end exactly if
   * the last attempt got to ingesting and its outcome was written. Every run
   * left over is one the sweeper's `parsing` arm exists for.
   */
  lemma NoFailureIsLost(status: Status, trials: seq<Trial>)
    requires |trials| == ATTEMPTS && !Terminal(status)
    ensures var life := RunJob(status, trials, Fresh(Some(ATTEMPTS)));
      && (Terminal(life.status) <==> Conclusive(trials[life.used - 1]))
      && (life.used < ATTEMPTS ==> Process(status, trials[life.used - 1], true).1 != Some(true))
  {
    StopsAt(status, trials, Fresh(Some(ATTEMPTS)), ATTEMPTS);
  }

  /** A run that is complete or failed stays so, whatever its job meets. */
  lemma {:induction false} DecidedStays(status: Status, trials: seq<Trial>, job: Job)
    requires Decided(status) && |trials| > 0
    ensures RunJob(status, trials, job).status == status
    decreases |trials|
  {
    var (after, thrown) := Process(status, trials[0], QueueWillRetry(job.made, job.attempts));
    if thrown.Some? && |trials| > 1 { DecidedStays(after, trials[1..], OnThrow(job, !thrown.value)); }
  }

  /** An attempt the queue should make again: the run's lock was held, or the database was away, or ingesting was. */
  predicate Transient(trial: Trial)
  {
    trial.FoldHoldsLock? || (trial.Unreached? && trial.transient) || (trial.Fails? && trial.transient)
  }

  /** An attempt that ends the job: it returns, or throws an error the queue must not retry. */
  predicate Lasting(trial: Trial)
  {
    !Transient(trial) && !(trial.Fails? && trial.recording == Threw(true))
  }

  /**
   * Attempts to be made again, fewer than there are, do not touch the outcome:
   * the job ends at the first one that lasts, with what that one came to.
   */
  lemma {:induction false} TransientFailuresAreForgiven(status: Status, trials: seq<Trial>, n: nat, job: Job,
        attempts: nat)
    requires !Terminal(status) && n < |trials| && job.attempts == Some(attempts) && |trials| + job.made == attempts
    requires forall k :: 0 <= k < n ==> Transient(trials[k])
    requires Lasting(trials[n])
    ensures var life := RunJob(status, trials, job);
      && life.used == n + 1
      && (trials[n].Ingested? ==> life.status == if trials[n].abandoned then Incomplete else Complete)
      && (trials[n].Fails? && trials[n].recording.Recorded? ==> life.status.Failed?)
      && (!Conclusive(trials[n]) ==> !Terminal(life.status))
    decreases n
  {
    if n > 0 {
      ToldTheTruth(job, false);
      var (after, thrown) := Process(status, trials[0], QueueWillRetry(job.made, job.attempts));
      TransientFailuresAreForgiven(after, trials[1..], n - 1, OnThrow(job, false), attempts);
    }
  }
}
