/** How a worker settles the job it ran, and when settling a job ends the worker itself. */
module Workers {
  import opened Wrappers
  import opened JobTables
  import opened JobQueues
  import JobProtocol
  import JobSafety

  /** What the executor did, by the exception it raised if it raised one. */
  datatype Execution =
    | Returned(progress: Option<string>)
    | RaisedLeaseLost
    | RaisedPermanent(error: Failure)
    | RaisedOther(error: Failure)

  /** `Refused`: the lease was lost and nothing was completed. `Escaped`: the lease loss leaves `run_once`. */
  datatype Ending = Settled | Refused | Escaped

  function Power2(n: nat): nat { if n == 0 then 1 else 2 * Power2(n - 1) }

  /** One minute, doubling, at most an hour. */
  function RetryDelay(attemptNumber: nat): nat {
    var delay := 60 * Power2(if attemptNumber >= 1 then attemptNumber - 1 else 0);
    if delay > 3600 then 3600 else delay
  }

  function Settlement(s: State, lease: JobLease, execution: Execution, heartbeatFailed: bool, now: Instant): (State, Ending) {
    var holds := Holds(s, lease.jobId, lease.token);
    match execution
    case Returned(progress) =>
      if heartbeatFailed then (s, Refused)
      else (JobTables.Succeed(s, lease.jobId, lease.token, now, progress), if holds then Settled else Refused)
    case RaisedLeaseLost => (s, Refused)
    case RaisedPermanent(error) =>
      (JobTables.Fail(s, lease.jobId, lease.token, now, None, error), if holds then Settled else Escaped)
    case RaisedOther(error) =>
      (JobTables.Fail(s, lease.jobId, lease.token, now, RetryAt(lease, true, RetryDelay(lease.attemptNumber), now), error),
       if holds then Settled else Escaped)
  }

  class Worker {
    const queue: JobQueue

    constructor (queue: JobQueue)
      ensures this.queue == queue
    {
      this.queue := queue;
    }

    /** `run_once` from the end of the execution on. */
    method Settle(lease: JobLease, execution: Execution, heartbeatFailed: bool, now: Instant) returns (ending: Ending)
      modifies queue.repository
      ensures (queue.repository.St(), ending) == Settlement(old(queue.repository.St()), lease, execution, heartbeatFailed, now)
    {
      match execution {
        case Returned(progress) =>
          if heartbeatFailed {
            return Refused;
          }
          var done := queue.Succeed(lease, now, progress);
          ending := if done.Ok? then Settled else Refused;
        case RaisedLeaseLost =>
          ending := Refused;
        case RaisedPermanent(error) =>
          var failed := queue.Fail(lease, error, false, 0, now);
          ending := if failed.Ok? then Settled else Escaped;
        case RaisedOther(error) =>
          var failed := queue.Fail(lease, error, true, RetryDelay(lease.attemptNumber), now);
          ending := if failed.Ok? then Settled else Escaped;
      }
    }
  }

  lemma {:induction false} PowerGrows(m: nat, n: nat)
    requires m <= n
    ensures 1 <= Power2(m) <= Power2(n)
  {
    if m < n {
      PowerGrows(m, n - 1);
    } else if n > 0 {
      PowerGrows(m - 1, n - 1);
    }
  }

  /** Retries never come closer together: from one minute the delay doubles up to one hour, which the seventh attempt reaches. */
  lemma RetryDelayGrows(a: nat, b: nat)
    requires a <= b
    ensures 60 <= RetryDelay(a) <= RetryDelay(b) <= 3600
    ensures RetryDelay(b) == 3600 <==> b >= 7
    ensures RetryDelay(0) == RetryDelay(1) == 60
    ensures a >= 1 ==> RetryDelay(a + 1) == if a >= 6 then 3600 else 2 * RetryDelay(a)
  {
    if a >= 6 {
      PowerGrows(6, a);
    }
    PowerGrows(if a >= 1 then a - 1 else 0, if b >= 1 then b - 1 else 0);
    assert Power2(5) == 32 && Power2(6) == 64;
    if b >= 7 {
      PowerGrows(6, b - 1);
    } else if b >= 1 {
      PowerGrows(b - 1, 5);
    }
  }

  /**
   In every reachable state: a settled job is finished exactly as the execution went, and a
   worker without the lease changes nothing. The loss leaves `run_once`, and with it ends
   the worker, exactly when the execution itself had failed.
   */
  lemma SettlementFollowsExecution(steps: seq<JobProtocol.Step>, lease: JobLease, execution: Execution, heartbeatFailed: bool)
    requires lease in JobSafety.Reached(steps).records
    ensures var s := JobSafety.Reached(steps);
            var (db, ending) := Settlement(s.db, lease, execution, heartbeatFailed, s.now);
            && (ending == Settled <==>
                  Holds(s.db, lease.jobId, lease.token) && !execution.RaisedLeaseLost? && !(execution.Returned? && heartbeatFailed))
            && (ending != Settled ==> db == s.db)
            && (ending == Escaped <==>
                  !Holds(s.db, lease.jobId, lease.token) && (execution.RaisedPermanent? || execution.RaisedOther?))
            && (ending == Settled ==>
                  && lease.jobId in db.jobs && !Holds(db, lease.jobId, lease.token)
                  && var row := db.jobs[lease.jobId];
                     && (execution.Returned? ==> row.status == Succeeded && row.progress == execution.progress)
                     && (execution.RaisedPermanent? ==> row.status == Failed && row.lastError == Some(execution.error))
                     && (execution.RaisedOther? ==> row.lastError == Some(execution.error))
                     && (execution.RaisedOther? ==>
                           if row.attemptCount < row.spec.maxAttempts
                           then row.status == Queued && row.availableAt == s.now + RetryDelay(row.attemptCount) * 1_000_000
                           else row.status == Failed))
  {
    JobSafety.ReachedInv(steps);
    var s := JobSafety.Reached(steps);
    if Holds(s.db, lease.jobId, lease.token) {
      JobProtocol.HeldIsLast(s, lease);
    }
  }
}
