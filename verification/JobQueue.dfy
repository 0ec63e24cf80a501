/**
 The code that changes the job tables: the repository, one method a transaction, and
 the queue a worker calls. Each method is proved to do what `JobTables` says it does.
 */
module JobQueues {
  import opened Wrappers
  import opened JobTables

  // ---------------------------------------------------------------- the repository

  class JobRepository {
    var jobs: Jobs
    var attempts: Attempts

    ghost function St(): State reads this { State(jobs, attempts) }

    constructor ()
      ensures St() == State(map[], map[])
    {
      jobs, attempts := map[], map[];
    }

    /** Insert unless the key is taken; then hand back the row that has it. */
    method Enqueue(id: JobId, spec: Spec, availableAt: Instant, createdAt: Instant)
      returns (stored: JobId, created: bool)
      requires id !in jobs
      modifies this
      ensures created == !KeyTaken(old(jobs), spec.key)
      ensures St() == JobTables.Enqueue(old(St()), id, spec, availableAt, createdAt)
      ensures created <==> spec.key.None? || forall other :: other in old(jobs) ==> old(jobs)[other].spec.key != spec.key
      ensures created ==>
                && stored == id && attempts == old(attempts)
                && jobs == old(jobs)[id := Job(spec, Queued, 0, availableAt, createdAt, createdAt, None, None, None, None)]
      ensures !created ==> St() == old(St())
      ensures stored in jobs && (spec.key.Some? ==> jobs[stored].spec.key == spec.key)
    {
      if KeyTaken(jobs, spec.key) {
        var existing :| existing in jobs && jobs[existing].spec.key == spec.key;
        return existing, false;
      }
      jobs := jobs[id := NewJob(spec, availableAt, createdAt)];
      return id, true;
    }

    /** One exhausted row and its attempt, after those in `done`. */
    method ExpireRow(ghost was: State, ghost done: set<JobId>, id: JobId, now: Instant)
      requires St() == Expire(was, done, now)
      requires id !in done && ExpiresRow(was, {id}, now, id)
      modifies this
      ensures St() == Expire(was, done + {id}, now)
    {
      ExpireOneMore(was, done, id, now);
      var k := (id, jobs[id].attemptCount);
      jobs := jobs[id := ExpiredJob(jobs[id], now)];
      if k in attempts && attempts[k].status == InFlight {
        attempts := attempts[k := ExpiredAttempt(attempts[k], now, "Worker lease expired.")];
      }
    }

    method ExpireExhaustedLeases(visible: set<JobId>, now: Instant) returns (count: nat)
      modifies this
      ensures St() == Expire(old(St()), visible, now)
      ensures count == |ExpiredRows(old(St()), visible, now)|
    {
      ghost var was := St();
      var todo := ExpiredRows(State(jobs, attempts), visible, now);
      count := |todo|;
      ghost var expired, done := todo, {};
      ExpireNone(was, now);
      while todo != {}
        invariant done !! todo && done + todo == expired
        invariant forall id :: id in todo ==> ExpiresRow(was, {id}, now, id)
        invariant St() == Expire(was, done, now)
      {
        var id :| id in todo;
        ExpireRow(was, done, id, now);
        todo, done := todo - {id}, done + {id};
      }
      assert done == expired;
      ExpireRows(was, visible, now);
    }

    method Claim(expirable: set<JobId>, visible: set<JobId>, worker: string, token: Token,
                 now: Instant, expires: Instant) returns (lease: Option<JobLease>)
      modifies this
      ensures (St(), lease) == JobTables.Claim(old(St()), expirable, visible, worker, token, now, expires)
    {
      var _ := ExpireExhaustedLeases(expirable, now);
      ghost var s1 := St();
      var ids := set id | id in visible && id in jobs && Claimable(jobs[id], now);
      assert ids == Candidates(s1, visible, now);
      if ids == {} {
        return None;
      }
      FirstExists(s1, visible, now);
      var id :| id in ids && forall other :: other in ids && other != id ==> ClaimedBefore(jobs, id, other);
      assert First(s1.jobs, ids, id);
      FirstIsUnique(s1.jobs, ids, id, FirstCandidate(s1, visible, now));
      var job := jobs[id];
      if job.status == Running && job.lease.Some? {
        var k := (id, job.attemptCount);
        if k in attempts && attempts[k].status == InFlight {
          attempts := attempts[k := ExpiredAttempt(attempts[k], now, "Worker lease expired and the job was reclaimed.")];
        }
      }
      var number := job.attemptCount + 1;
      jobs := jobs[id := job.(status := Running, attemptCount := number,
                              lease := Some(StoredLease(worker, token, expires)),
                              updatedAt := now, lastError := None)];
      attempts := attempts[(id, number) := Attempt(token, worker, now, None, InFlight, None)];
      return Some(LeaseFor(job, id, worker, token, expires));
    }

    method Heartbeat(id: JobId, token: Token, now: Instant, expires: Instant, progress: Option<string>)
      returns (ok: bool)
      modifies this
      ensures ok == Holds(old(St()), id, token)
      ensures St() == JobTables.Heartbeat(old(St()), id, token, now, expires, progress)
    {
      ok := id in jobs && jobs[id].status == Running && jobs[id].lease.Some? && jobs[id].lease.value.token == token;
      if ok {
        var job := jobs[id].(lease := Some(jobs[id].lease.value.(expiresAt := expires)), updatedAt := now);
        if progress.Some? {
          job := job.(progress := progress);
        }
        jobs := jobs[id := job];
      }
    }

    method Succeed(id: JobId, token: Token, now: Instant, progress: Option<string>) returns (ok: bool)
      modifies this
      ensures ok == Holds(old(St()), id, token)
      ensures St() == JobTables.Succeed(old(St()), id, token, now, progress)
    {
      ok := id in jobs && jobs[id].status == Running && jobs[id].lease.Some? && jobs[id].lease.value.token == token;
      if !ok {
        return;
      }
      jobs := jobs[id := jobs[id].(status := Succeeded, progress := progress, completedAt := Some(now),
                                   updatedAt := now, lease := None)];
      attempts := CloseAttempts(attempts, id, token, now, Completed, None);
    }

    method Fail(id: JobId, token: Token, now: Instant, retryAt: Option<Instant>, error: Failure) returns (ok: bool)
      modifies this
      ensures ok == Holds(old(St()), id, token)
      ensures St() == JobTables.Fail(old(St()), id, token, now, retryAt, error)
    {
      ok := id in jobs && jobs[id].status == Running && jobs[id].lease.Some? && jobs[id].lease.value.token == token;
      if !ok {
        return;
      }
      var canRetry := retryAt.Some? && jobs[id].attemptCount < jobs[id].spec.maxAttempts;
      var job := jobs[id].(status := if canRetry then Queued else Failed, updatedAt := now,
                           completedAt := if canRetry then None else Some(now), lease := None, lastError := Some(error));
      if canRetry {
        job := job.(availableAt := retryAt.value);
      }
      jobs := jobs[id := job];
      attempts := CloseAttempts(attempts, id, token, now, Errored, Some(error));
    }

    /** Delete the oldest terminal jobs, at most `limit`, and all their attempts. */
    method PruneCompletedBefore(visible: set<JobId>, before: Instant, limit: nat) returns (doomed: set<JobId>)
      modifies this
      ensures PruneBatch(old(St()), visible, before, limit, doomed)
      ensures St() == Prune(old(St()), doomed)
    {
      doomed := OldestFirst(jobs, Prunable(State(jobs, attempts), visible, before), limit);
      if doomed == {} {
        PruneNothing(St(), doomed);
        return;
      }
      attempts := map k | k in attempts && k.0 !in doomed :: attempts[k];
      jobs := jobs - doomed;
    }
  }

  /** `ORDER BY completed_at, job_id LIMIT n` over terminal rows. */
  method OldestFirst(jobs: Jobs, eligible: set<JobId>, limit: nat) returns (first: set<JobId>)
    requires forall id :: id in eligible ==> id in jobs && jobs[id].completedAt.Some?
    ensures first <= eligible && |first| == (if |eligible| < limit then |eligible| else limit)
    ensures forall d, r :: d in first && r in eligible - first ==> PrunedBefore(jobs, d, r)
  {
    first := {};
    var rest := eligible;
    while |first| < limit && rest != {}
      invariant first + rest == eligible && first !! rest
      invariant |first| <= limit && |eligible| == |first| + |rest|
      invariant forall d, r :: d in first && r in rest ==> PrunedBefore(jobs, d, r)
      decreases |rest|
    {
      LeastExists(rest, (i: JobId, j: JobId) => PrunedBefore(jobs, i, j));
      var id :| id in rest && forall other :: other in rest && other != id ==> PrunedBefore(jobs, id, other);
      first := first + {id};
      rest := rest - {id};
    }
  }

  // ---------------------------------------------------------------- the worker's queue

  datatype QueueError = LeaseLost | BadArgument

  /** `JobQueue`: reads the clock, asks the repository, and reports a lost lease. */
  class JobQueue {
    const repository: JobRepository
    const leaseSeconds: nat

    constructor (repository: JobRepository, leaseSeconds: nat)
      requires leaseSeconds >= 30
      ensures this.repository == repository && this.leaseSeconds == leaseSeconds
    {
      this.repository, this.leaseSeconds := repository, leaseSeconds;
    }

    method Claim(expirable: set<JobId>, visible: set<JobId>, worker: string, token: Token, now: Instant)
      returns (lease: Option<JobLease>)
      modifies repository
      ensures (repository.St(), lease)
           == JobTables.Claim(old(repository.St()), expirable, visible, worker, token, now, now + leaseSeconds * SECOND)
    {
      lease := repository.Claim(expirable, visible, worker, token, now, now + leaseSeconds * SECOND);
    }

    method Heartbeat(lease: JobLease, now: Instant, progress: Option<string>) returns (r: Result<JobLease, QueueError>)
      modifies repository
      ensures repository.St()
           == JobTables.Heartbeat(old(repository.St()), lease.jobId, lease.token, now, now + leaseSeconds * SECOND, progress)
      ensures r == if Holds(old(repository.St()), lease.jobId, lease.token)
                   then Ok(lease.(expiresAt := now + leaseSeconds * SECOND)) else Err(LeaseLost)
    {
      var ok := repository.Heartbeat(lease.jobId, lease.token, now, now + leaseSeconds * SECOND, progress);
      r := if ok then Ok(lease.(expiresAt := now + leaseSeconds * SECOND)) else Err(LeaseLost);
    }

    method Succeed(lease: JobLease, now: Instant, progress: Option<string>) returns (r: Result<(), QueueError>)
      modifies repository
      ensures repository.St() == JobTables.Succeed(old(repository.St()), lease.jobId, lease.token, now, progress)
      ensures r == if Holds(old(repository.St()), lease.jobId, lease.token) then Ok(()) else Err(LeaseLost)
    {
      var ok := repository.Succeed(lease.jobId, lease.token, now, progress);
      r := if ok then Ok(()) else Err(LeaseLost);
    }

    method Fail(lease: JobLease, error: Failure, retryable: bool, delaySeconds: int, now: Instant)
      returns (r: Result<FailureResult, QueueError>)
      modifies repository
      ensures delaySeconds < 0 ==> r == Err(BadArgument) && repository.St() == old(repository.St())
      ensures delaySeconds >= 0 ==>
                && repository.St() == JobTables.Fail(old(repository.St()), lease.jobId, lease.token, now,
                                                RetryAt(lease, retryable, delaySeconds, now), error)
                && r == if Holds(old(repository.St()), lease.jobId, lease.token)
                        then Ok(ReportedFailure(lease, RetryAt(lease, retryable, delaySeconds, now)))
                        else Err(LeaseLost)
    {
      if delaySeconds < 0 {
        return Err(BadArgument);
      }
      var retryAt := None;
      if retryable && lease.attemptNumber < lease.maxAttempts {
        retryAt := Some(now + delaySeconds * SECOND);
      }
      var ok := repository.Fail(lease.jobId, lease.token, now, retryAt, error);
      if !ok {
        return Err(LeaseLost);
      }
      return Ok(FailureResult(lease.jobId, if retryAt.Some? then Queued else Failed, retryAt));
    }
  }
}
