/**
 The leased job queue: the `jobs` and `job_attempts` tables and what each statement
 makes of them.

 Every repository call is one transaction and so one atomic step. `SKIP LOCKED`
 is modelled by a set of visible rows that the caller does not choose: whatever is
 proved holds for every such set.
 */
module JobTables {
  import opened Wrappers

  type JobId = nat
  type Token = nat

  /** Microseconds since an epoch, the resolution of a timestamp column. */
  type Instant = int

  const SECOND := 1_000_000

  datatype Status = Queued | Running | Succeeded | Failed | Cancelled

  datatype AttemptStatus = InFlight | Completed | Errored | LeaseExpired

  datatype Key = ScheduleKey(scheduleId: nat, at: Instant) | CallerKey(text: string)

  datatype Failure = Failure(category: string, summary: string)

  /** `lease_owner`, `lease_token` and `lease_expires_at` are set and cleared together. */
  datatype StoredLease = StoredLease(owner: string, token: Token, expiresAt: Instant)

  /** As a caller gave it, or a schedule's template with its placeholders replaced for one instant. */
  datatype Payload = AsGiven(json: string) | Materialized(template: string, at: Instant)

  /** What the enqueuer fixes and no later step changes. */
  datatype Spec = Spec(
    kind: string,
    resourceKey: Option<string>,
    payload: Payload,
    key: Option<Key>,
    priority: int,
    maxAttempts: nat)

  datatype Job = Job(
    spec: Spec,
    status: Status,
    attemptCount: nat,
    availableAt: Instant,
    createdAt: Instant,
    updatedAt: Instant,
    completedAt: Option<Instant>,
    lease: Option<StoredLease>,
    progress: Option<string>,
    lastError: Option<Failure>)
  {
    predicate Terminal() { status in {Succeeded, Failed, Cancelled} }
  }

  datatype Attempt = Attempt(
    token: Token,
    worker: string,
    startedAt: Instant,
    completedAt: Option<Instant>,
    status: AttemptStatus,
    error: Option<Failure>)

  type Jobs = map<JobId, Job>
  type Attempts = map<(JobId, nat), Attempt>

  datatype State = State(jobs: Jobs, attempts: Attempts)

  /** The record a worker keeps for the job it claimed. */
  datatype JobLease = JobLease(
    jobId: JobId,
    kind: string,
    resourceKey: Option<string>,
    payload: Payload,
    attemptNumber: nat,
    maxAttempts: nat,
    owner: string,
    token: Token,
    expiresAt: Instant)

  datatype FailureResult = FailureResult(jobId: JobId, status: Status, retryAt: Option<Instant>)

  // ---------------------------------------------------------------- queries

  predicate Exhausted(job: Job, now: Instant) {
    job.status == Running && job.lease.Some? && job.lease.value.expiresAt <= now
    && job.attemptCount >= job.spec.maxAttempts
  }

  predicate Claimable(job: Job, now: Instant) {
    || (job.status == Queued && job.availableAt <= now)
    || (job.status == Running && job.lease.Some? && job.lease.value.expiresAt <= now
        && job.attemptCount < job.spec.maxAttempts)
  }

  /** The lease columns that `heartbeat`, `succeed` and `fail` are fenced by. */
  predicate Holds(s: State, id: JobId, token: Token) {
    id in s.jobs && s.jobs[id].status == Running
    && s.jobs[id].lease.Some? && s.jobs[id].lease.value.token == token
  }

  /** `ORDER BY priority DESC, available_at, created_at, job_id`. */
  predicate ClaimedBefore(jobs: Jobs, i: JobId, j: JobId) {
    && i in jobs && j in jobs
    && var a, b := jobs[i], jobs[j];
       if a.spec.priority != b.spec.priority then a.spec.priority > b.spec.priority
       else if a.availableAt != b.availableAt then a.availableAt < b.availableAt
       else if a.createdAt != b.createdAt then a.createdAt < b.createdAt
       else i < j
  }

  /** `ORDER BY completed_at, job_id`. */
  predicate PrunedBefore(jobs: Jobs, i: JobId, j: JobId) {
    && i in jobs && j in jobs && jobs[i].completedAt.Some? && jobs[j].completedAt.Some?
    && var a, b := jobs[i].completedAt.value, jobs[j].completedAt.value;
       a < b || (a == b && i < j)
  }

  function Candidates(s: State, visible: set<JobId>, now: Instant): set<JobId> {
    set id | id in visible && id in s.jobs && Claimable(s.jobs[id], now)
  }

  function Prunable(s: State, visible: set<JobId>, before: Instant): set<JobId> {
    set id | id in visible && id in s.jobs && s.jobs[id].Terminal()
             && s.jobs[id].completedAt.Some? && s.jobs[id].completedAt.value < before
  }

  ghost predicate First(jobs: Jobs, ids: set<JobId>, id: JobId) {
    id in ids && forall other :: other in ids && other != id ==> ClaimedBefore(jobs, id, other)
  }

  /** The rows one bounded prune deletes: the oldest eligible ones, at most `limit`. */
  ghost predicate PruneBatch(s: State, visible: set<JobId>, before: Instant, limit: nat, doomed: set<JobId>) {
    var eligible := Prunable(s, visible, before);
    && doomed <= eligible
    && |doomed| == (if |eligible| < limit then |eligible| else limit)
    && forall d, r :: d in doomed && r in eligible - doomed ==> PrunedBefore(s.jobs, d, r)
  }

  /** A finite set that a strict total order compares has a first element. */
  lemma LeastExists(ids: set<JobId>, less: (JobId, JobId) -> bool)
    requires ids != {}
    requires forall a, b :: a in ids && b in ids && a != b ==> less(a, b) || less(b, a)
    requires forall a, b, c :: a in ids && b in ids && c in ids && less(a, b) && less(b, c) ==> less(a, c)
    ensures exists m :: m in ids && forall other :: other in ids && other != m ==> less(m, other)
  {
    var x :| x in ids;
    var rest := ids - {x};
    if rest == {} {
      assert forall other :: other in ids ==> other == x || other in rest;
    } else {
      LeastExists(rest, less);
      var m :| m in rest && forall other :: other in rest && other != m ==> less(m, other);
      if less(m, x) {
        assert forall other :: other in ids && other != m ==> other == x || other in rest;
      } else {
        assert less(x, m);
        assert forall other :: other in ids && other != x ==> other in rest;
      }
    }
  }

  lemma FirstExists(s: State, visible: set<JobId>, now: Instant)
    requires Candidates(s, visible, now) != {}
    ensures exists id :: First(s.jobs, Candidates(s, visible, now), id)
  {
    var ids := Candidates(s, visible, now);
    LeastExists(ids, (i: JobId, j: JobId) => ClaimedBefore(s.jobs, i, j));
    var m :| m in ids && forall other :: other in ids && other != m ==> ClaimedBefore(s.jobs, m, other);
    assert First(s.jobs, ids, m);
  }

  lemma FirstIsUnique(jobs: Jobs, ids: set<JobId>, a: JobId, b: JobId)
    requires First(jobs, ids, a) && First(jobs, ids, b)
    ensures a == b
  {
    assert a != b ==> ClaimedBefore(jobs, a, b);
    assert b != a ==> ClaimedBefore(jobs, b, a);
  }

  ghost function FirstCandidate(s: State, visible: set<JobId>, now: Instant): (id: JobId)
    requires Candidates(s, visible, now) != {}
    ensures First(s.jobs, Candidates(s, visible, now), id)
  {
    FirstExists(s, visible, now);
    var id :| First(s.jobs, Candidates(s, visible, now), id);
    id
  }

  // ---------------------------------------------------------------- statements

  function NewJob(spec: Spec, availableAt: Instant, createdAt: Instant): Job {
    Job(spec, Queued, 0, availableAt, createdAt, createdAt, None, None, None, None)
  }

  /** The unique index on `idempotency_key` already holds this key. */
  predicate KeyTaken(jobs: Jobs, key: Option<Key>) {
    key.Some? && exists id :: id in jobs && jobs[id].spec.key == key
  }

  function Enqueue(s: State, id: JobId, spec: Spec, availableAt: Instant, now: Instant): State {
    if KeyTaken(s.jobs, spec.key) then s
    else s.(jobs := s.jobs[id := NewJob(spec, availableAt, now)])
  }

  function ExpiredJob(job: Job, now: Instant): Job {
    job.(status := Failed, completedAt := Some(now), updatedAt := now, lease := None,
         lastError := Some(Failure("lease_expired", "Worker lease expired after the final allowed attempt.")))
  }

  function ExpiredAttempt(attempt: Attempt, now: Instant, summary: string): Attempt {
    attempt.(status := LeaseExpired, completedAt := Some(now),
             error := Some(Failure("lease_expired", summary)))
  }

  /** The rows `expire_exhausted_leases` closes. */
  predicate ExpiresRow(s: State, visible: set<JobId>, now: Instant, id: JobId) {
    id in visible && id in s.jobs && Exhausted(s.jobs[id], now)
  }

  function Expire(s: State, visible: set<JobId>, now: Instant): State {
    State(
      map id | id in s.jobs ::
        if ExpiresRow(s, visible, now, id) then ExpiredJob(s.jobs[id], now) else s.jobs[id],
      map k | k in s.attempts ::
        if ExpiresRow(s, visible, now, k.0) && k.1 == s.jobs[k.0].attemptCount
           && s.attempts[k].status == InFlight
        then ExpiredAttempt(s.attempts[k], now, "Worker lease expired.")
        else s.attempts[k])
  }

  function ExpiredRows(s: State, visible: set<JobId>, now: Instant): set<JobId> {
    set id | id in visible && id in s.jobs && Exhausted(s.jobs[id], now)
  }

  lemma ExpireNone(s: State, now: Instant)
    ensures Expire(s, {}, now) == s
  {
    assert Expire(s, {}, now).jobs == s.jobs;
    assert Expire(s, {}, now).attempts == s.attempts;
  }

  lemma ExpireRows(s: State, visible: set<JobId>, now: Instant)
    ensures Expire(s, ExpiredRows(s, visible, now), now) == Expire(s, visible, now)
  {
    var a, b := Expire(s, ExpiredRows(s, visible, now), now), Expire(s, visible, now);
    assert a.jobs == b.jobs;
    assert a.attempts == b.attempts;
  }

  /** One more row of the loop in `expire_exhausted_leases`. */
  lemma ExpireOneMore(s: State, done: set<JobId>, id: JobId, now: Instant)
    requires id !in done && ExpiresRow(s, {id}, now, id)
    ensures var k := (id, s.jobs[id].attemptCount);
            var part, next := Expire(s, done, now), Expire(s, done + {id}, now);
            && part.jobs[id] == s.jobs[id]
            && (k in part.attempts <==> k in s.attempts) && (k in s.attempts ==> part.attempts[k] == s.attempts[k])
            && next.jobs == part.jobs[id := ExpiredJob(s.jobs[id], now)]
            && next.attempts == (if k in s.attempts && s.attempts[k].status == InFlight
                                 then part.attempts[k := ExpiredAttempt(s.attempts[k], now, "Worker lease expired.")]
                                 else part.attempts)
  {
    var k := (id, s.jobs[id].attemptCount);
    var part, next := Expire(s, done, now), Expire(s, done + {id}, now);
    forall x | x in s.attempts && x != k
      ensures next.attempts[x] == part.attempts[x]
    {
      assert x.0 == id ==> x.1 != k.1;
    }
    assert next.jobs.Keys == s.jobs.Keys && part.jobs.Keys == s.jobs.Keys;
    assert next.attempts.Keys == s.attempts.Keys && part.attempts.Keys == s.attempts.Keys;
  }

  /** Close the attempt of a lease that ran out, when the row is taken over. */
  function CloseOverrun(s: State, id: JobId, now: Instant): Attempts
    requires id in s.jobs
  {
    var k := (id, s.jobs[id].attemptCount);
    if s.jobs[id].status == Running && s.jobs[id].lease.Some? && k in s.attempts && s.attempts[k].status == InFlight
    then s.attempts[k := ExpiredAttempt(s.attempts[k], now, "Worker lease expired and the job was reclaimed.")]
    else s.attempts
  }

  function TakeLease(s: State, id: JobId, worker: string, token: Token, now: Instant, expires: Instant): State
    requires id in s.jobs
  {
    var job := s.jobs[id];
    State(
      s.jobs[id := job.(status := Running, attemptCount := job.attemptCount + 1,
                        lease := Some(StoredLease(worker, token, expires)),
                        updatedAt := now, lastError := None)],
      CloseOverrun(s, id, now)[(id, job.attemptCount + 1) := Attempt(token, worker, now, None, InFlight, None)])
  }

  function LeaseFor(job: Job, id: JobId, worker: string, token: Token, expires: Instant): JobLease {
    JobLease(id, job.spec.kind, job.spec.resourceKey, job.spec.payload,
             job.attemptCount + 1, job.spec.maxAttempts, worker, token, expires)
  }

  /** `claim`: fail what is exhausted, then lease the first claimable row if there is one. */
  ghost function Claim(s: State, expirable: set<JobId>, visible: set<JobId>, worker: string, token: Token,
                       now: Instant, expires: Instant): (State, Option<JobLease>)
  {
    var s1 := Expire(s, expirable, now);
    if Candidates(s1, visible, now) == {} then (s1, None)
    else
      var id := FirstCandidate(s1, visible, now);
      (TakeLease(s1, id, worker, token, now, expires), Some(LeaseFor(s1.jobs[id], id, worker, token, expires)))
  }

  function Heartbeat(s: State, id: JobId, token: Token, now: Instant, expires: Instant, progress: Option<string>): State {
    if !Holds(s, id, token) then s
    else
      var job := s.jobs[id];
      s.(jobs := s.jobs[id := job.(lease := Some(job.lease.value.(expiresAt := expires)), updatedAt := now,
                                   progress := if progress.Some? then progress else job.progress)])
  }

  /** `UPDATE job_attempts … WHERE job_id = id AND lease_token = token`. */
  function CloseAttempts(attempts: Attempts, id: JobId, token: Token, now: Instant,
                         status: AttemptStatus, error: Option<Failure>): Attempts {
    map k | k in attempts ::
      if k.0 == id && attempts[k].token == token
      then attempts[k].(status := status, completedAt := Some(now),
                        error := if error.Some? then error else attempts[k].error)
      else attempts[k]
  }

  function Succeed(s: State, id: JobId, token: Token, now: Instant, progress: Option<string>): State {
    if !Holds(s, id, token) then s
    else State(
      s.jobs[id := s.jobs[id].(status := Succeeded, progress := progress, completedAt := Some(now),
                               updatedAt := now, lease := None)],
      CloseAttempts(s.attempts, id, token, now, Completed, None))
  }

  function Fail(s: State, id: JobId, token: Token, now: Instant, retryAt: Option<Instant>, error: Failure): State {
    if !Holds(s, id, token) then s
    else
      var job := s.jobs[id];
      var canRetry := retryAt.Some? && job.attemptCount < job.spec.maxAttempts;
      State(
        s.jobs[id := job.(status := if canRetry then Queued else Failed, updatedAt := now,
                          completedAt := if canRetry then None else Some(now),
                          lease := None, lastError := Some(error),
                          availableAt := if canRetry then retryAt.value else job.availableAt)],
        CloseAttempts(s.attempts, id, token, now, Errored, Some(error)))
  }

  lemma PruneNothing(s: State, none: set<JobId>)
    requires none == {}
    ensures Prune(s, none) == s
  {
    assert Prune(s, none).jobs == s.jobs;
    assert Prune(s, none).attempts == s.attempts;
  }

  function Prune(s: State, doomed: set<JobId>): State {
    State(s.jobs - doomed, map k | k in s.attempts && k.0 !in doomed :: s.attempts[k])
  }

  // ---------------------------------------------------------------- what `JobQueue.fail` decides and reports

  function RetryAt(lease: JobLease, retryable: bool, delaySeconds: int, now: Instant): Option<Instant> {
    if retryable && lease.attemptNumber < lease.maxAttempts then Some(now + delaySeconds * SECOND) else None
  }

  function ReportedFailure(lease: JobLease, retryAt: Option<Instant>): FailureResult {
    FailureResult(lease.jobId, if retryAt.Some? then Queued else Failed, retryAt)
  }
}
