/**
 Every interleaving of workers on the job tables. A run is any list of steps; a step
 that is not enabled does nothing. The invariant ties the `jobs` rows, the attempts
 ledger and the lease records that workers still hold, however stale.
 */
module JobProtocol {
  import opened Wrappers
  import opened JobTables

  /** The latest record of an issued lease, and the `lease_seconds` of the queue that issued it. */
  datatype Grant = Grant(lease: JobLease, seconds: nat)

  /**
   `records` is every lease record any worker was ever handed; `grants` the latest one
   for each token; `finished` the tokens whose holder had a `succeed` or `fail` accepted.
   Tokens and job ids are fresh UUIDs.
   */
  datatype System = System(
    db: State,
    now: Instant,
    grants: map<Token, Grant>,
    records: set<JobLease>,
    finished: set<Token>,
    usedIds: set<JobId>)

  datatype Step =
    | Tick(elapsed: nat)
    | EnqueueStep(id: JobId, spec: Spec, availableAt: Instant)
    | ExpireStep(visible: set<JobId>)
    | ClaimStep(worker: string, token: Token, seconds: nat, expirable: set<JobId>, visible: set<JobId>)
    | HeartbeatStep(held: JobLease, progress: Option<string>)
    | SucceedStep(held: JobLease, progress: Option<string>)
    | FailStep(held: JobLease, error: Failure, retryable: bool, delay: nat)
    | PruneStep(visible: set<JobId>, before: Instant, limit: nat, doomed: set<JobId>)

  const START := System(State(map[], map[]), 0, map[], {}, {}, {})

  ghost predicate Enabled(s: System, step: Step) {
    match step
    case Tick(_) => true
    case EnqueueStep(id, spec, _) => id !in s.usedIds && spec.maxAttempts >= 1
    case ExpireStep(_) => true
    case ClaimStep(_, token, seconds, _, _) => token !in s.grants && seconds >= 30
    case HeartbeatStep(held, _) => held in s.records && held.token in s.grants
    case SucceedStep(held, _) => held in s.records
    case FailStep(held, _, _, _) => held in s.records
    case PruneStep(visible, before, limit, doomed) => PruneBatch(s.db, visible, before, limit, doomed)
  }

  function Granted(s: System, db: State, lease: Option<JobLease>, seconds: nat): System {
    if lease.None? then s.(db := db)
    else s.(db := db, grants := s.grants[lease.value.token := Grant(lease.value, seconds)],
            records := s.records + {lease.value})
  }

  function Finished(s: System, db: State, held: JobLease): System {
    s.(db := db, finished := if Holds(s.db, held.jobId, held.token) then s.finished + {held.token} else s.finished)
  }

  ghost function Next(s: System, step: Step): System {
    if !Enabled(s, step) then s
    else match step
      case Tick(elapsed) => s.(now := s.now + elapsed)
      case EnqueueStep(id, spec, availableAt) =>
        s.(db := Enqueue(s.db, id, spec, availableAt, s.now), usedIds := s.usedIds + {id})
      case ExpireStep(visible) => s.(db := Expire(s.db, visible, s.now))
      case ClaimStep(worker, token, seconds, expirable, visible) =>
        var (db, lease) := Claim(s.db, expirable, visible, worker, token, s.now, s.now + seconds * SECOND);
        Granted(s, db, lease, seconds)
      case HeartbeatStep(held, progress) =>
        var seconds := s.grants[held.token].seconds;
        var db := Heartbeat(s.db, held.jobId, held.token, s.now, s.now + seconds * SECOND, progress);
        var renewed := held.(expiresAt := s.now + seconds * SECOND);
        Granted(s, db, if Holds(s.db, held.jobId, held.token) then Some(renewed) else None, seconds)
      case SucceedStep(held, progress) =>
        Finished(s, Succeed(s.db, held.jobId, held.token, s.now, progress), held)
      case FailStep(held, error, retryable, delay) =>
        Finished(s, Fail(s.db, held.jobId, held.token, s.now, RetryAt(held, retryable, delay, s.now), error), held)
      case PruneStep(_, _, _, doomed) => s.(db := Prune(s.db, doomed))
  }

  ghost function Run(s: System, steps: seq<Step>): System
    decreases |steps|
  {
    if steps == [] then s else Run(Next(s, steps[0]), steps[1..])
  }

  // ---------------------------------------------------------------- the invariant

  ghost predicate JobOk(job: Job) {
    && 1 <= job.spec.maxAttempts
    && job.attemptCount <= job.spec.maxAttempts
    && (job.status == Queued ==> job.attemptCount < job.spec.maxAttempts)
    && (job.status != Queued ==> job.attemptCount >= 1)
    && (job.status == Running <==> job.lease.Some?)
    && (job.Terminal() <==> job.completedAt.Some?)
    && job.status != Cancelled
  }

  ghost predicate AttemptOk(job: Job, number: nat, attempt: Attempt) {
    && (attempt.status == InFlight <==> job.status == Running && number == job.attemptCount)
    && (attempt.status == InFlight ==>
          job.lease.Some? && job.lease.value.token == attempt.token && job.lease.value.owner == attempt.worker)
    && (attempt.status == Completed <==> job.status == Succeeded && number == job.attemptCount)
    && (attempt.status == InFlight <==> attempt.completedAt.None?)
  }

  /** What the worker is told to run, and how often, is what was enqueued. */
  predicate Carries(lease: JobLease, spec: Spec) {
    && lease.kind == spec.kind && lease.resourceKey == spec.resourceKey && lease.payload == spec.payload
    && lease.maxAttempts == spec.maxAttempts
  }

  /** What the table says about one issued lease. */
  ghost predicate GrantOk(s: System, token: Token, grant: Grant) {
    var lease := grant.lease;
    && lease.token == token
    && 1 <= lease.attemptNumber <= lease.maxAttempts
    && lease.expiresAt <= s.now + grant.seconds * SECOND
    && (lease.jobId in s.db.jobs ==>
          && (lease.jobId, lease.attemptNumber) in s.db.attempts
          && s.db.attempts[(lease.jobId, lease.attemptNumber)].token == token
          && Carries(lease, s.db.jobs[lease.jobId].spec))
    && (token !in s.finished && lease.expiresAt > s.now ==> Holds(s.db, lease.jobId, token))
  }

  /** A running row stores the latest record of an issued, unfinished lease. */
  ghost predicate StoredOk(s: System, id: JobId, job: Job) {
    job.lease.Some? ==>
      var token := job.lease.value.token;
      && token in s.grants && token !in s.finished
      && var lease := s.grants[token].lease;
         && lease.jobId == id && lease.attemptNumber == job.attemptCount
         && lease.expiresAt == job.lease.value.expiresAt && lease.owner == job.lease.value.owner
  }

  ghost predicate JobRowOk(s: System, id: JobId) {
    id in s.db.jobs ==> JobOk(s.db.jobs[id]) && StoredOk(s, id, s.db.jobs[id]) && id in s.usedIds
  }

  /** Attempts are numbered 1 to `attempt_count`, and each belongs to the lease of that number. */
  ghost predicate AttemptsOk(s: System, id: JobId) {
    && (forall n: nat :: (id, n) in s.db.attempts <==> id in s.db.jobs && 1 <= n <= s.db.jobs[id].attemptCount)
    && (forall n: nat :: (id, n) in s.db.attempts ==>
          var attempt := s.db.attempts[(id, n)];
          && AttemptOk(s.db.jobs[id], n, attempt)
          && attempt.token in s.grants
          && s.grants[attempt.token].lease.jobId == id
          && s.grants[attempt.token].lease.attemptNumber == n)
  }

  ghost predicate LeasesOk(s: System, id: JobId) {
    forall t :: t in s.grants && s.grants[t].lease.jobId == id ==> id in s.usedIds && GrantOk(s, t, s.grants[t])
  }

  ghost predicate NumbersDistinct(s: System, id: JobId) {
    forall t, u :: (t in s.grants && u in s.grants
      && s.grants[t].lease.jobId == id && s.grants[u].lease.jobId == id
      && s.grants[t].lease.attemptNumber == s.grants[u].lease.attemptNumber) ==> t == u
  }

  /** Everything there is to say about one job id: its row, its attempts and its leases. */
  ghost predicate RowInv(s: System, id: JobId) {
    JobRowOk(s, id) && AttemptsOk(s, id) && LeasesOk(s, id) && NumbersDistinct(s, id)
  }

  ghost predicate KeysDistinct(jobs: Jobs) {
    forall i, j :: (i in jobs && j in jobs && jobs[i].spec.key.Some? && jobs[i].spec.key == jobs[j].spec.key) ==> i == j
  }

  ghost predicate RecordsOk(s: System) {
    && (forall t :: t in s.finished ==> t in s.grants)
    && (forall r :: r in s.records ==>
          && r.token in s.grants
          && r.expiresAt <= s.grants[r.token].lease.expiresAt
          && s.grants[r.token].lease == r.(expiresAt := s.grants[r.token].lease.expiresAt))
  }

  ghost predicate Inv(s: System) {
    && KeysDistinct(s.db.jobs)
    && RecordsOk(s)
    && forall id: JobId :: RowInv(s, id)
  }

  // ---------------------------------------------------------------- each step keeps it

  /** The two systems say the same about this job id. */
  ghost predicate SameRow(s: System, s': System, id: JobId) {
    && s'.now == s.now
    && (id in s.usedIds ==> id in s'.usedIds)
    && (id in s'.db.jobs <==> id in s.db.jobs) && (id in s.db.jobs ==> s'.db.jobs[id] == s.db.jobs[id])
    && (forall n: nat :: (id, n) in s'.db.attempts <==> (id, n) in s.db.attempts)
    && (forall n: nat :: (id, n) in s.db.attempts ==> s'.db.attempts[(id, n)] == s.db.attempts[(id, n)])
    && (forall t :: t in s.grants && s.grants[t].lease.jobId == id ==>
          t in s'.grants && s'.grants[t] == s.grants[t] && (t in s'.finished <==> t in s.finished))
    && (forall t :: t in s'.grants && s'.grants[t].lease.jobId == id ==> t in s.grants && s.grants[t].lease.jobId == id)
  }

  lemma RowFrame(s: System, s': System, id: JobId)
    requires RowInv(s, id) && SameRow(s, s', id)
    ensures RowInv(s', id)
  {
  }

  lemma EnqueueKeeps(s: System, id: JobId, spec: Spec, availableAt: Instant)
    requires Inv(s) && id !in s.usedIds && spec.maxAttempts >= 1
    ensures Inv(Next(s, EnqueueStep(id, spec, availableAt)))
  {
    var s' := Next(s, EnqueueStep(id, spec, availableAt));
    forall other: JobId
      ensures RowInv(s', other)
    {
      assert RowInv(s, other);
      if other != id || KeyTaken(s.db.jobs, spec.key) {
        RowFrame(s, s', other);
      }
    }
  }

  /** The system after a running row gives up its lease and its last attempt is closed. */
  ghost function Closed(s: System, id: JobId, job: Job, attempt: Attempt, finished: set<Token>): System {
    s.(db := State(s.db.jobs[id := job], s.db.attempts[(id, job.attemptCount) := attempt]), finished := finished)
  }

  ghost predicate Closes(s: System, id: JobId, job: Job, attempt: Attempt, finished: set<Token>) {
    && id in s.db.jobs && s.db.jobs[id].lease.Some?
    && var was := s.db.jobs[id];
       && JobOk(job) && job.lease.None?
       && job.attemptCount == was.attemptCount && job.spec == was.spec
       && attempt.token == was.lease.value.token && AttemptOk(job, job.attemptCount, attempt)
       && (was.lease.value.expiresAt <= s.now || was.lease.value.token in finished)
       && s.finished <= finished <= s.finished + {was.lease.value.token}
  }

  lemma CloseRow(s: System, id: JobId, job: Job, attempt: Attempt, finished: set<Token>)
    requires RowInv(s, id) && RecordsOk(s) && Closes(s, id, job, attempt, finished)
    ensures RowInv(Closed(s, id, job, attempt, finished), id)
  {
    var s' := Closed(s, id, job, attempt, finished);
    var last := (id, job.attemptCount);
    assert last in s.db.attempts;
    assert GrantOk(s, attempt.token, s.grants[attempt.token]);
    assert s.db.attempts[last].token == attempt.token;
    assert JobRowOk(s', id);
    assert AttemptsOk(s', id);
    assert LeasesOk(s', id) by {
      forall t | t in s'.grants && s'.grants[t].lease.jobId == id
        ensures GrantOk(s', t, s'.grants[t])
      {
        assert GrantOk(s, t, s.grants[t]);
      }
    }
    assert NumbersDistinct(s', id);
  }

  lemma CloseKeeps(s: System, id: JobId, job: Job, attempt: Attempt, finished: set<Token>)
    requires Inv(s) && Closes(s, id, job, attempt, finished)
    ensures Inv(Closed(s, id, job, attempt, finished))
  {
    var s' := Closed(s, id, job, attempt, finished);
    assert RowInv(s, id);
    var token := s.db.jobs[id].lease.value.token;
    assert token in s.grants && s.grants[token].lease.jobId == id;
    forall other: JobId
      ensures RowInv(s', other)
    {
      assert RowInv(s, other);
      if other != id {
        RowFrame(s, s', other);
      } else {
        CloseRow(s, id, job, attempt, finished);
      }
    }
  }

  lemma LastAttemptOpen(s: System, id: JobId)
    requires Inv(s) && id in s.db.jobs && s.db.jobs[id].lease.Some?
    ensures (id, s.db.jobs[id].attemptCount) in s.db.attempts
    ensures var attempt := s.db.attempts[(id, s.db.jobs[id].attemptCount)];
            attempt.status == InFlight && attempt.token == s.db.jobs[id].lease.value.token
    ensures s.db.jobs[id].status == Running
  {
    assert RowInv(s, id);
  }

  lemma ExpireRowKeeps(s: System, id: JobId)
    requires Inv(s) && id in s.db.jobs && Exhausted(s.db.jobs[id], s.now)
    ensures var k := (id, s.db.jobs[id].attemptCount);
            && k in s.db.attempts && s.db.attempts[k].status == InFlight
            && Inv(s.(db := State(s.db.jobs[id := ExpiredJob(s.db.jobs[id], s.now)],
                                  s.db.attempts[k := ExpiredAttempt(s.db.attempts[k], s.now, "Worker lease expired.")])))
  {
    assert RowInv(s, id);
    LastAttemptOpen(s, id);
    var k := (id, s.db.jobs[id].attemptCount);
    CloseKeeps(s, id, ExpiredJob(s.db.jobs[id], s.now),
               ExpiredAttempt(s.db.attempts[k], s.now, "Worker lease expired."), s.finished);
  }

  lemma {:induction false} ExpireSubset(s: System, done: set<JobId>)
    requires Inv(s) && ExpiredRows(s.db, done, s.now) == done
    ensures Inv(s.(db := Expire(s.db, done, s.now)))
    decreases |done|
  {
    if done == {} {
      ExpireNone(s.db, s.now);
    } else {
      var id :| id in done;
      var rest := done - {id};
      assert ExpiredRows(s.db, rest, s.now) == rest;
      ExpireSubset(s, rest);
      ExpireOneMore(s.db, rest, id, s.now);
      assert rest + {id} == done;
      ExpireRowKeeps(s.(db := Expire(s.db, rest, s.now)), id);
    }
  }

  lemma ExpireKeeps(s: System, visible: set<JobId>)
    requires Inv(s)
    ensures Inv(s.(db := Expire(s.db, visible, s.now)))
  {
    var rows := ExpiredRows(s.db, visible, s.now);
    ExpireRows(s.db, visible, s.now);
    assert ExpiredRows(s.db, rows, s.now) == rows;
    ExpireSubset(s, rows);
  }

  /** Leasing a queued row. */
  lemma OpenRow(s: System, id: JobId, worker: string, token: Token, seconds: nat)
    requires RowInv(s, id) && RecordsOk(s) && id in s.db.jobs && s.db.jobs[id].status == Queued && token !in s.grants
    ensures var lease := LeaseFor(s.db.jobs[id], id, worker, token, s.now + seconds * SECOND);
            RowInv(Granted(s, TakeLease(s.db, id, worker, token, s.now, s.now + seconds * SECOND), Some(lease), seconds), id)
  {
    var lease := LeaseFor(s.db.jobs[id], id, worker, token, s.now + seconds * SECOND);
    var s' := Granted(s, TakeLease(s.db, id, worker, token, s.now, s.now + seconds * SECOND), Some(lease), seconds);
    var last := (id, s.db.jobs[id].attemptCount + 1);
    assert s'.db.attempts == s.db.attempts[last := Attempt(token, worker, s.now, None, InFlight, None)];
    assert JobRowOk(s', id);
    assert AttemptsOk(s', id);
    OpenLeases(s, s', id, token);
  }

  /** Earlier leases of the row stay as they were, and the new one has the next number. */
  lemma OpenLeases(s: System, s': System, id: JobId, token: Token)
    requires AttemptsOk(s, id) && LeasesOk(s, id) && NumbersDistinct(s, id) && id in s.db.jobs && token !in s.grants
    requires token in s'.grants && s'.grants == s.grants[token := s'.grants[token]]
    requires s'.grants[token].lease.jobId == id && s'.grants[token].lease.attemptNumber == s.db.jobs[id].attemptCount + 1
    requires s'.now == s.now && s'.finished == s.finished && s'.usedIds == s.usedIds && id in s.usedIds
    requires GrantOk(s', token, s'.grants[token])
    requires id in s'.db.jobs && s'.db.jobs[id].spec == s.db.jobs[id].spec && s.db.jobs[id].lease.None?
    requires forall n: nat :: n <= s.db.jobs[id].attemptCount && (id, n) in s.db.attempts ==>
               (id, n) in s'.db.attempts && s'.db.attempts[(id, n)] == s.db.attempts[(id, n)]
    ensures LeasesOk(s', id) && NumbersDistinct(s', id)
  {
    forall t | t in s.grants && s.grants[t].lease.jobId == id
      ensures GrantOk(s', t, s'.grants[t]) && s.grants[t].lease.attemptNumber <= s.db.jobs[id].attemptCount
    {
      assert GrantOk(s, t, s.grants[t]);
    }
  }

  lemma OpenKeeps(s: System, id: JobId, worker: string, token: Token, seconds: nat)
    requires Inv(s) && id in s.db.jobs && s.db.jobs[id].status == Queued && token !in s.grants
    ensures var lease := LeaseFor(s.db.jobs[id], id, worker, token, s.now + seconds * SECOND);
            Inv(Granted(s, TakeLease(s.db, id, worker, token, s.now, s.now + seconds * SECOND), Some(lease), seconds))
  {
    var lease := LeaseFor(s.db.jobs[id], id, worker, token, s.now + seconds * SECOND);
    var s' := Granted(s, TakeLease(s.db, id, worker, token, s.now, s.now + seconds * SECOND), Some(lease), seconds);
    assert CloseOverrun(s.db, id, s.now) == s.db.attempts;
    forall other: JobId
      ensures RowInv(s', other)
    {
      assert RowInv(s, other);
      if other != id {
        RowFrame(s, s', other);
      } else {
        OpenRow(s, id, worker, token, seconds);
      }
    }
  }

  /** Reclaiming an overrun row is: give the lease up, then lease the row again. */
  lemma ReclaimInTwo(db: State, id: JobId, worker: string, token: Token, now: Instant, expires: Instant)
    requires id in db.jobs && db.jobs[id].status == Running && db.jobs[id].lease.Some?
    requires var k := (id, db.jobs[id].attemptCount); k in db.attempts && db.attempts[k].status == InFlight
    ensures var k := (id, db.jobs[id].attemptCount);
            var free := State(db.jobs[id := db.jobs[id].(status := Queued, lease := None)], CloseOverrun(db, id, now));
            TakeLease(free, id, worker, token, now, expires) == TakeLease(db, id, worker, token, now, expires)
  {
    var free := State(db.jobs[id := db.jobs[id].(status := Queued, lease := None)], CloseOverrun(db, id, now));
    assert TakeLease(free, id, worker, token, now, expires).jobs == TakeLease(db, id, worker, token, now, expires).jobs;
  }

  lemma TakeLeaseKeeps(s: System, id: JobId, worker: string, token: Token, seconds: nat)
    requires Inv(s) && id in s.db.jobs && Claimable(s.db.jobs[id], s.now) && token !in s.grants
    ensures var lease := LeaseFor(s.db.jobs[id], id, worker, token, s.now + seconds * SECOND);
            Inv(Granted(s, TakeLease(s.db, id, worker, token, s.now, s.now + seconds * SECOND), Some(lease), seconds))
  {
    var job := s.db.jobs[id];
    if job.status == Queued {
      OpenKeeps(s, id, worker, token, seconds);
    } else {
      ReleaseOverrun(s, id);
      ReclaimInTwo(s.db, id, worker, token, s.now, s.now + seconds * SECOND);
      var free := State(s.db.jobs[id := job.(status := Queued, lease := None)], CloseOverrun(s.db, id, s.now));
      OpenKeeps(s.(db := free), id, worker, token, seconds);
    }
  }

  lemma ReleaseOverrun(s: System, id: JobId)
    requires Inv(s) && id in s.db.jobs && Claimable(s.db.jobs[id], s.now) && s.db.jobs[id].status == Running
    ensures var k := (id, s.db.jobs[id].attemptCount); k in s.db.attempts && s.db.attempts[k].status == InFlight
    ensures Inv(s.(db := State(s.db.jobs[id := s.db.jobs[id].(status := Queued, lease := None)],
                               CloseOverrun(s.db, id, s.now))))
  {
    assert RowInv(s, id);
    LastAttemptOpen(s, id);
    var k := (id, s.db.jobs[id].attemptCount);
    var attempt := ExpiredAttempt(s.db.attempts[k], s.now, "Worker lease expired and the job was reclaimed.");
    CloseKeeps(s, id, s.db.jobs[id].(status := Queued, lease := None), attempt, s.finished);
  }

  /** Granting the first candidate, or nothing if there is none. */
  ghost function FirstGrant(s: System, worker: string, token: Token, seconds: nat, visible: set<JobId>): System {
    if Candidates(s.db, visible, s.now) == {} then s
    else
      var id := FirstCandidate(s.db, visible, s.now);
      Granted(s, TakeLease(s.db, id, worker, token, s.now, s.now + seconds * SECOND),
              Some(LeaseFor(s.db.jobs[id], id, worker, token, s.now + seconds * SECOND)), seconds)
  }

  lemma FirstGrantKeeps(s: System, worker: string, token: Token, seconds: nat, visible: set<JobId>)
    requires Inv(s) && token !in s.grants
    ensures Inv(FirstGrant(s, worker, token, seconds, visible))
  {
    if Candidates(s.db, visible, s.now) != {} {
      TakeLeaseKeeps(s, FirstCandidate(s.db, visible, s.now), worker, token, seconds);
    }
  }

  lemma ClaimIsFirstGrant(s: System, worker: string, token: Token, seconds: nat, expirable: set<JobId>, visible: set<JobId>)
    requires token !in s.grants && seconds >= 30
    ensures Next(s, ClaimStep(worker, token, seconds, expirable, visible))
         == FirstGrant(s.(db := Expire(s.db, expirable, s.now)), worker, token, seconds, visible)
  {
  }

  lemma ClaimKeeps(s: System, worker: string, token: Token, seconds: nat, expirable: set<JobId>, visible: set<JobId>)
    requires Inv(s) && token !in s.grants && seconds >= 30
    ensures Inv(Next(s, ClaimStep(worker, token, seconds, expirable, visible)))
  {
    ExpireKeeps(s, expirable);
    FirstGrantKeeps(s.(db := Expire(s.db, expirable, s.now)), worker, token, seconds, visible);
    ClaimIsFirstGrant(s, worker, token, seconds, expirable, visible);
  }

  /** The step of a heartbeat that is accepted. */
  function Renewed(s: System, held: JobLease, progress: Option<string>): System
    requires held.token in s.grants
  {
    var seconds := s.grants[held.token].seconds;
    var expires := s.now + seconds * SECOND;
    Granted(s, Heartbeat(s.db, held.jobId, held.token, s.now, expires, progress), Some(held.(expiresAt := expires)), seconds)
  }

  lemma RenewedRow(s: System, held: JobLease, progress: Option<string>)
    requires RowInv(s, held.jobId) && RecordsOk(s) && held in s.records && Holds(s.db, held.jobId, held.token)
    requires held.token in s.grants && s.grants[held.token].lease.jobId == held.jobId
    ensures RowInv(Renewed(s, held, progress), held.jobId)
  {
    var id, s' := held.jobId, Renewed(s, held, progress);
    assert GrantOk(s, held.token, s.grants[held.token]);
    assert s'.grants[held.token].lease == s.grants[held.token].lease.(expiresAt := s'.grants[held.token].lease.expiresAt);
    assert JobRowOk(s', id);
    assert AttemptsOk(s', id);
    assert LeasesOk(s', id) by {
      forall t | t in s'.grants && s'.grants[t].lease.jobId == id
        ensures GrantOk(s', t, s'.grants[t])
      {
        assert GrantOk(s, t, s.grants[t]);
      }
    }
    assert NumbersDistinct(s', id);
  }

  lemma RenewedRecords(s: System, held: JobLease, progress: Option<string>)
    requires RecordsOk(s) && KeysDistinct(s.db.jobs) && held in s.records && Holds(s.db, held.jobId, held.token)
    requires held.token in s.grants && s.grants[held.token].lease.jobId == held.jobId
    requires s.grants[held.token].lease.expiresAt <= s.now + s.grants[held.token].seconds * SECOND
    ensures var s' := Renewed(s, held, progress); RecordsOk(s') && KeysDistinct(s'.db.jobs)
  {
  }

  lemma RenewedOther(s: System, held: JobLease, progress: Option<string>, other: JobId)
    requires RowInv(s, other) && other != held.jobId
    requires held.token in s.grants && s.grants[held.token].lease.jobId == held.jobId
    ensures RowInv(Renewed(s, held, progress), other)
  {
    RowFrame(s, Renewed(s, held, progress), other);
  }

  lemma RenewedKeeps(s: System, held: JobLease, progress: Option<string>)
    requires Inv(s) && held in s.records && Holds(s.db, held.jobId, held.token)
    requires held.token in s.grants && s.grants[held.token].lease.jobId == held.jobId
    ensures Inv(Renewed(s, held, progress))
  {
    assert RowInv(s, held.jobId);
    assert GrantOk(s, held.token, s.grants[held.token]);
    RenewedRecords(s, held, progress);
    RenewedRow(s, held, progress);
    forall other: JobId | other != held.jobId
      ensures RowInv(Renewed(s, held, progress), other)
    {
      assert RowInv(s, other);
      RenewedOther(s, held, progress, other);
    }
  }

  lemma HeartbeatKeeps(s: System, held: JobLease, progress: Option<string>)
    requires Inv(s) && held in s.records
    ensures Inv(Next(s, HeartbeatStep(held, progress)))
  {
    var s' := Next(s, HeartbeatStep(held, progress));
    if Holds(s.db, held.jobId, held.token) {
      assert s.grants[held.token].lease.jobId == held.jobId;
      RenewedKeeps(s, held, progress);
      assert s' == Renewed(s, held, progress);
    } else {
      assert s' == s;
    }
  }

  /** A held lease with the stored token is the last attempt, and the only one with that token. */
  lemma HeldIsLast(s: System, held: JobLease)
    requires Inv(s) && held in s.records && Holds(s.db, held.jobId, held.token)
    ensures held.attemptNumber == s.db.jobs[held.jobId].attemptCount
    ensures held.maxAttempts == s.db.jobs[held.jobId].spec.maxAttempts
    ensures held.token !in s.finished
    ensures (held.jobId, held.attemptNumber) in s.db.attempts
    ensures forall k :: k in s.db.attempts ==>
              (k.0 == held.jobId && s.db.attempts[k].token == held.token <==> k == (held.jobId, held.attemptNumber))
  {
    assert RowInv(s, held.jobId);
    assert GrantOk(s, held.token, s.grants[held.token]);
    forall k | k in s.db.attempts
      ensures k.0 == held.jobId && s.db.attempts[k].token == held.token <==> k == (held.jobId, held.attemptNumber)
    {
      assert (k.0, k.1) in s.db.attempts;
    }
  }

  lemma SucceedKeeps(s: System, held: JobLease, progress: Option<string>)
    requires Inv(s) && held in s.records
    ensures Inv(Next(s, SucceedStep(held, progress)))
  {
    if Holds(s.db, held.jobId, held.token) {
      HeldIsLast(s, held);
      LastAttemptOpen(s, held.jobId);
      var db := Succeed(s.db, held.jobId, held.token, s.now, progress);
      var k := (held.jobId, held.attemptNumber);
      assert RowInv(s, held.jobId);
      CloseKeeps(s, held.jobId, db.jobs[held.jobId], db.attempts[k], s.finished + {held.token});
      assert db.attempts == s.db.attempts[k := db.attempts[k]];
    }
  }

  lemma FailKeeps(s: System, held: JobLease, error: Failure, retryable: bool, delay: nat)
    requires Inv(s) && held in s.records
    ensures Inv(Next(s, FailStep(held, error, retryable, delay)))
  {
    if Holds(s.db, held.jobId, held.token) {
      HeldIsLast(s, held);
      LastAttemptOpen(s, held.jobId);
      var db := Fail(s.db, held.jobId, held.token, s.now, RetryAt(held, retryable, delay, s.now), error);
      var k := (held.jobId, held.attemptNumber);
      assert RowInv(s, held.jobId);
      CloseKeeps(s, held.jobId, db.jobs[held.jobId], db.attempts[k], s.finished + {held.token});
      assert db.attempts == s.db.attempts[k := db.attempts[k]];
    }
  }

  lemma PruneKeeps(s: System, doomed: set<JobId>)
    requires Inv(s) && forall id :: id in doomed ==> id in s.db.jobs && s.db.jobs[id].Terminal()
    ensures Inv(s.(db := Prune(s.db, doomed)))
  {
    var s' := s.(db := Prune(s.db, doomed));
    forall other: JobId
      ensures RowInv(s', other)
    {
      assert RowInv(s, other);
      if other !in doomed {
        RowFrame(s, s', other);
      }
    }
  }

  lemma TickKeeps(s: System, elapsed: nat)
    requires Inv(s)
    ensures Inv(s.(now := s.now + elapsed))
  {
    var s' := s.(now := s.now + elapsed);
    forall id: JobId
      ensures RowInv(s', id)
    {
      assert RowInv(s, id);
    }
  }

  lemma StepKeeps(s: System, step: Step)
    requires Inv(s)
    ensures Inv(Next(s, step))
  {
    if Enabled(s, step) {
      match step
      case Tick(elapsed) => TickKeeps(s, elapsed);
      case EnqueueStep(id, spec, availableAt) => EnqueueKeeps(s, id, spec, availableAt);
      case ExpireStep(visible) => ExpireKeeps(s, visible);
      case ClaimStep(worker, token, seconds, expirable, visible) =>
        ClaimKeeps(s, worker, token, seconds, expirable, visible);
      case HeartbeatStep(held, progress) => HeartbeatKeeps(s, held, progress);
      case SucceedStep(held, progress) => SucceedKeeps(s, held, progress);
      case FailStep(held, error, retryable, delay) => FailKeeps(s, held, error, retryable, delay);
      case PruneStep(visible, before, limit, doomed) => PruneKeeps(s, doomed);
    }
  }

  lemma {:induction false} RunKeeps(s: System, steps: seq<Step>)
    requires Inv(s)
    ensures Inv(Run(s, steps))
    decreases |steps|
  {
    if steps == [] {
    } else {
      StepKeeps(s, steps[0]);
      RunKeeps(Next(s, steps[0]), steps[1..]);
    }
  }
}
