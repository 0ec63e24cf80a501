/** What the job protocol guarantees in every reachable state. */
module JobSafety {
  import opened Wrappers
  import opened JobTables
  import opened JobProtocol

  ghost function Reached(steps: seq<Step>): System { Run(START, steps) }

  /** The holder believes it may work: the record has not run out and no outcome was accepted. */
  ghost predicate Live(s: System, r: JobLease) {
    r in s.records && r.expiresAt > s.now && r.token !in s.finished
  }

  lemma ReachedInv(steps: seq<Step>)
    ensures Inv(Reached(steps))
  {
    forall id: JobId
      ensures RowInv(START, id)
    {
    }
    RunKeeps(START, steps);
  }

  /** A live record is the one the row stores, so its holder's next call is accepted. */
  lemma LiveIsStored(steps: seq<Step>, r: JobLease)
    requires Live(Reached(steps), r)
    ensures Holds(Reached(steps).db, r.jobId, r.token)
  {
    ReachedInv(steps);
    var s := Reached(steps);
    assert RowInv(s, r.jobId);
    assert GrantOk(s, r.token, s.grants[r.token]);
  }

  /** At most one live lease per job, whatever the interleaving. */
  lemma OneLiveLease(steps: seq<Step>, r: JobLease, q: JobLease)
    requires Live(Reached(steps), r) && Live(Reached(steps), q) && r.jobId == q.jobId
    ensures r.token == q.token && r.owner == q.owner && r.attemptNumber == q.attemptNumber
  {
    LiveIsStored(steps, r);
    LiveIsStored(steps, q);
    ReachedInv(steps);
  }

  /** The three calls a holder can make with its record. */
  ghost predicate CallBy(step: Step, r: JobLease) {
    (step.HeartbeatStep? && step.held == r) || (step.SucceedStep? && step.held == r) || (step.FailStep? && step.held == r)
  }

  lemma HeldIsNewest(s: System, r: JobLease)
    requires Inv(s) && r in s.records
    ensures Holds(s.db, r.jobId, r.token) ==>
              r.token !in s.finished
              && forall q :: q in s.records && q.jobId == r.jobId ==> q.attemptNumber <= r.attemptNumber
  {
    assert RowInv(s, r.jobId);
    if Holds(s.db, r.jobId, r.token) {
      HeldIsLast(s, r);
      forall q | q in s.records && q.jobId == r.jobId
        ensures q.attemptNumber <= r.attemptNumber
      {
        assert GrantOk(s, q.token, s.grants[q.token]);
      }
    }
  }

  /** A holder whose job was leased again, or whose outcome was accepted, can change nothing any more. */
  lemma StaleHolderChangesNothing(steps: seq<Step>, r: JobLease, step: Step)
    requires var s := Reached(steps);
             && r in s.records
             && (r.token in s.finished
                 || exists q :: q in s.records && q.jobId == r.jobId && q.attemptNumber > r.attemptNumber)
    requires CallBy(step, r)
    ensures !Holds(Reached(steps).db, r.jobId, r.token)
    ensures Next(Reached(steps), step) == Reached(steps)
  {
    ReachedInv(steps);
    HeldIsNewest(Reached(steps), r);
  }

  /** The attempts ledger mirrors the jobs table in every reachable state. */
  lemma LedgerMatches(steps: seq<Step>, id: JobId)
    requires id in Reached(steps).db.jobs
    ensures var db := Reached(steps).db; var job := db.jobs[id];
            && job.attemptCount <= job.spec.maxAttempts
            && (job.status == Queued ==> job.attemptCount < job.spec.maxAttempts)
            && (forall n: nat :: (id, n) in db.attempts <==> 1 <= n <= job.attemptCount)
            && (forall n: nat :: (id, n) in db.attempts ==>
                  && (db.attempts[(id, n)].status == InFlight <==> job.status == Running && n == job.attemptCount)
                  && (db.attempts[(id, n)].status == InFlight ==>
                        job.lease.Some? && job.lease.value.token == db.attempts[(id, n)].token)
                  && (db.attempts[(id, n)].status == Completed <==> job.status == Succeeded && n == job.attemptCount))
            && (job.status == Running ==> job.lease.Some? && job.attemptCount >= 1)
  {
    ReachedInv(steps);
    assert RowInv(Reached(steps), id);
  }

  /** Deleting a job leaves no attempt behind. */
  lemma NoOrphanAttempts(steps: seq<Step>, id: JobId, n: nat)
    requires (id, n) in Reached(steps).db.attempts
    ensures id in Reached(steps).db.jobs
  {
    ReachedInv(steps);
    assert RowInv(Reached(steps), id);
  }

  /** What `JobQueue.fail` tells the worker is what the row now says. */
  lemma FailReportsTheStoredStatus(steps: seq<Step>, r: JobLease, error: Failure, retryable: bool, delay: nat)
    requires var s := Reached(steps); r in s.records && Holds(s.db, r.jobId, r.token)
    ensures var s := Reached(steps);
            var retryAt := RetryAt(r, retryable, delay, s.now);
            var report := ReportedFailure(r, retryAt);
            var row := Next(s, FailStep(r, error, retryable, delay)).db.jobs[r.jobId];
            && row.status == report.status
            && (retryAt.Some? <==> retryable && row.attemptCount < row.spec.maxAttempts)
            && (retryAt.Some? ==> row.availableAt == retryAt.value)
            && row.lease.None?
  {
    ReachedInv(steps);
    HeldIsLast(Reached(steps), r);
  }

  // ---------------------------------------------------------------- how often a job can be leased

  function LeasesOf(s: System, id: JobId): set<Token> {
    set t | t in s.grants && s.grants[t].lease.jobId == id
  }

  lemma {:induction false} CountByNumber(number: map<Token, nat>, bound: nat)
    requires forall t :: t in number ==> 1 <= number[t] <= bound
    requires forall t, u :: t in number && u in number && number[t] == number[u] ==> t == u
    ensures |number| <= bound
    decreases bound
  {
    if t :| t in number && number[t] == bound {
      var rest := number - {t};
      assert |number| == |rest| + 1 by {
        assert number.Keys == rest.Keys + {t};
      }
      CountByNumber(rest, bound - 1);
    } else if bound > 0 {
      CountByNumber(number, bound - 1);
    } else {
      assert number.Keys == {};
    }
  }

  /** Over a whole run a job is leased at most `max_attempts` times, even counting after it is pruned. */
  lemma LeasesAreBounded(steps: seq<Step>, r: JobLease)
    requires r in Reached(steps).records
    ensures |LeasesOf(Reached(steps), r.jobId)| <= r.maxAttempts
  {
    SpecsAgree(START, steps, r.jobId);
    ReachedInv(steps);
    var s := Reached(steps);
    assert RowInv(s, r.jobId);
    forall t | t in LeasesOf(s, r.jobId)
      ensures 1 <= s.grants[t].lease.attemptNumber <= r.maxAttempts
    {
      assert GrantOk(s, t, s.grants[t]);
      assert OneSpec(s, r.jobId);
    }
    var number := map t | t in LeasesOf(s, r.jobId) :: s.grants[t].lease.attemptNumber;
    CountByNumber(number, r.maxAttempts);
    assert number.Keys == LeasesOf(s, r.jobId);
  }

  predicate SameWork(r: JobLease, q: JobLease) {
    && r.kind == q.kind && r.resourceKey == q.resourceKey && r.payload == q.payload && r.maxAttempts == q.maxAttempts
  }

  /** All leases of a job carry what its row was enqueued with. */
  ghost predicate OneSpec(s: System, id: JobId) {
    forall t, u :: (t in s.grants && u in s.grants && s.grants[t].lease.jobId == id && s.grants[u].lease.jobId == id)
      ==> SameWork(s.grants[t].lease, s.grants[u].lease)
  }

  lemma SpecKept(s: System, step: Step, id: JobId)
    requires Inv(s) && OneSpec(s, id)
    ensures OneSpec(Next(s, step), id)
  {
    var s' := Next(s, step);
    StepKeeps(s, step);
    assert RowInv(s, id) && RowInv(s', id);
    forall t, u | t in s'.grants && u in s'.grants && s'.grants[t].lease.jobId == id && s'.grants[u].lease.jobId == id
      ensures SameWork(s'.grants[t].lease, s'.grants[u].lease)
    {
      assert GrantOk(s', t, s'.grants[t]) && GrantOk(s', u, s'.grants[u]);
      if id !in s'.db.jobs {
        GoneIsNotLeased(s, step, id);
      }
    }
  }

  /** A job that is not in the table after a step got no lease in it. */
  lemma GoneIsNotLeased(s: System, step: Step, id: JobId)
    requires Inv(s) && id !in Next(s, step).db.jobs
    ensures forall t :: t in Next(s, step).grants && Next(s, step).grants[t].lease.jobId == id ==>
              t in s.grants && s.grants[t].lease.jobId == id
              && SameWork(s.grants[t].lease, Next(s, step).grants[t].lease)
  {
  }

  lemma {:induction false} SpecsAgree(s: System, steps: seq<Step>, id: JobId)
    requires Inv(s) && OneSpec(s, id)
    ensures OneSpec(Run(s, steps), id)
    decreases |steps|
  {
    if steps == [] {
    } else {
      SpecKept(s, steps[0], id);
      StepKeeps(s, steps[0]);
      SpecsAgree(Next(s, steps[0]), steps[1..], id);
    }
  }

  /**
   Every lease record, however old, tells its worker to run what was enqueued, as often as
   was enqueued; and any two records of one job agree on it, also after the job is pruned.
   */
  lemma LeasesCarryTheJob(steps: seq<Step>, r: JobLease, q: JobLease)
    requires r in Reached(steps).records && q in Reached(steps).records && r.jobId == q.jobId
    ensures r.kind == q.kind && r.resourceKey == q.resourceKey && r.payload == q.payload && r.maxAttempts == q.maxAttempts
    ensures r.jobId in Reached(steps).db.jobs ==>
              var spec := Reached(steps).db.jobs[r.jobId].spec;
              && r.kind == spec.kind && r.resourceKey == spec.resourceKey && r.payload == spec.payload
              && r.maxAttempts == spec.maxAttempts
  {
    SpecsAgree(START, steps, r.jobId);
    ReachedInv(steps);
    var s := Reached(steps);
    assert RowInv(s, r.jobId);
    assert GrantOk(s, r.token, s.grants[r.token]);
  }

  // ---------------------------------------------------------------- finished jobs stay finished

  /** The job is finished, or pruned after it was. */
  ghost predicate Over(s: System, id: JobId) { id in s.usedIds && (id in s.db.jobs ==> s.db.jobs[id].Terminal()) }

  /** Nothing about the job changed, unless it was pruned. */
  ghost predicate Untouched(s: System, s': System, id: JobId) {
    && id in s'.usedIds
    && (id in s'.db.jobs ==> id in s.db.jobs && s'.db.jobs[id] == s.db.jobs[id])
    && LeasesOf(s', id) == LeasesOf(s, id)
  }

  lemma TerminalClaim(s: System, worker: string, token: Token, seconds: nat, visible: set<JobId>, id: JobId)
    requires Over(s, id) && token !in s.grants
    ensures Untouched(s, FirstGrant(s, worker, token, seconds, visible), id)
  {
    var s' := FirstGrant(s, worker, token, seconds, visible);
    assert forall t :: t in LeasesOf(s, id) ==> t in LeasesOf(s', id);
  }

  lemma TerminalHeartbeat(s: System, held: JobLease, progress: Option<string>, id: JobId)
    requires Over(s, id) && Holds(s.db, held.jobId, held.token)
    requires held.token in s.grants && s.grants[held.token].lease.jobId == held.jobId
    ensures Untouched(s, Renewed(s, held, progress), id)
  {
    var s' := Renewed(s, held, progress);
    assert forall t :: t in LeasesOf(s, id) ==> t in LeasesOf(s', id);
  }

  lemma TerminalStep(s: System, step: Step, id: JobId)
    requires Inv(s) && Over(s, id)
    ensures Untouched(s, Next(s, step), id)
  {
    if Enabled(s, step) {
      match step
      case ClaimStep(worker, token, seconds, expirable, visible) =>
        ClaimIsFirstGrant(s, worker, token, seconds, expirable, visible);
        TerminalClaim(s.(db := Expire(s.db, expirable, s.now)), worker, token, seconds, visible, id);
      case HeartbeatStep(held, progress) =>
        if Holds(s.db, held.jobId, held.token) {
          TerminalHeartbeat(s, held, progress, id);
        }
      case _ =>
    }
  }

  /** Once terminal, a job is never changed or leased again: it stays as it is until it is pruned. */
  lemma {:induction false} TerminalStays(s: System, steps: seq<Step>, id: JobId)
    requires Inv(s) && Over(s, id)
    ensures Untouched(s, Run(s, steps), id)
    decreases |steps|
  {
    if steps == [] {
    } else {
      TerminalStep(s, steps[0], id);
      StepKeeps(s, steps[0]);
      TerminalStays(Next(s, steps[0]), steps[1..], id);
    }
  }
}
