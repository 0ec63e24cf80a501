/**
 What one call does to the tables of a reachable state, row by row and column by column.
 The statements name no query and no update: they say which row is chosen, which columns
 of which attempt change, and that nothing else does.
 */
module JobEffects {
  import opened Wrappers
  import opened JobTables
  import opened JobProtocol
  import opened JobSafety

  // ---------------------------------------------------------------- expiry and claim

  /**
   `expire_exhausted_leases` fails the visible running rows whose lease ran out with no
   attempt left, and the attempt such a row is on; no other row and no other attempt changes.
   */
  lemma ExpiryExactly(steps: seq<Step>, visible: set<JobId>, id: JobId)
    requires id in Reached(steps).db.jobs
    ensures var s := Reached(steps); var row := s.db.jobs[id]; var db := Next(s, ExpireStep(visible)).db;
            var out := id in visible && row.status == Running && row.lease.Some? && row.lease.value.expiresAt <= s.now
                       && row.attemptCount == row.spec.maxAttempts;
            && db.jobs.Keys == s.db.jobs.Keys && db.attempts.Keys == s.db.attempts.Keys
            && db.jobs[id] == (if !out then row
                               else row.(status := Failed, lease := None, completedAt := Some(s.now), updatedAt := s.now,
                                         lastError := db.jobs[id].lastError))
            && (out ==> db.jobs[id].lastError.Some? && db.jobs[id].lastError.value.category == "lease_expired")
            && (forall n: nat :: (id, n) in s.db.attempts ==>
                  var was, now := s.db.attempts[(id, n)], db.attempts[(id, n)];
                  && now == (if !out || n != row.attemptCount then was
                             else was.(status := LeaseExpired, completedAt := Some(s.now), error := now.error))
                  && (now != was ==> now.error.Some? && now.error.value.category == "lease_expired"))
  {
    ReachedInv(steps);
    assert RowInv(Reached(steps), id);
  }

  /**
   `claim` hands out a lease exactly when some visible row is waiting and due, or was left by
   a lease that ran out with attempts to spare; and of those rows it takes the one of highest
   priority, then the one available first, then the oldest, then the one with the least id.
   */
  lemma ClaimIsFirstInOrder(s: State, expirable: set<JobId>, visible: set<JobId>, worker: string, token: Token,
                            now: Instant, expires: Instant)
    ensures var lease := Claim(s, expirable, visible, worker, token, now, expires).1;
            var ready := set id | id in visible && id in s.jobs
                                  && var row := s.jobs[id];
                                     || (row.status == Queued && row.availableAt <= now)
                                     || (row.status == Running && row.lease.Some? && row.lease.value.expiresAt <= now
                                         && row.attemptCount < row.spec.maxAttempts);
            && (lease.Some? <==> ready != {})
            && (lease.Some? ==>
                  && lease.value.jobId in ready
                  && forall other :: other in ready && other != lease.value.jobId ==>
                       var a, b := s.jobs[lease.value.jobId], s.jobs[other];
                       || a.spec.priority > b.spec.priority
                       || (a.spec.priority == b.spec.priority
                           && (|| a.availableAt < b.availableAt
                               || (a.availableAt == b.availableAt
                                   && (a.createdAt < b.createdAt
                                       || (a.createdAt == b.createdAt && lease.value.jobId < other))))))
  {
    var s1 := Expire(s, expirable, now);
    forall id | id in s.jobs
      ensures Claimable(s1.jobs[id], now) <==> Claimable(s.jobs[id], now)
      ensures Claimable(s.jobs[id], now) ==> s1.jobs[id] == s.jobs[id]
    {
    }
    var ready := Candidates(s, visible, now);
    assert Candidates(s1, visible, now) == ready;
    if ready != {} {
      var id := FirstCandidate(s1, visible, now);
      assert First(s1.jobs, ready, id);
      forall other | other in ready && other != id
        ensures ClaimedBefore(s1.jobs, id, other) && s1.jobs[id] == s.jobs[id] && s1.jobs[other] == s.jobs[other]
      {
      }
    }
  }

  /** The row under its new lease. */
  ghost predicate TakesRow(was: State, now: State, lease: JobLease, clock: Instant) {
    && lease.jobId in was.jobs && lease.attemptNumber == was.jobs[lease.jobId].attemptCount + 1
    && now.jobs == was.jobs[lease.jobId := was.jobs[lease.jobId].(
         status := Running, attemptCount := lease.attemptNumber, updatedAt := clock, lastError := None,
         lease := Some(StoredLease(lease.owner, lease.token, lease.expiresAt)))]
  }

  /** One more attempt, in flight, and the one before closed if its lease had run out. */
  ghost predicate OpensAttempt(was: State, now: State, lease: JobLease, clock: Instant)
    requires lease.jobId in was.jobs
  {
    var k, row := (lease.jobId, lease.attemptNumber), was.jobs[lease.jobId];
    && k !in was.attempts && now.attempts.Keys == was.attempts.Keys + {k}
    && now.attempts[k] == Attempt(lease.token, lease.owner, clock, None, InFlight, None)
    && forall other :: other in was.attempts ==>
         if other == (lease.jobId, row.attemptCount) && row.status == Running
         then Overrun(was.attempts[other], now.attempts[other], clock)
         else now.attempts[other] == was.attempts[other]
  }

  ghost predicate Overrun(was: Attempt, now: Attempt, clock: Instant) {
    && now == was.(status := LeaseExpired, completedAt := Some(clock), error := now.error)
    && now.error.Some? && now.error.value.category == "lease_expired"
  }

  lemma TakingWrites(s: System, id: JobId, worker: string, token: Token, expires: Instant)
    requires Inv(s) && id in s.db.jobs
    ensures var db := TakeLease(s.db, id, worker, token, s.now, expires);
            var lease := LeaseFor(s.db.jobs[id], id, worker, token, expires);
            && lease.jobId == id && lease.owner == worker && lease.token == token && lease.expiresAt == expires
            && TakesRow(s.db, db, lease, s.now) && OpensAttempt(s.db, db, lease, s.now)
  {
    assert RowInv(s, id);
    if s.db.jobs[id].status == Running {
      LastAttemptOpen(s, id);
    }
  }

  /** What a claim adds to a state in which everything exhausted has been failed. */
  ghost predicate Starts(s: System, s': System, worker: string, token: Token, seconds: nat) {
    if token !in s'.grants then s' == s
    else
      var lease := s'.grants[token].lease;
      && lease.owner == worker && lease.token == token && lease.expiresAt == s.now + seconds * 1_000_000
      && TakesRow(s.db, s'.db, lease, s.now) && OpensAttempt(s.db, s'.db, lease, s.now)
      && s'.grants == s.grants[token := Grant(lease, seconds)] && s'.records == s.records + {lease}
      && s'.now == s.now && s'.finished == s.finished && s'.usedIds == s.usedIds
  }

  lemma GrantStarts(s: System, worker: string, token: Token, seconds: nat, visible: set<JobId>)
    requires Inv(s) && token !in s.grants
    ensures Starts(s, FirstGrant(s, worker, token, seconds, visible), worker, token, seconds)
  {
    if Candidates(s.db, visible, s.now) != {} {
      TakingWrites(s, FirstCandidate(s.db, visible, s.now), worker, token, s.now + seconds * SECOND);
    }
  }

  /**
   What a granted claim writes on top of the expiry it starts with: the row runs under the
   new lease as one more attempt, an attempt whose lease ran out is closed, and nothing else.
   */
  lemma ClaimStartsOneAttempt(steps: seq<Step>, worker: string, token: Token, seconds: nat, expirable: set<JobId>,
                              visible: set<JobId>)
    requires token !in Reached(steps).grants && seconds >= 30
    ensures var s, claim := Reached(steps), ClaimStep(worker, token, seconds, expirable, visible);
            Starts(Next(s, ExpireStep(expirable)), Next(s, claim), worker, token, seconds)
  {
    ReachedInv(steps);
    var s := Reached(steps);
    ExpireKeeps(s, expirable);
    ClaimIsFirstGrant(s, worker, token, seconds, expirable, visible);
    GrantStarts(s.(db := Expire(s.db, expirable, s.now)), worker, token, seconds, visible);
  }

  // ---------------------------------------------------------------- heartbeat, success and failure

  /** An accepted heartbeat moves the end of the lease, in the row and in the worker's record, and may note progress. */
  lemma HeartbeatExtends(steps: seq<Step>, r: JobLease, progress: Option<string>)
    requires var s := Reached(steps); r in s.records && Holds(s.db, r.jobId, r.token)
    ensures var s := Reached(steps); var s' := Next(s, HeartbeatStep(r, progress));
            r.token in s.grants
            && var row, expires := s.db.jobs[r.jobId], s.now + s.grants[r.token].seconds * 1_000_000;
               && s'.db == s.db.(jobs := s.db.jobs[r.jobId := row.(
                    lease := Some(StoredLease(r.owner, r.token, expires)), updatedAt := s.now,
                    progress := if progress.None? then row.progress else progress)])
               && s'.records == s.records + {r.(expiresAt := expires)}
               && s'.grants[r.token] == Grant(r.(expiresAt := expires), s.grants[r.token].seconds)
  {
    ReachedInv(steps);
    assert RowInv(Reached(steps), r.jobId);
  }

  /** An accepted success finishes the row and, though attempts are found by their token, exactly one attempt. */
  lemma SuccessSettlesOneAttempt(steps: seq<Step>, r: JobLease, progress: Option<string>)
    requires var s := Reached(steps); r in s.records && Holds(s.db, r.jobId, r.token)
    ensures var s, k := Reached(steps), (r.jobId, r.attemptNumber); var s' := Next(s, SucceedStep(r, progress));
            && k in s.db.attempts
            && s'.db.jobs == s.db.jobs[r.jobId := s.db.jobs[r.jobId].(
                 status := Succeeded, lease := None, progress := progress, completedAt := Some(s.now), updatedAt := s.now)]
            && s'.db.attempts == s.db.attempts[k := s.db.attempts[k].(status := Completed, completedAt := Some(s.now))]
            && s'.finished == s.finished + {r.token}
  {
    ReachedInv(steps);
    HeldIsLast(Reached(steps), r);
    LastAttemptOpen(Reached(steps), r.jobId);
  }

  /**
   An accepted failure closes exactly one attempt with the error, and puts the row back in
   the queue for the retry time while attempts are left, or else finishes it.
   */
  lemma FailureSettlesOneAttempt(steps: seq<Step>, r: JobLease, error: Failure, retryable: bool, delay: nat)
    requires var s := Reached(steps); r in s.records && Holds(s.db, r.jobId, r.token)
    ensures var s, k := Reached(steps), (r.jobId, r.attemptNumber);
            var s', row := Next(s, FailStep(r, error, retryable, delay)), s.db.jobs[r.jobId];
            && k in s.db.attempts
            && s'.db.jobs == s.db.jobs[r.jobId :=
                 if retryable && row.attemptCount < row.spec.maxAttempts
                 then row.(status := Queued, lease := None, availableAt := s.now + delay * 1_000_000, updatedAt := s.now,
                           lastError := Some(error))
                 else row.(status := Failed, lease := None, completedAt := Some(s.now), updatedAt := s.now,
                           lastError := Some(error))]
            && s'.db.attempts
               == s.db.attempts[k := s.db.attempts[k].(status := Errored, completedAt := Some(s.now), error := Some(error))]
            && s'.finished == s.finished + {r.token}
  {
    ReachedInv(steps);
    HeldIsLast(Reached(steps), r);
    assert RowInv(Reached(steps), r.jobId);
  }

  // ---------------------------------------------------------------- retention

  /**
   A prune deletes finished rows older than the bound with all their attempts, and no other
   row; and a visible one that it leaves over, because it deletes no more than it may, was
   finished no earlier than any it took.
   */
  lemma PruneTakesTheOldest(s: System, visible: set<JobId>, before: Instant, limit: nat, doomed: set<JobId>, id: JobId)
    requires Enabled(s, PruneStep(visible, before, limit, doomed)) && id in s.db.jobs
    ensures var db, row := Next(s, PruneStep(visible, before, limit, doomed)).db, s.db.jobs[id];
            var aged := id in visible && row.status in {Succeeded, Failed, Cancelled} && row.completedAt.Some?
                       && row.completedAt.value < before;
            && |doomed| <= limit
            && (id in db.jobs <==> id !in doomed) && (id in db.jobs ==> db.jobs[id] == row)
            && (forall n: nat :: (id, n) in db.attempts <==> (id, n) in s.db.attempts && id !in doomed)
            && (forall n: nat :: (id, n) in db.attempts ==> db.attempts[(id, n)] == s.db.attempts[(id, n)])
            && (id in doomed ==> aged)
            && (aged && id !in doomed ==>
                  && |doomed| == limit
                  && forall d :: d in doomed ==>
                       && d in s.db.jobs && s.db.jobs[d].completedAt.Some?
                       && (s.db.jobs[d].completedAt.value < row.completedAt.value
                           || (s.db.jobs[d].completedAt.value == row.completedAt.value && d < id)))
  {
    var eligible := Prunable(s.db, visible, before);
    assert id in eligible <==> (id in visible && s.db.jobs[id].Terminal() && s.db.jobs[id].completedAt.Some?
                                && s.db.jobs[id].completedAt.value < before);
    if id in eligible && id !in doomed {
      assert id in eligible - doomed;
      if |eligible| <= |doomed| {
        Subsets(doomed, eligible);
      }
      forall d | d in doomed
        ensures PrunedBefore(s.db.jobs, d, id)
      {
      }
    }
  }

  lemma Subsets(a: set<JobId>, b: set<JobId>)
    requires a <= b && |a| == |b|
    ensures a == b
  {
    assert b == a + (b - a);
  }
}
