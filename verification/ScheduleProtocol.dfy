/**
 Schedules and the job queue running together. Any number of processes materialize due
 rows, upsert definitions, run jobs and prune finished ones, in any order.
 */
module ScheduleProtocol {
  import opened Wrappers
  import opened JobTables
  import opened Schedules
  import Q = JobProtocol

  /** `made` remembers which job each schedule instant was turned into, also after it is pruned. */
  datatype World = World(queue: Q.System, rows: Rows, made: map<(nat, Instant), JobId>)

  datatype Move =
    | QueueMove(step: Q.Step)
    | UpsertMove(name: string, newId: nat, kind: string, resourceKey: Option<string>, payload: string,
                 timing: Timing, priority: int, maxAttempts: nat, enabled: bool)
    | DueMove(name: string, visible: set<string>, jobId: JobId)

  const BEGIN := World(Q.START, map[], map[])

  ghost predicate Enabled(w: World, move: Move) {
    match move
    case QueueMove(step) => step.EnqueueStep? && step.spec.key.Some? ==> step.spec.key.value.CallerKey?
    case UpsertMove(name, newId, _, _, _, timing, _, maxAttempts, _) =>
      ValidTiming(timing) && maxAttempts >= 1 && forall n :: n in w.rows ==> w.rows[n].id != newId
    case DueMove(name, visible, jobId) =>
      NextDue(w.rows, visible, w.queue.now, name) && ValidTiming(w.rows[name].timing) && jobId !in w.queue.usedIds
  }

  /** The upsert or materialization as a transaction on the shared tables. */
  ghost function Next(w: World, move: Move): World {
    if !Enabled(w, move) then w
    else match move
      case QueueMove(step) => w.(queue := Q.Next(w.queue, step))
      case UpsertMove(name, newId, kind, resourceKey, payload, timing, priority, maxAttempts, enabled) =>
        w.(rows := Upsert(w.rows, name, newId, kind, resourceKey, payload, timing, priority, maxAttempts, enabled,
                          NextOccurrence(timing, w.queue.now).value, w.queue.now))
      case DueMove(name, visible, jobId) =>
        var row := w.rows[name];
        var t := Materialize(Tables(w.queue.db, w.rows), name, jobId, w.queue.now);
        var created := !KeyTaken(w.queue.db.jobs, OccurrenceSpec(row).key);
        World(w.queue.(db := t.jobs, usedIds := w.queue.usedIds + {jobId}), t.rows,
              if created then w.made[(row.id, row.nextRunAt) := jobId] else w.made)
  }

  // ---------------------------------------------------------------- the invariant

  ghost predicate RowOk(w: World, row: Row) {
    && ValidTiming(row.timing) && row.maxAttempts >= 1
    && forall at: Instant :: (row.id, at) in w.made ==> at < row.nextRunAt
  }

  ghost predicate RowsOk(w: World) {
    && (forall n :: n in w.rows ==> RowOk(w, w.rows[n]))
    && (forall n, m :: n in w.rows && m in w.rows && w.rows[n].id == w.rows[m].id ==> n == m)
  }

  ghost predicate HasRow(rows: Rows, id: nat) { exists n :: n in rows && rows[n].id == id }

  ghost predicate MadeOk(w: World) {
    && (forall k :: k in w.made ==> k.1 <= w.queue.now && w.made[k] in w.queue.usedIds && HasRow(w.rows, k.0))
    && (forall k, l :: k in w.made && l in w.made && w.made[k] == w.made[l] ==> k == l)
  }

  /** A job made by a schedule is the job its instant was turned into. */
  ghost predicate ServesItsInstant(w: World, j: JobId)
    requires j in w.queue.db.jobs
  {
    var key := w.queue.db.jobs[j].spec.key;
    key.Some? && key.value.ScheduleKey? ==>
      (key.value.scheduleId, key.value.at) in w.made && w.made[(key.value.scheduleId, key.value.at)] == j
  }

  ghost predicate Inv(w: World) {
    && Q.Inv(w.queue) && RowsOk(w) && MadeOk(w)
    && forall j :: j in w.queue.db.jobs ==> ServesItsInstant(w, j)
  }

  /** A job of the table after a queue step was there before with the same spec, or was enqueued by it. */
  lemma SpecsKept(s: Q.System, step: Q.Step, j: JobId)
    requires j in Q.Next(s, step).db.jobs
    ensures (j in s.db.jobs && Q.Next(s, step).db.jobs[j].spec == s.db.jobs[j].spec)
         || (step.EnqueueStep? && j == step.id && Q.Next(s, step).db.jobs[j].spec == step.spec)
  {
  }

  lemma QueueMoveKeeps(w: World, step: Q.Step)
    requires Inv(w) && Enabled(w, QueueMove(step))
    ensures Inv(Next(w, QueueMove(step)))
  {
    Q.StepKeeps(w.queue, step);
    var w' := Next(w, QueueMove(step));
    forall n | n in w'.rows
      ensures RowOk(w', w'.rows[n])
    {
      assert RowOk(w, w.rows[n]);
    }
    forall j | j in w'.queue.db.jobs
      ensures ServesItsInstant(w', j)
    {
      SpecsKept(w.queue, step, j);
      assert j in w.queue.db.jobs ==> ServesItsInstant(w, j);
    }
  }

  lemma UpsertMoveKeeps(w: World, move: Move)
    requires Inv(w) && move.UpsertMove? && Enabled(w, move)
    ensures Inv(Next(w, move))
  {
    var w' := Next(w, move);
    NextIsLater(move.timing, w.queue.now);
    forall n | n in w'.rows
      ensures RowOk(w', w'.rows[n])
    {
      if n in w.rows {
        assert RowOk(w, w.rows[n]);
      }
    }
    forall k | k in w'.made
      ensures HasRow(w'.rows, k.0)
    {
      var n :| n in w.rows && w.rows[n].id == k.0;
      assert n in w'.rows && w'.rows[n].id == k.0;
    }
    forall j | j in w'.queue.db.jobs
      ensures ServesItsInstant(w', j)
    {
      assert ServesItsInstant(w, j);
    }
  }

  /** The instant a row is about to materialize was never materialized before. */
  lemma InstantIsNew(w: World, name: string)
    requires Inv(w) && name in w.rows
    ensures (w.rows[name].id, w.rows[name].nextRunAt) !in w.made
    ensures !KeyTaken(w.queue.db.jobs, OccurrenceSpec(w.rows[name]).key)
  {
    assert RowOk(w, w.rows[name]);
  }

  lemma DueMoveKeeps(w: World, name: string, visible: set<string>, jobId: JobId)
    requires Inv(w) && Enabled(w, DueMove(name, visible, jobId))
    ensures Inv(Next(w, DueMove(name, visible, jobId)))
  {
    var w' := Next(w, DueMove(name, visible, jobId));
    var row := w.rows[name];
    InstantIsNew(w, name);
    Q.EnqueueKeeps(w.queue, jobId, OccurrenceSpec(row), row.nextRunAt) by {
      assert RowOk(w, row);
    }
    assert w'.queue == Q.Next(w.queue, Q.EnqueueStep(jobId, OccurrenceSpec(row), row.nextRunAt)) by {
      assert RowOk(w, row);
    }
    DueMoveRows(w, w', name, jobId);
    assert jobId !in w.queue.db.jobs by {
      assert Q.RowInv(w.queue, jobId);
    }
    forall j | j in w'.queue.db.jobs
      ensures ServesItsInstant(w', j)
    {
      if j != jobId {
        assert ServesItsInstant(w, j);
      }
    }
  }

  lemma DueMoveRows(w: World, w': World, name: string, jobId: JobId)
    requires RowsOk(w) && MadeOk(w) && name in w.rows && ValidTiming(w.rows[name].timing)
    requires w.rows[name].nextRunAt <= w.queue.now == w'.queue.now
    requires jobId !in w.queue.usedIds && w'.queue.usedIds == w.queue.usedIds + {jobId}
    requires w'.rows == w.rows[name := Advanced(w.rows[name], w.queue.now)]
    requires w'.made == w.made[(w.rows[name].id, w.rows[name].nextRunAt) := jobId]
    ensures RowsOk(w') && MadeOk(w')
  {
    var row := w.rows[name];
    NextIsLater(row.timing, row.nextRunAt);
    forall n | n in w'.rows
      ensures RowOk(w', w'.rows[n])
    {
      assert RowOk(w, w.rows[n]);
    }
    forall k | k in w'.made
      ensures HasRow(w'.rows, k.0)
    {
      if k in w.made {
        var n :| n in w.rows && w.rows[n].id == k.0;
        assert n in w'.rows && w'.rows[n].id == k.0;
      } else {
        assert name in w'.rows && w'.rows[name].id == k.0;
      }
    }
  }

  lemma MoveKeeps(w: World, move: Move)
    requires Inv(w)
    ensures Inv(Next(w, move))
  {
    if Enabled(w, move) {
      match move
      case QueueMove(step) => QueueMoveKeeps(w, step);
      case UpsertMove(_, _, _, _, _, _, _, _, _) => UpsertMoveKeeps(w, move);
      case DueMove(name, visible, jobId) => DueMoveKeeps(w, name, visible, jobId);
    }
  }

  ghost function Run(w: World, moves: seq<Move>): World
    decreases |moves|
  {
    if moves == [] then w else Run(Next(w, moves[0]), moves[1..])
  }

  ghost function Reached(moves: seq<Move>): World { Run(BEGIN, moves) }

  lemma {:induction false} RunKeeps(w: World, moves: seq<Move>)
    requires Inv(w)
    ensures Inv(Run(w, moves))
    decreases |moves|
  {
    if moves == [] {
    } else {
      MoveKeeps(w, moves[0]);
      RunKeeps(Next(w, moves[0]), moves[1..]);
    }
  }

  lemma ReachedInv(moves: seq<Move>)
    ensures Inv(Reached(moves))
  {
    forall id: JobId
      ensures Q.RowInv(Q.START, id)
    {
    }
    RunKeeps(BEGIN, moves);
  }

  // ---------------------------------------------------------------- at most one job an instant

  /**
   Materializing takes an enabled row that is due, the earliest of those it can lock, and
   always creates a job for it: with the definition of the row, for an instant that never
   had one, however often it is retried. The row moves on to the next instant.
   */
  lemma EachInstantOnce(moves: seq<Move>, name: string, visible: set<string>, jobId: JobId)
    requires Enabled(Reached(moves), DueMove(name, visible, jobId))
    ensures var w := Reached(moves); var row, now := w.rows[name], w.queue.now;
            && row.enabled && row.nextRunAt <= now
            && (forall other :: other in visible && other in w.rows && w.rows[other].enabled ==>
                  row.nextRunAt <= w.rows[other].nextRunAt)
            && (row.id, row.nextRunAt) !in w.made && jobId !in w.queue.db.jobs
            && var w' := Next(w, DueMove(name, visible, jobId));
               && w'.made == w.made[(row.id, row.nextRunAt) := jobId]
               && w'.queue.db.attempts == w.queue.db.attempts
               && w'.queue.db.jobs == w.queue.db.jobs[jobId := Job(
                    Spec(row.kind, row.resourceKey, Materialized(row.payload, row.nextRunAt),
                         Some(ScheduleKey(row.id, row.nextRunAt)), row.priority, row.maxAttempts),
                    Queued, 0, row.nextRunAt, now, now, None, None, None, None)]
               && NextOccurrence(row.timing, row.nextRunAt).Ok?
               && w'.rows == w.rows[name := row.(lastEnqueuedAt := Some(row.nextRunAt), updatedAt := now,
                                                 nextRunAt := NextOccurrence(row.timing, row.nextRunAt).value)]
               && w'.rows[name].nextRunAt > row.nextRunAt
  {
    var w := Reached(moves);
    ReachedInv(moves);
    MoveKeeps(w, DueMove(name, visible, jobId));
    InstantIsNew(w, name);
    NextIsLater(w.rows[name].timing, w.rows[name].nextRunAt);
    assert Q.RowInv(w.queue, jobId);
    forall other | other in visible && other in w.rows && w.rows[other].enabled
      ensures w.rows[name].nextRunAt <= w.rows[other].nextRunAt
    {
      assert w.rows[other].nextRunAt <= w.queue.now ==> Due(w.rows, visible, w.queue.now, other);
    }
  }

  lemma MadeGrowsByOne(w: World, move: Move)
    requires Inv(w)
    ensures forall k :: k in w.made ==> k in Next(w, move).made && Next(w, move).made[k] == w.made[k]
  {
    if move.DueMove? && Enabled(w, move) {
      InstantIsNew(w, move.name);
    }
  }

  /** The job an instant got is the job it keeps: no later move makes another. */
  lemma {:induction false} MadeIsStable(w: World, moves: seq<Move>)
    requires Inv(w)
    ensures forall k :: k in w.made ==> k in Run(w, moves).made && Run(w, moves).made[k] == w.made[k]
    decreases |moves|
  {
    if moves == [] {
    } else {
      MoveKeeps(w, moves[0]);
      MadeGrowsByOne(w, moves[0]);
      MadeIsStable(Next(w, moves[0]), moves[1..]);
    }
  }

  /** Two rows of the job table never serve the same schedule instant, nor does one serve two. */
  lemma OneJobPerInstant(moves: seq<Move>, i: JobId, j: JobId)
    requires var jobs := Reached(moves).queue.db.jobs;
             && i in jobs && j in jobs && jobs[i].spec.key.Some? && jobs[i].spec.key.value.ScheduleKey?
             && jobs[j].spec.key == jobs[i].spec.key
    ensures i == j
    ensures var key := Reached(moves).queue.db.jobs[i].spec.key.value;
            (key.scheduleId, key.at) in Reached(moves).made && Reached(moves).made[(key.scheduleId, key.at)] == i
  {
    var w := Reached(moves);
    ReachedInv(moves);
    assert ServesItsInstant(w, i) && ServesItsInstant(w, j);
  }

  // ---------------------------------------------------------------- no instant is skipped

  /** The k-th instant of a schedule that starts at `start`. */
  function Chain(timing: Timing, start: Instant, k: nat): Instant
    requires ValidTiming(timing)
  {
    if k == 0 then start
    else NextOccurrence(timing, Chain(timing, start, k - 1)).value
  }

  lemma {:induction false} ChainFromNext(timing: Timing, start: Instant, k: nat)
    requires ValidTiming(timing)
    ensures Chain(timing, NextOccurrence(timing, start).value, k) == Chain(timing, start, k + 1)
  {
    if k == 0 {
    } else {
      ChainFromNext(timing, start, k - 1);
    }
  }

  /** The instants of an interval are evenly spaced; those of a daily time come a day apart. */
  lemma {:induction false} ChainIsRegular(timing: Timing, start: Instant, k: nat)
    requires ValidTiming(timing)
    ensures timing.Interval? ==> Chain(timing, start, k) == start + k * (timing.seconds * 1_000_000)
    ensures timing.Daily? && k > 0 ==> Chain(timing, start, k) == Chain(timing, start, 1) + (k - 1) * 86_400_000_000
  {
    if k == 0 {
    } else {
      ChainIsRegular(timing, start, k - 1);
      if timing.Daily? {
        var before := Chain(timing, start, k - 1);
        if k > 1 {
          DailyIsLeast(timing.hour, timing.minute, Chain(timing, start, k - 2), before);
          DayLater(timing.hour, timing.minute, before);
        }
      } else {
        Spaced(k - 1, timing.seconds * 1_000_000);
      }
    }
  }

  lemma Spaced(k: nat, gap: int)
    ensures (k + 1) * gap == k * gap + gap
  {
  }

  /** From an instant with the time of day the next one is a day away. */
  lemma DayLater(hour: int, minute: int, at: Instant)
    requires 0 <= hour <= 23 && 0 <= minute <= 59
    requires at % 86_400_000_000 == hour * 3_600_000_000 + minute * 60_000_000
    ensures NextOccurrence(Daily(hour, minute), at) == Ok(at + 86_400_000_000)
  {
  }

  ghost predicate NoUpsert(moves: seq<Move>, name: string) {
    forall i :: 0 <= i < |moves| && moves[i].UpsertMove? ==> moves[i].name != name
  }

  /** The instants this run materialized for the row are the first `k` of its chain, in full. */
  ghost predicate Covers(w: World, w': World, name: string, k: nat)
    requires name in w.rows && ValidTiming(w.rows[name].timing)
  {
    var row := w.rows[name];
    && name in w'.rows && w'.rows[name].id == row.id && w'.rows[name].timing == row.timing
    && w'.rows[name].nextRunAt == Chain(row.timing, row.nextRunAt, k)
    && (forall i: nat :: i < k ==> (row.id, Chain(row.timing, row.nextRunAt, i)) in w'.made)
    && (forall at: Instant :: (row.id, at) in w'.made && (row.id, at) !in w.made ==>
          exists i: nat :: i < k && at == Chain(row.timing, row.nextRunAt, i))
  }

  lemma MoveCovers(w: World, move: Move, name: string) returns (k: nat)
    requires Inv(w) && name in w.rows
    requires move.UpsertMove? ==> move.name != name
    ensures Covers(w, Next(w, move), name, k) && k <= 1
  {
    k := 0;
    var row := w.rows[name];
    if move.DueMove? && Enabled(w, move) {
      InstantIsNew(w, move.name);
      if move.name == name {
        k := 1;
        assert Chain(row.timing, row.nextRunAt, 0) == row.nextRunAt;
        assert Chain(row.timing, row.nextRunAt, 1) == NextOccurrence(row.timing, row.nextRunAt).value;
      }
    }
  }

  lemma NothingCovered(w: World, name: string)
    requires name in w.rows && ValidTiming(w.rows[name].timing)
    ensures Covers(w, w, name, 0)
  {
  }

  /** Without an upsert of the schedule, every instant below `next_run_at` has its job and no other has. */
  lemma {:induction false} NoInstantSkipped(w: World, moves: seq<Move>, name: string) returns (k: nat)
    requires Inv(w) && name in w.rows && NoUpsert(moves, name)
    ensures ValidTiming(w.rows[name].timing) && Covers(w, Run(w, moves), name, k)
    decreases |moves|
  {
    assert RowOk(w, w.rows[name]);
    k := 0;
    if moves == [] {
      NothingCovered(w, name);
    } else {
      MoveKeeps(w, moves[0]);
      var w1 := Next(w, moves[0]);
      var first := MoveCovers(w, moves[0], name);
      assert NoUpsert(moves[1..], name) by {
        assert forall i :: 0 <= i < |moves[1..]| ==> moves[1..][i] == moves[i + 1];
      }
      var rest := NoInstantSkipped(w1, moves[1..], name);
      k := first + rest;
      MadeIsStable(w1, moves[1..]);
      CoverMore(w, w1, Run(w1, moves[1..]), name, first, rest);
    }
  }

  lemma CoverMore(w: World, w1: World, w2: World, name: string, first: nat, rest: nat)
    requires name in w.rows && ValidTiming(w.rows[name].timing)
    requires first <= 1 && Covers(w, w1, name, first) && Covers(w1, w2, name, rest)
    requires forall k :: k in w1.made ==> k in w2.made
    ensures Covers(w, w2, name, first + rest)
  {
    if first == 0 {
      SkipNone(w, w1, w2, name, rest);
    } else {
      SkipOne(w, w1, w2, name, rest);
    }
  }

  lemma SkipNone(w: World, w1: World, w2: World, name: string, rest: nat)
    requires name in w.rows && ValidTiming(w.rows[name].timing)
    requires Covers(w, w1, name, 0) && Covers(w1, w2, name, rest)
    ensures Covers(w, w2, name, rest)
  {
    assert forall at: Instant :: (w.rows[name].id, at) in w1.made ==> (w.rows[name].id, at) in w.made;
  }

  lemma SkipOne(w: World, w1: World, w2: World, name: string, rest: nat)
    requires name in w.rows && ValidTiming(w.rows[name].timing)
    requires Covers(w, w1, name, 1) && Covers(w1, w2, name, rest)
    requires forall k :: k in w1.made ==> k in w2.made
    ensures Covers(w, w2, name, 1 + rest)
  {
    var row := w.rows[name];
    var next := w1.rows[name].nextRunAt;
    assert next == NextOccurrence(row.timing, row.nextRunAt).value by {
      assert Chain(row.timing, row.nextRunAt, 0) == row.nextRunAt;
    }
    ChainFromNext(row.timing, row.nextRunAt, rest);
    forall i: nat | i < 1 + rest
      ensures (row.id, Chain(row.timing, row.nextRunAt, i)) in w2.made
    {
      if i > 0 {
        ChainFromNext(row.timing, row.nextRunAt, i - 1);
        assert (row.id, Chain(row.timing, next, i - 1)) in w2.made;
      }
    }
    forall at: Instant | (row.id, at) in w2.made && (row.id, at) !in w.made
      ensures exists i: nat :: i < 1 + rest && at == Chain(row.timing, row.nextRunAt, i)
    {
      if (row.id, at) in w1.made {
        var i: nat :| i < 1 && at == Chain(row.timing, row.nextRunAt, i);
      } else {
        var i: nat :| i < rest && at == Chain(row.timing, next, i);
        ChainFromNext(row.timing, row.nextRunAt, i);
        assert i + 1 < 1 + rest && at == Chain(row.timing, row.nextRunAt, i + 1);
      }
    }
  }
}
