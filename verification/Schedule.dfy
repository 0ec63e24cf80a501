/** Schedule definitions, their next occurrence, and turning due schedules into jobs. */
module Schedules {
  import opened Wrappers
  import opened JobTables
  import opened JobQueues

  /** A `schedule_spec`; daily times are UTC, the zone of every default schedule. */
  datatype Timing = Interval(seconds: int) | Daily(hour: int, minute: int) | Unsupported

  const DAY := 86_400 * SECOND

  predicate ValidTiming(timing: Timing) {
    match timing
    case Interval(seconds) => seconds >= 60
    case Daily(hour, minute) => 0 <= hour <= 23 && 0 <= minute <= 59
    case Unsupported => false
  }

  /** The moment of the day a daily schedule names. */
  function TimeOfDay(hour: int, minute: int): int { (hour * 3600 + minute * 60) * SECOND }

  function NextOccurrence(timing: Timing, after: Instant): Result<Instant, ()> {
    if !ValidTiming(timing) then Err(())
    else match timing
      case Interval(seconds) => Ok(after + seconds * SECOND)
      case Daily(hour, minute) =>
        var candidate := after - after % DAY + TimeOfDay(hour, minute);
        Ok(if candidate <= after then candidate + DAY else candidate)
  }

  /** A daily occurrence is the least instant after the given one that has the time of day. */
  lemma DailyIsLeast(hour: int, minute: int, after: Instant, other: Instant)
    requires 0 <= hour <= 23 && 0 <= minute <= 59
    ensures NextOccurrence(Daily(hour, minute), after).Ok?
    ensures var next := NextOccurrence(Daily(hour, minute), after).value;
            var time := hour * 3_600_000_000 + minute * 60_000_000;
            && after < next <= after + 86_400_000_000
            && next % 86_400_000_000 == time
            && (after < other < next ==> other % 86_400_000_000 != time)
  {
    var time := TimeOfDay(hour, minute);
    assert 0 <= time < DAY;
    var next := NextOccurrence(Daily(hour, minute), after).value;
    SameDayTime(after / DAY, time);
    SameDayTime(after / DAY + 1, time);
    assert after == DAY * (after / DAY) + after % DAY;
    SameTimeGap(other, next);
  }

  lemma SameTimeGap(a: int, b: int)
    ensures a < b && a % DAY == b % DAY ==> a + DAY <= b
  {
    assert a == DAY * (a / DAY) + a % DAY;
    assert b == DAY * (b / DAY) + b % DAY;
  }

  lemma SameDayTime(day: int, time: int)
    requires 0 <= time < DAY
    ensures (DAY * day + time) % DAY == time && (DAY * day + time) / DAY == day
  {
  }

  /** Which timings have an occurrence at all; it is then later than the given instant. */
  lemma NextIsLater(timing: Timing, after: Instant)
    ensures NextOccurrence(timing, after).Ok?
       <==> (timing.Interval? && timing.seconds >= 60)
            || (timing.Daily? && 0 <= timing.hour <= 23 && 0 <= timing.minute <= 59)
    ensures NextOccurrence(timing, after).Ok? ==> NextOccurrence(timing, after).value > after
    ensures ValidTiming(timing) <==> NextOccurrence(timing, after).Ok?
  {
    if timing.Daily? && ValidTiming(timing) {
      DailyIsLeast(timing.hour, timing.minute, after, after);
    }
  }

  // ---------------------------------------------------------------- the scheduled_jobs table

  /** A `scheduled_jobs` row; rows are looked up by their unique name. */
  datatype Row = Row(
    id: nat,
    kind: string,
    resourceKey: Option<string>,
    payload: string,
    timing: Timing,
    priority: int,
    maxAttempts: nat,
    enabled: bool,
    nextRunAt: Instant,
    lastEnqueuedAt: Option<Instant>,
    createdAt: Instant,
    updatedAt: Instant)

  type Rows = map<string, Row>

  predicate Due(rows: Rows, visible: set<string>, now: Instant, name: string) {
    name in visible && name in rows && rows[name].enabled && rows[name].nextRunAt <= now
  }

  /** `ORDER BY next_run_at, name LIMIT 1`; how names collate is left open. */
  predicate NextDue(rows: Rows, visible: set<string>, now: Instant, name: string) {
    Due(rows, visible, now, name)
    && forall other :: other in visible && Due(rows, visible, now, other) ==> rows[name].nextRunAt <= rows[other].nextRunAt
  }

  function OccurrenceSpec(row: Row): Spec {
    Spec(row.kind, row.resourceKey, Materialized(row.payload, row.nextRunAt), Some(ScheduleKey(row.id, row.nextRunAt)),
         row.priority, row.maxAttempts)
  }

  /** `upsert` refuses a timing with no next occurrence, so no stored row has one. */
  ghost predicate AllValid(rows: Rows) { forall name :: name in rows ==> ValidTiming(rows[name].timing) }

  function Advanced(row: Row, now: Instant): Row
    requires ValidTiming(row.timing)
  {
    row.(lastEnqueuedAt := Some(row.nextRunAt), updatedAt := now,
         nextRunAt := NextOccurrence(row.timing, row.nextRunAt).value)
  }

  datatype Tables = Tables(jobs: State, rows: Rows)

  /** One transaction of `enqueue_due`: enqueue the occurrence and move the row on. */
  function Materialize(t: Tables, name: string, id: JobId, now: Instant): Tables
    requires name in t.rows && ValidTiming(t.rows[name].timing)
  {
    var row := t.rows[name];
    Tables(Enqueue(t.jobs, id, OccurrenceSpec(row), row.nextRunAt, now), t.rows[name := Advanced(row, now)])
  }

  function Upsert(rows: Rows, name: string, newId: nat, kind: string, resourceKey: Option<string>, payload: string,
                  timing: Timing, priority: int, maxAttempts: nat, enabled: bool, next: Instant, now: Instant): Rows {
    if name in rows then
      rows[name := rows[name].(kind := kind, resourceKey := resourceKey, payload := payload, timing := timing,
                               priority := priority, maxAttempts := maxAttempts, enabled := enabled,
                               nextRunAt := next, updatedAt := now)]
    else
      rows[name := Row(newId, kind, resourceKey, payload, timing, priority, maxAttempts, enabled, next, None, now, now)]
  }

  /** The state after materializing the given rows one after the other. */
  ghost function MaterializeAll(t: Tables, names: seq<string>, ids: seq<JobId>, nows: seq<Instant>): (r: Tables)
    requires |names| <= |ids| && |names| <= |nows| && AllValid(t.rows)
    ensures AllValid(r.rows)
  {
    if names == [] then t
    else
      var before := MaterializeAll(t, names[..|names| - 1], ids, nows);
      var name := names[|names| - 1];
      if name in before.rows then Materialize(before, name, ids[|names| - 1], nows[|names| - 1]) else before
  }

  /** Each row taken was, when it was taken, a first due row among the lockable ones. */
  ghost predicate Picks(t: Tables, names: seq<string>, ids: seq<JobId>, nows: seq<Instant>, visible: seq<set<string>>)
    requires |names| <= |ids| == |nows| == |visible| && AllValid(t.rows)
  {
    forall i :: 0 <= i < |names| ==> NextDue(MaterializeAll(t, names[..i], ids, nows).rows, visible[i], nows[i], names[i])
  }

  lemma PickOneMore(t: Tables, names: seq<string>, name: string, ids: seq<JobId>, nows: seq<Instant>, visible: seq<set<string>>)
    requires |names| < |ids| == |nows| == |visible| && AllValid(t.rows) && Picks(t, names, ids, nows, visible)
    requires NextDue(MaterializeAll(t, names, ids, nows).rows, visible[|names|], nows[|names|], name)
    ensures Picks(t, names + [name], ids, nows, visible)
    ensures MaterializeAll(t, names + [name], ids, nows)
         == Materialize(MaterializeAll(t, names, ids, nows), name, ids[|names|], nows[|names|])
  {
    var more := names + [name];
    assert more[..|names|] == names;
    forall i | 0 <= i < |more|
      ensures NextDue(MaterializeAll(t, more[..i], ids, nows).rows, visible[i], nows[i], more[i])
    {
      if i < |names| {
        assert more[..i] == names[..i];
      }
    }
  }

  class ScheduledJobService {
    var rows: Rows
    const repository: JobRepository
    /** `str.strip`; what counts as a blank is left open. */
    const strip: string -> string

    constructor (repository: JobRepository, strip: string -> string)
      ensures this.repository == repository && this.strip == strip && rows == map[]
    {
      this.repository, this.strip := repository, strip;
      rows := map[];
    }

    ghost function Both(): Tables reads this, repository { Tables(repository.St(), rows) }

    method UpsertSchedule(name: string, kind: string, timing: Timing, payload: string, resourceKey: Option<string>,
                          priority: int, maxAttempts: int, enabled: bool, newId: nat, now: Instant)
      returns (r: Result<nat, ()>)
      requires AllValid(rows)
      modifies this
      ensures AllValid(rows)
      ensures r.Err? <==> strip(name) == "" || strip(kind) == "" || maxAttempts < 1 || NextOccurrence(timing, now).Err?
      ensures r.Err? ==> rows == old(rows)
      ensures r.Ok? ==>
                && rows == Upsert(old(rows), strip(name), newId, strip(kind), resourceKey, payload, timing, priority,
                                  maxAttempts, enabled, NextOccurrence(timing, now).value, now)
                && r.value == rows[strip(name)].id
      ensures r.Ok? ==>
                var was, row := if strip(name) in old(rows) then Some(old(rows)[strip(name)]) else None, rows[strip(name)];
                && rows == old(rows)[strip(name) := row]
                && row.kind == strip(kind) && row.resourceKey == resourceKey && row.payload == payload
                && row.timing == timing && row.priority == priority && row.maxAttempts == maxAttempts
                && row.enabled == enabled && row.nextRunAt == NextOccurrence(timing, now).value && row.updatedAt == now
                && row.id == (if was.Some? then was.value.id else newId)
                && row.createdAt == (if was.Some? then was.value.createdAt else now)
                && row.lastEnqueuedAt == (if was.Some? then was.value.lastEnqueuedAt else None)
    {
      if strip(name) == "" || strip(kind) == "" || maxAttempts < 1 {
        return Err(());
      }
      var next := NextOccurrence(timing, now);
      if next.Err? {
        return Err(());
      }
      rows := Upsert(rows, strip(name), newId, strip(kind), resourceKey, payload, timing, priority, maxAttempts, enabled,
                     next.value, now);
      return Ok(rows[strip(name)].id);
    }

    /** One clock reading, one fresh job id and one set of lockable rows for each round of the loop. */
    method EnqueueDue(limit: nat, nows: seq<Instant>, ids: seq<JobId>, visible: seq<set<string>>)
      returns (names: seq<string>)
      requires |nows| == |ids| == |visible| == limit
      requires forall i :: 0 <= i < limit ==> ids[i] !in repository.jobs
      requires forall i, j :: 0 <= i < j < limit ==> ids[i] != ids[j]
      requires AllValid(rows)
      modifies this, repository
      ensures AllValid(rows)
      ensures |names| <= limit
      ensures Both() == MaterializeAll(old(Both()), names, ids, nows)
      ensures Picks(old(Both()), names, ids, nows, visible)
      ensures |names| < limit ==>
                forall name :: name in visible[|names|] && name in rows && rows[name].enabled ==>
                  rows[name].nextRunAt > nows[|names|]
    {
      names := [];
      ghost var was := Both();
      while |names| < limit
        invariant |names| <= limit
        invariant AllValid(rows) && Both() == MaterializeAll(was, names, ids, nows)
        invariant forall i :: |names| <= i < limit ==> ids[i] !in repository.jobs
        invariant Picks(was, names, ids, nows, visible)
      {
        var round := |names|;
        var due := set name | name in visible[round] && Due(rows, visible[round], nows[round], name);
        if due == {} {
          forall name | name in visible[round]
            ensures !Due(rows, visible[round], nows[round], name)
          {
            assert name !in due;
          }
          return;
        }
        var name := Earliest(rows, due);
        assert NextDue(rows, visible[round], nows[round], name);
        PickOneMore(was, names, name, ids, nows, visible);
        MaterializeOne(name, ids[round], nows[round]);
        names := names + [name];
      }
    }

    method MaterializeOne(name: string, id: JobId, now: Instant)
      requires name in rows && ValidTiming(rows[name].timing) && id !in repository.jobs
      modifies this, repository
      ensures Both() == Materialize(old(Both()), name, id, now)
      ensures repository.jobs.Keys <= old(repository.jobs.Keys) + {id}
    {
      var row := rows[name];
      var _, _ := repository.Enqueue(id, OccurrenceSpec(row), row.nextRunAt, now);
      rows := rows[name := Advanced(row, now)];
    }
  }

  method Earliest(rows: Rows, names: set<string>) returns (name: string)
    requires names != {} && forall n :: n in names ==> n in rows
    ensures name in names && forall other :: other in names ==> rows[name].nextRunAt <= rows[other].nextRunAt
  {
    name :| name in names;
    var todo := names - {name};
    while todo != {}
      invariant todo <= names && name in names
      invariant forall other :: other in names - todo ==> rows[name].nextRunAt <= rows[other].nextRunAt
    {
      var next :| next in todo;
      if rows[next].nextRunAt < rows[name].nextRunAt {
        name := next;
      }
      todo := todo - {next};
    }
  }
}
