/** Coach runs: at most one per idempotency key, one analyzer at a time, and a report that is written once. */
module CoachRuns {
  import opened Wrappers
  import JobTables
  import JobProtocol
  import JobSafety

  type RunId = nat
  type Caller = nat

  datatype RunStatus = Running | Succeeded | Failed

  datatype RunRow = RunRow(key: string, status: RunStatus)

  datatype Finding = Finding(ordinal: nat, text: string)

  datatype Report = Report(id: nat, content: string)

  /** A run without findings has no entry among them. */
  datatype Store = Store(runs: map<RunId, RunRow>, findings: map<RunId, seq<Finding>>, reports: map<RunId, Report>)

  const EMPTY := Store(map[], map[], map[])

  /** What an analyzer and its validation come to; `content` is the rendered report. */
  datatype Analysis = Analysis(findings: seq<string>, reportId: nat, content: string)

  function Numbered(texts: seq<string>): (findings: seq<Finding>)
    ensures |findings| == |texts|
    ensures forall i :: 0 <= i < |texts| ==> findings[i] == Finding(i + 1, texts[i])
  {
    seq(|texts|, i requires 0 <= i < |texts| => Finding(i + 1, texts[i]))
  }

  function FindingsOf(s: Store, run: RunId): seq<Finding> { if run in s.findings then s.findings[run] else [] }

  // ---------------------------------------------------------------- transactions

  predicate KeyTaken(s: Store, key: string) { exists run :: run in s.runs && s.runs[run].key == key }

  /** `on conflict do nothing` on the key. */
  function CreateRun(s: Store, run: RunId, key: string): Store {
    if KeyTaken(s, key) then s else s.(runs := s.runs[run := RunRow(key, Running)])
  }

  function RestartRun(s: Store, run: RunId): Store {
    Store(if run in s.runs && s.runs[run].status != Succeeded then s.runs[run := s.runs[run].(status := Running)] else s.runs,
          s.findings - {run}, s.reports - {run})
  }

  /** The status is overwritten whatever it is. */
  function MarkFailed(s: Store, run: RunId): Store {
    if run in s.runs then s.(runs := s.runs[run := s.runs[run].(status := Failed)]) else s
  }

  /** The unique constraints: one finding for each ordinal of a run, and one report for a run. */
  predicate Clashes(s: Store, run: RunId, a: Analysis) {
    || run in s.reports
    || exists f :: f in FindingsOf(s, run) && 1 <= f.ordinal <= |a.findings|
  }

  /** The transaction fails as a whole when a constraint does; the run must exist for its children. */
  function Complete(s: Store, run: RunId, a: Analysis): Option<Store> {
    if run !in s.runs || Clashes(s, run, a) then None
    else Some(Store(s.runs[run := s.runs[run].(status := Succeeded)],
                    if a.findings == [] then s.findings else s.findings[run := FindingsOf(s, run) + Numbered(a.findings)],
                    s.reports[run := Report(a.reportId, a.content)]))
  }

  datatype Begun =
    | Analyze(run: RunId)
    | Cached(run: RunId, report: Report, findingCount: nat)
    | InProgress(run: RunId)
    | MissingReport

  ghost predicate KeysUnique(s: Store) {
    forall a, b :: a in s.runs && b in s.runs && s.runs[a].key == s.runs[b].key ==> a == b
  }

  ghost function RunFor(s: Store, key: string): (r: Option<RunId>)
    ensures r.Some? ==> r.value in s.runs && s.runs[r.value].key == key
    ensures r.None? <==> !KeyTaken(s, key)
  {
    if run :| run in s.runs && s.runs[run].key == key then Some(run) else None
  }

  /** The first transaction of `analyze`, under the lock of its key. */
  ghost function Begin(s: Store, key: string, newRun: RunId, restart: bool): (Store, Begun) {
    var found := RunFor(s, key);
    if found.None? then (CreateRun(s, newRun, key), Analyze(newRun))
    else
      var run := found.value;
      match s.runs[run].status
      case Succeeded =>
        (s, if run in s.reports then Cached(run, s.reports[run], |FindingsOf(s, run)|) else MissingReport)
      case Running => if restart then (RestartRun(s, run), Analyze(run)) else (s, InProgress(run))
      case Failed => (RestartRun(s, run), Analyze(run))
  }

  // ---------------------------------------------------------------- in place

  class CoachRepository {
    var runs: map<RunId, RunRow>
    var findings: map<RunId, seq<Finding>>
    var reports: map<RunId, Report>

    ghost function St(): Store
      reads this
    {
      Store(runs, findings, reports)
    }

    method RunByIdempotency(key: string) returns (r: Option<RunId>)
      requires KeysUnique(St())
      ensures r == RunFor(St(), key)
    {
      var left := runs.Keys;
      while left != {}
        invariant left <= runs.Keys
        invariant forall run :: run in runs && run !in left ==> runs[run].key != key
        decreases |left|
      {
        var run :| run in left;
        if runs[run].key == key {
          assert KeyTaken(St(), key);
          return Some(run);
        }
        left := left - {run};
      }
      return None;
    }

    method Create(run: RunId, key: string)
      requires KeysUnique(St())
      modifies this
      ensures St() == CreateRun(old(St()), run, key)
    {
      var found := RunByIdempotency(key);
      if found.None? {
        runs := runs[run := RunRow(key, Running)];
      }
    }

    method Restart(run: RunId)
      modifies this
      ensures St() == RestartRun(old(St()), run)
    {
      if run in runs && runs[run].status != Succeeded {
        runs := runs[run := runs[run].(status := Running)];
      }
      findings := findings - {run};
      reports := reports - {run};
    }

    method Fail(run: RunId)
      modifies this
      ensures St() == MarkFailed(old(St()), run)
    {
      if run in runs {
        runs := runs[run := runs[run].(status := Failed)];
      }
    }

    method StoreResult(run: RunId, a: Analysis) returns (ok: bool)
      modifies this
      ensures ok <==> Complete(old(St()), run, a).Some?
      ensures ok <==> run in old(runs) && run !in old(reports)
                      && !exists f :: f in FindingsOf(old(St()), run) && 1 <= f.ordinal <= |a.findings|
      ensures St() == if ok then Complete(old(St()), run, a).value else old(St())
    {
      if run !in runs || Clashes(Store(runs, findings, reports), run, a) {
        return false;
      }
      if a.findings != [] {
        findings := findings[run := (if run in findings then findings[run] else []) + Numbered(a.findings)];
      }
      reports := reports[run := Report(a.reportId, a.content)];
      runs := runs[run := runs[run].(status := Succeeded)];
      return true;
    }
  }

  datatype Answer = Fresh(run: RunId, content: string, findingCount: nat) | Known(Begun) | Raised

  class CoachService {
    const repository: CoachRepository

    constructor (repository: CoachRepository)
      ensures this.repository == repository
    {
      this.repository := repository;
    }

    method BeginRun(key: string, newRun: RunId, restart: bool) returns (r: Begun)
      requires KeysUnique(repository.St())
      modifies repository
      ensures (repository.St(), r) == Begin(old(repository.St()), key, newRun, restart)
    {
      var existing := repository.RunByIdempotency(key);
      if existing.None? {
        repository.Create(newRun, key);
        return Analyze(newRun);
      }
      var run := existing.value;
      if repository.runs[run].status == Succeeded {
        if run !in repository.reports {
          return MissingReport;
        }
        return Cached(run, repository.reports[run], if run in repository.findings then |repository.findings[run]| else 0);
      }
      if repository.runs[run].status == Running && !restart {
        return InProgress(run);
      }
      repository.Restart(run);
      return Analyze(run);
    }

    /** An undisturbed `analyze`; the analyzer's answer is none when it or its validation raises. */
    method AnalyzeReplay(key: string, newRun: RunId, restart: bool, answer: Option<Analysis>) returns (r: Answer)
      requires KeysUnique(repository.St())
      modifies repository
      ensures var (begun, first) := Begin(old(repository.St()), key, newRun, restart);
              if !first.Analyze? then repository.St() == begun && r == Known(first)
              else
                var done := if answer.None? then None else Complete(begun, first.run, answer.value);
                if done.None? then repository.St() == MarkFailed(begun, first.run) && r == Raised
                else repository.St() == done.value && r == Fresh(first.run, answer.value.content, |answer.value.findings|)
    {
      var begun := BeginRun(key, newRun, restart);
      if !begun.Analyze? {
        return Known(begun);
      }
      if answer.Some? {
        var ok := repository.StoreResult(begun.run, answer.value);
        if ok {
          return Fresh(begun.run, answer.value.content, |answer.value.findings|);
        }
      }
      repository.Fail(begun.run);
      return Raised;
    }
  }

  // ---------------------------------------------------------------- any number of callers

  datatype Phase = Analyzing | Failing

  datatype Active = Active(run: RunId, phase: Phase)

  datatype World = World(store: Store, active: map<Caller, Active>)

  /** `fresh ids`: a new run id is one no row and no caller has. A crash leaves the tables as they are. */
  datatype Act =
    | Call(caller: Caller, key: string, newRun: RunId, restart: bool)
    | Finish(caller: Caller, analysis: Analysis)
    | Raise(caller: Caller)
    | Fail(caller: Caller)
    | Crash(caller: Caller)

  ghost predicate Enabled(w: World, act: Act) {
    match act
    case Call(caller, _, newRun, _) =>
      caller !in w.active && newRun !in w.store.runs && newRun !in w.store.findings && newRun !in w.store.reports
    case Finish(caller, _) => caller in w.active && w.active[caller].phase == Analyzing
    case Raise(caller) => caller in w.active && w.active[caller].phase == Analyzing
    case Fail(caller) => caller in w.active && w.active[caller].phase == Failing
    case Crash(caller) => caller in w.active
  }

  ghost function Next(w: World, act: Act): World {
    if !Enabled(w, act) then w
    else match act
      case Call(caller, key, newRun, restart) =>
        var (store, begun) := Begin(w.store, key, newRun, restart);
        World(store, if begun.Analyze? then w.active[caller := Active(begun.run, Analyzing)] else w.active)
      case Finish(caller, analysis) =>
        var done := Complete(w.store, w.active[caller].run, analysis);
        if done.None? then w.(active := w.active[caller := w.active[caller].(phase := Failing)])
        else World(done.value, w.active - {caller})
      case Raise(caller) => w.(active := w.active[caller := w.active[caller].(phase := Failing)])
      case Fail(caller) => World(MarkFailed(w.store, w.active[caller].run), w.active - {caller})
      case Crash(caller) => w.(active := w.active - {caller})
  }

  ghost function Run(w: World, acts: seq<Act>): World
    decreases |acts|
  {
    if acts == [] then w else Run(Next(w, acts[0]), acts[1..])
  }

  const START := World(EMPTY, map[])

  /** What a Coach job asks for: `restart_running` is `attempt_number > 1`, and its attempts are limited to one. */
  ghost predicate NoRestart(acts: seq<Act>) {
    forall i :: 0 <= i < |acts| ==> acts[i].Call? ==> !acts[i].restart
  }

  lemma CoachJobsNeverRestart(steps: seq<JobProtocol.Step>, lease: JobTables.JobLease)
    requires lease in JobSafety.Reached(steps).records && lease.maxAttempts == 1
    ensures !(lease.attemptNumber > 1)
  {
    JobSafety.ReachedInv(steps);
    var s := JobSafety.Reached(steps);
    assert JobProtocol.RowInv(s, lease.jobId);
    assert JobProtocol.GrantOk(s, lease.token, s.grants[lease.token]);
  }

  // ---------------------------------------------------------------- the invariant

  ghost predicate FindingsCount(findings: seq<Finding>) {
    forall i :: 0 <= i < |findings| ==> findings[i].ordinal == i + 1
  }

  /** A succeeded run has one report and findings 1..n; any other run has neither. */
  ghost predicate RunOk(s: Store, run: RunId)
    requires run in s.runs
  {
    if s.runs[run].status == Succeeded then run in s.reports && FindingsCount(FindingsOf(s, run))
    else run !in s.reports && run !in s.findings
  }

  ghost predicate RunsOk(s: Store) {
    && KeysUnique(s)
    && (forall run :: run in s.runs ==> RunOk(s, run))
    && s.findings.Keys <= s.runs.Keys && s.reports.Keys <= s.runs.Keys
  }

  /** Every analyzer at work is on a running run, and no two on the same. */
  ghost predicate ActiveOk(w: World) {
    && (forall c :: c in w.active ==> w.active[c].run in w.store.runs && w.store.runs[w.active[c].run].status == Running)
    && (forall c, d :: c in w.active && d in w.active && w.active[c].run == w.active[d].run ==> c == d)
  }

  ghost predicate Inv(w: World) { RunsOk(w.store) && ActiveOk(w) }

  lemma RestartKeeps(s: Store, run: RunId)
    requires RunsOk(s) && run in s.runs && s.runs[run].status == Failed
    ensures RunsOk(RestartRun(s, run))
  {
    var s' := RestartRun(s, run);
    forall other | other in s'.runs
      ensures RunOk(s', other)
    {
      assert RunOk(s, other);
    }
  }

  lemma CreateKeeps(s: Store, run: RunId, key: string)
    requires RunsOk(s) && run !in s.runs && run !in s.findings && run !in s.reports
    ensures RunsOk(CreateRun(s, run, key))
  {
    var s' := CreateRun(s, run, key);
    forall other | other in s'.runs
      ensures RunOk(s', other)
    {
      assert other != run ==> RunOk(s, other);
    }
  }

  lemma CallKeeps(w: World, act: Act)
    requires Inv(w) && Enabled(w, act) && act.Call? && !act.restart
    ensures Inv(Next(w, act))
  {
    var found := RunFor(w.store, act.key);
    if found.None? {
      CreateKeeps(w.store, act.newRun, act.key);
    } else if w.store.runs[found.value].status == Failed {
      RestartKeeps(w.store, found.value);
    }
  }

  /** Without restarts a result always finds its run empty-handed, so storing it never clashes. */
  lemma FinishNeverClashes(w: World, caller: Caller, a: Analysis)
    requires Inv(w) && caller in w.active
    ensures Complete(w.store, w.active[caller].run, a).Some?
  {
    assert RunOk(w.store, w.active[caller].run);
  }

  lemma FinishKeeps(w: World, caller: Caller, a: Analysis)
    requires Inv(w) && Enabled(w, Finish(caller, a))
    ensures Inv(Next(w, Finish(caller, a)))
  {
    FinishNeverClashes(w, caller, a);
    var run, s' := w.active[caller].run, Next(w, Finish(caller, a)).store;
    assert RunOk(w.store, run);
    assert FindingsOf(s', run) == Numbered(a.findings);
    forall other | other in s'.runs
      ensures RunOk(s', other)
    {
      assert RunOk(w.store, other);
    }
  }

  lemma FailKeeps(w: World, caller: Caller)
    requires Inv(w) && Enabled(w, Fail(caller))
    ensures Inv(Next(w, Fail(caller)))
  {
    var s' := Next(w, Fail(caller)).store;
    forall other | other in s'.runs
      ensures RunOk(s', other)
    {
      assert RunOk(w.store, other);
    }
  }

  lemma StepKeeps(w: World, act: Act)
    requires Inv(w) && (act.Call? ==> !act.restart)
    ensures Inv(Next(w, act))
  {
    if Enabled(w, act) {
      match act
      case Call(_, _, _, _) => CallKeeps(w, act);
      case Finish(caller, a) => FinishKeeps(w, caller, a);
      case Raise(_) =>
      case Fail(caller) => FailKeeps(w, caller);
      case Crash(_) =>
    }
  }

  lemma {:induction false} RunKeeps(w: World, acts: seq<Act>)
    requires Inv(w) && NoRestart(acts)
    ensures Inv(Run(w, acts))
    decreases |acts|
  {
    if acts == [] {
    } else {
      StepKeeps(w, acts[0]);
      RunKeeps(Next(w, acts[0]), acts[1..]);
    }
  }

  // ---------------------------------------------------------------- what Coach promises

  /** One run for a key, one analyzer on it, and a report exactly when it succeeded, in every reachable state. */
  lemma OneRunOneAnalyzer(acts: seq<Act>, c: Caller, d: Caller, a: RunId, b: RunId)
    requires NoRestart(acts)
    ensures var w := Run(START, acts);
            && (a in w.store.runs && b in w.store.runs && w.store.runs[a].key == w.store.runs[b].key ==> a == b)
            && (c in w.active && d in w.active && w.active[c].run == w.active[d].run ==> c == d)
            && (a in w.store.runs ==> (a in w.store.reports <==> w.store.runs[a].status == Succeeded))
            && (a in w.store.findings ==> a in w.store.reports && FindingsCount(w.store.findings[a]))
  {
    RunKeeps(START, acts);
    var w := Run(START, acts);
    if a in w.store.runs {
      assert RunOk(w.store, a);
    }
  }

  ghost predicate Done(s: Store, run: RunId, row: RunRow, findings: seq<Finding>, report: Report) {
    && run in s.runs && s.runs[run] == row && row.status == Succeeded
    && FindingsOf(s, run) == findings && run in s.reports && s.reports[run] == report
  }

  /** No caller is at work on the run, or about to record a failure of it. */
  ghost predicate NobodyOn(w: World, run: RunId) { forall c :: c in w.active ==> w.active[c].run != run }

  lemma DoneStep(w: World, act: Act, run: RunId, row: RunRow, findings: seq<Finding>, report: Report)
    requires KeysUnique(w.store) && NobodyOn(w, run) && Done(w.store, run, row, findings, report)
    ensures var w' := Next(w, act);
            KeysUnique(w'.store) && NobodyOn(w', run) && Done(w'.store, run, row, findings, report)
  {
    if Enabled(w, act) {
      match act
      case Call(_, key, newRun, restart) => DoneCall(w, act, run, row, findings, report);
      case _ =>
    }
  }

  /** A call with the key of a succeeded run is answered; any other call is about another run. */
  lemma DoneCall(w: World, act: Act, run: RunId, row: RunRow, findings: seq<Finding>, report: Report)
    requires KeysUnique(w.store) && NobodyOn(w, run) && Done(w.store, run, row, findings, report)
    requires Enabled(w, act) && act.Call?
    ensures var w' := Next(w, act);
            KeysUnique(w'.store) && NobodyOn(w', run) && Done(w'.store, run, row, findings, report)
  {
    var found := RunFor(w.store, act.key);
    assert found == Some(run) ==> Next(w, act) == w;
  }

  /** A success that nobody is at work on any more is final: it keeps its report and its findings, restarts or not. */
  lemma {:induction false} SuccessIsFinal(w: World, acts: seq<Act>, run: RunId, row: RunRow, findings: seq<Finding>,
                                          report: Report)
    requires KeysUnique(w.store) && NobodyOn(w, run) && Done(w.store, run, row, findings, report)
    ensures var w' := Run(w, acts);
            KeysUnique(w'.store) && NobodyOn(w', run) && Done(w'.store, run, row, findings, report)
    decreases |acts|
  {
    if acts == [] {
    } else {
      DoneStep(w, acts[0], run, row, findings, report);
      SuccessIsFinal(Next(w, acts[0]), acts[1..], run, row, findings, report);
    }
  }

  ghost predicate HasSucceeded(s: Store, run: RunId) { run in s.runs && s.runs[run].status == Succeeded }

  /** A caller left on a succeeded run can take the success back. */
  lemma SuccessCanBeLost(w: World, c: Caller, run: RunId)
    requires c in w.active && w.active[c].run == run && run in w.store.runs
    ensures exists acts :: !HasSucceeded(Run(w, acts).store, run)
  {
    if w.active[c].phase == Failing {
      RunOne(w, Fail(c));
      assert !HasSucceeded(Run(w, [Fail(c)]).store, run);
    } else {
      var w1 := Next(w, Raise(c));
      RunOne(w1, Fail(c));
      assert [Raise(c), Fail(c)][1..] == [Fail(c)];
      assert !HasSucceeded(Run(w, [Raise(c), Fail(c)]).store, run);
    }
  }

  lemma RunOne(w: World, act: Act)
    ensures Run(w, [act]) == Next(w, act)
  {
    assert [act][1..] == [];
  }

  /**
   Exactly when success is final, restarts included: whatever anyone does from here on, the
   run stays succeeded, if and only if no caller is still at work on it.
   */
  lemma SuccessIsFinalExactly(w: World, run: RunId)
    requires KeysUnique(w.store) && HasSucceeded(w.store, run) && run in w.store.reports
    ensures (forall acts :: HasSucceeded(Run(w, acts).store, run)) <==> forall c :: c in w.active ==> w.active[c].run != run
  {
    if NobodyOn(w, run) {
      forall acts
        ensures HasSucceeded(Run(w, acts).store, run)
      {
        SuccessIsFinal(w, acts, run, w.store.runs[run], FindingsOf(w.store, run), w.store.reports[run]);
      }
    } else {
      var c :| c in w.active && w.active[c].run == run;
      SuccessCanBeLost(w, c, run);
    }
  }

  /** What holds with restarts too: one run a key, and a report for every success. */
  ghost predicate Reported(s: Store) {
    KeysUnique(s) && forall run :: HasSucceeded(s, run) ==> run in s.reports
  }

  lemma ReportedStep(w: World, act: Act)
    requires Reported(w.store)
    ensures Reported(Next(w, act).store)
  {
    if Enabled(w, act) {
      match act
      case Call(_, key, newRun, restart) =>
        var s' := Next(w, act).store;
        forall run | HasSucceeded(s', run)
          ensures run in s'.reports
        {
          assert HasSucceeded(w.store, run);
        }
      case Finish(caller, analysis) =>
        forall run | HasSucceeded(Next(w, act).store, run) && run != w.active[caller].run
          ensures HasSucceeded(w.store, run)
        {
        }
      case Fail(caller) =>
        forall run | HasSucceeded(Next(w, act).store, run)
          ensures HasSucceeded(w.store, run)
        {
        }
      case _ =>
    }
  }

  /** In every reachable state, restarts included, no key has two runs and no success lacks its report. */
  lemma {:induction false} AlwaysReported(w: World, acts: seq<Act>)
    requires Reported(w.store)
    ensures Reported(Run(w, acts).store)
    decreases |acts|
  {
    if acts == [] {
    } else {
      ReportedStep(w, acts[0]);
      AlwaysReported(Next(w, acts[0]), acts[1..]);
    }
  }

  /** Without restarts nobody is ever at work on a succeeded run, so there every success is final. */
  lemma SucceededIsUnattended(acts: seq<Act>, run: RunId)
    requires NoRestart(acts) && HasSucceeded(Run(START, acts).store, run)
    ensures NobodyOn(Run(START, acts), run) && KeysUnique(Run(START, acts).store) && run in Run(START, acts).store.reports
  {
    RunKeeps(START, acts);
    assert RunOk(Run(START, acts).store, run);
  }

  /** Every later call with the key answers with that report and starts no analyzer, even one that asks for a restart. */
  lemma LaterCallsAreCached(w: World, acts: seq<Act>, run: RunId, newRun: RunId, restart: bool)
    requires KeysUnique(w.store) && NobodyOn(w, run) && HasSucceeded(w.store, run) && run in w.store.reports
    ensures var s := Run(w, acts).store;
            Begin(s, w.store.runs[run].key, newRun, restart)
            == (s, Cached(run, w.store.reports[run], |FindingsOf(w.store, run)|))
  {
    var row := w.store.runs[run];
    SuccessIsFinal(w, acts, run, row, FindingsOf(w.store, run), w.store.reports[run]);
    assert KeyTaken(Run(w, acts).store, row.key);
  }

  /** The run has succeeded with this answer, and nothing is stored of other runs that was not there before. */
  ghost predicate Stores(s: Store, s': Store, run: RunId, a: Analysis) {
    && run in s.runs && s'.runs == s.runs[run := RunRow(s.runs[run].key, Succeeded)]
    && s'.reports == s.reports[run := Report(a.reportId, a.content)]
    && s'.findings.Keys == s.findings.Keys + (if a.findings == [] then {} else {run})
    && (forall other :: other in s.findings ==> s'.findings[other] == s.findings[other])
    && (a.findings != [] ==>
          && |s'.findings[run]| == |a.findings|
          && forall i :: 0 <= i < |a.findings| ==> s'.findings[run][i] == Finding(i + 1, a.findings[i]))
  }

  lemma CompleteStores(s: Store, run: RunId, a: Analysis)
    requires run in s.runs && run !in s.reports && run !in s.findings
    ensures Complete(s, run, a).Some? && Stores(s, Complete(s, run, a).value, run, a)
  {
  }

  /**
   What is stored is the analyzer's: without restarts its result always goes in, the report
   with its id and content, the findings with their texts in order under the ordinals from 1.
   */
  lemma StoredIsTheAnalyzers(acts: seq<Act>, caller: Caller, a: Analysis)
    requires NoRestart(acts) && caller in Run(START, acts).active && Run(START, acts).active[caller].phase == Analyzing
    ensures var w := Run(START, acts); var w' := Next(w, Finish(caller, a));
            && w'.active == w.active - {caller} && Stores(w.store, w'.store, w.active[caller].run, a)
            && w.active[caller].run !in w.store.findings
  {
    RunKeeps(START, acts);
    var w := Run(START, acts);
    assert RunOk(w.store, w.active[caller].run);
    CompleteStores(w.store, w.active[caller].run, a);
  }

  /** So every later call with the key, however many there are and whether they restart or not, is answered with it. */
  lemma AnswersAreTheAnalyzers(acts: seq<Act>, caller: Caller, a: Analysis, later: seq<Act>, newRun: RunId, restart: bool)
    requires NoRestart(acts) && caller in Run(START, acts).active && Run(START, acts).active[caller].phase == Analyzing
    ensures var w := Run(START, acts); var run, s := w.active[caller].run, Run(Next(w, Finish(caller, a)), later).store;
            && run in w.store.runs
            && Begin(s, w.store.runs[run].key, newRun, restart)
               == (s, Cached(run, Report(a.reportId, a.content), |a.findings|))
  {
    RunKeeps(START, acts);
    var w := Run(START, acts);
    StoredIsTheAnalyzers(acts, caller, a);
    StepKeeps(w, Finish(caller, a));
    LaterCallsAreCached(Next(w, Finish(caller, a)), later, w.active[caller].run, newRun, restart);
  }

  /**
   What a call comes to, by the one run that has its key, if any does: a new or failed run is
   analyzed from nothing, a running one is waited for unless it is to be restarted, and a
   succeeded one is answered from its report, which is never missing.
   */
  lemma CallAnswers(acts: seq<Act>, key: string, newRun: RunId, restart: bool, run: RunId)
    requires NoRestart(acts) && newRun !in Run(START, acts).store.runs
    ensures var s := Run(START, acts).store; var (s', begun) := Begin(s, key, newRun, restart);
            && ((forall r :: r in s.runs ==> s.runs[r].key != key) ==>
                  begun == Analyze(newRun) && s' == s.(runs := s.runs[newRun := RunRow(key, Running)]))
            && (run in s.runs && s.runs[run].key == key ==>
                  match s.runs[run].status
                  case Succeeded =>
                    && s' == s && begun.Cached? && begun.run == run && run in s.reports && begun.report == s.reports[run]
                    && begun.findingCount == (if run in s.findings then |s.findings[run]| else 0)
                  case Running =>
                    if restart then begun == Analyze(run) && s' == s else begun == InProgress(run) && s' == s
                  case Failed => begun == Analyze(run) && s' == s.(runs := s.runs[run := RunRow(key, Running)]))
            && (begun == Analyze(run) && run in s'.runs ==> run !in s'.findings && run !in s'.reports)
  {
    RunKeeps(START, acts);
    var s := Run(START, acts).store;
    assert newRun !in s.findings && newRun !in s.reports;
    if run in s.runs {
      assert RunOk(s, run);
      if s.runs[run].key == key {
        assert RunFor(s, key) == Some(run);
        assert run !in s.reports ==> s.reports - {run} == s.reports;
        assert run !in s.findings ==> s.findings - {run} == s.findings;
        assert s.runs[run].status == Running ==> s.runs[run := RunRow(key, Running)] == s.runs;
      }
    }
  }

  /**
   Whatever happened before, restarts and overtaken analyzers included: a call that analyzes
   finds its run running with nothing stored for it, every other run as it was, and if nobody
   comes in between its result is stored.
   */
  lemma AnalyzesFromNothing(s: Store, key: string, newRun: RunId, restart: bool, a: Analysis)
    requires newRun !in s.runs && newRun !in s.findings && newRun !in s.reports
    ensures var (s', begun) := Begin(s, key, newRun, restart);
            begun.Analyze? ==>
              && begun.run in s'.runs && s'.runs[begun.run] == RunRow(key, Running)
              && begun.run !in s'.findings && begun.run !in s'.reports
              && s'.runs.Keys == s.runs.Keys + {begun.run} && (forall r :: r in s.runs && r != begun.run ==> s'.runs[r] == s.runs[r])
              && s'.findings == s.findings - {begun.run} && s'.reports == s.reports - {begun.run}
              && Complete(s', begun.run, a).Some? && Stores(s', Complete(s', begun.run, a).value, begun.run, a)
  {
    var (s', begun) := Begin(s, key, newRun, restart);
    if begun.Analyze? {
      if RunFor(s, key).None? {
        assert s.findings - {newRun} == s.findings && s.reports - {newRun} == s.reports;
      }
      CompleteStores(s', begun.run, a);
    }
  }

  ghost predicate Abandoned(w: World, run: RunId) {
    run in w.store.runs && w.store.runs[run].status == Running && forall c :: c in w.active ==> w.active[c].run != run
  }

  lemma AbandonedStep(w: World, act: Act, run: RunId)
    requires Inv(w) && Abandoned(w, run) && (act.Call? ==> !act.restart)
    ensures Abandoned(Next(w, act), run) && Next(w, act).store.runs[run] == w.store.runs[run]
  {
    if Enabled(w, act) && act.Call? {
      var found := RunFor(w.store, act.key);
      assert found.Some? && found.value == run ==> Next(w, act) == w;
    }
  }

  /** A run whose analyzer crashed stays running for good: without a restart no later call gets past it. */
  lemma {:induction false} CrashedRunStaysRunning(w: World, acts: seq<Act>, run: RunId, newRun: RunId)
    requires Inv(w) && Abandoned(w, run) && NoRestart(acts)
    ensures Inv(Run(w, acts)) && Abandoned(Run(w, acts), run) && Run(w, acts).store.runs[run] == w.store.runs[run]
    ensures var s := Run(w, acts).store;
            Begin(s, w.store.runs[run].key, newRun, false) == (s, InProgress(run))
    decreases |acts|
  {
    if acts != [] {
      StepKeeps(w, acts[0]);
      AbandonedStep(w, acts[0], run);
      CrashedRunStaysRunning(Next(w, acts[0]), acts[1..], run, newRun);
    } else {
      assert KeyTaken(w.store, w.store.runs[run].key);
    }
  }

  /** Exactly what revives an abandoned run: a call with its key that asks for a restart. */
  lemma OnlyARestartRevives(w: World, act: Act, run: RunId)
    requires Inv(w) && Abandoned(w, run) && Enabled(w, act)
    ensures Abandoned(Next(w, act), run) <==> !(act.Call? && act.key == w.store.runs[run].key && act.restart)
  {
    assert KeyTaken(w.store, w.store.runs[run].key);
    if act.Call? {
      var found := RunFor(w.store, act.key);
      assert found == Some(run) <==> act.key == w.store.runs[run].key;
      if act.key == w.store.runs[run].key && act.restart {
        assert Next(w, act).active[act.caller].run == run;
      }
    }
  }

  // ---------------------------------------------------------------- with restarts

  /**
   A call that restarts a running run does not stop the analyzer at work on it. If the second
   one finishes first, the first one's result clashes with its report, and the failure that is
   then recorded takes the success back.
   */
  lemma RestartOvertakes(w: World, key: string, slow: Caller, quick: Caller, run: RunId, newRun: RunId,
                         a: Analysis, b: Analysis)
    requires Inv(w) && run in w.store.runs && w.store.runs[run].key == key && slow != quick
    requires w.active == map[slow := Active(run, Analyzing)]
    requires newRun !in w.store.runs
    ensures var w1 := Next(w, Call(quick, key, newRun, true));
            var w2 := Next(w1, Finish(quick, b));
            var w3 := Next(w2, Finish(slow, a));
            var w4 := Next(w3, Fail(slow));
            && quick in w1.active && slow in w1.active && w1.active[quick] == w1.active[slow] == Active(run, Analyzing)
            && run in w2.store.runs && w2.store.runs[run].status == Succeeded && run in w2.store.reports
            && run in w4.store.runs && w4.store.runs[run].status == Failed && run in w4.store.reports
  {
    assert KeyTaken(w.store, key);
    assert RunFor(w.store, key) == Some(run);
    assert RunOk(w.store, run);
    assert newRun !in w.store.findings.Keys && newRun !in w.store.reports.Keys;
    assert slow in w.active && w.store.runs[w.active[slow].run].status == Running;
    var w1 := Next(w, Call(quick, key, newRun, true));
    assert Begin(w.store, key, newRun, true) == (RestartRun(w.store, run), Analyze(run));
    assert w1 == World(RestartRun(w.store, run), w.active[quick := Active(run, Analyzing)]);
    assert FindingsOf(w1.store, run) == [];
    var w2 := Next(w1, Finish(quick, b));
    assert run in w2.store.reports;
    var w3 := Next(w2, Finish(slow, a));
    assert w3.active[slow].phase == Failing && w3.store == w2.store;
  }
}
