/**
 The rating tables as objects updated in place, the service over them, and the promise of a
 refresh: whether it rebuilt or took the shortcut, what is published is the fold from scratch.
 */
module RatingServices {
  import opened Wrappers
  import opened Digests
  import opened RatingPolicies
  import opened RatingBuilds
  import opened RatingStores
  import opened RatingRaces
  import E = Elo

  /** What a service is configured with; `isSpace` is what `str.strip` removes. */
  datatype Config = Config(policy: Policy, params: E.Params, sha: string -> string, isSpace: char -> bool,
                           inputBatchSize: nat, historyBatchSize: nat)

  ghost predicate ValidConfig(c: Config) {
    c.params.k > 0.0 && (forall x :: c.params.pow10(x) > 0.0) && c.inputBatchSize > 0 && c.historyBatchSize > 0
  }

  function RecipeOf(c: Config): Recipe { RecipeFor(c.policy, c.params.start, c.params.k) }

  // ---------------------------------------------------------------- what the operations do to the tables

  /** What other processes commit in the gaps between the transactions of one refresh. */
  datatype Others = Others(beforeBuild: seq<Step>, beforeSnapshot: seq<Step>, beforeFinish: seq<Step>, beforePublish: seq<Step>)

  const NOBODY := Others([], [], [], [])

  function PreviewOf(c: Config, source: seq<Candidate>): Result<Preview, BuildError> {
    var rows := Eligible(c.policy, source);
    if rows.Err? then Err(rows.error)
    else Ok(Preview(|rows.value|, c.sha(Stream(rows.value)), Exclusions(c.policy, source)))
  }

  /** `_record_failure`: an update of no row when the run is gone, then the pruning. */
  function RecordFailure(s: Store, id: RunId): Store { if id in s.runs then MarkFailed(s, id) else Prune(s) }

  /** `build`: three transactions, others in between. Rows of a run that is gone are refused by their foreign key. */
  ghost function Build(x: Setting, c: Config, s: Store, id: RunId, source: seq<Candidate>, o: Others)
    : (Store, Result<Preview, BuildError>)
    requires ValidSetting(x) && forall y :: c.params.pow10(y) > 0.0
  {
    var s1 := Run(x, CreateRun(s, id, RecipeOf(c)), o.beforeSnapshot);
    var preview := PreviewOf(c, source);
    if preview.Err? then (RecordFailure(s1, id), Err(preview.error))
    else if id !in s1.runs then (RecordFailure(s1, id), Err(RunMissing))
    else
      var s2 := Run(x, FinishSnapshot(s1, id, Eligible(c.policy, source).value, preview.value), o.beforeFinish);
      if id !in s2.runs || id !in s2.inputs then (RecordFailure(s2, id), Err(RunMissing))
      else
        var built := CalculateAndValidate(c.params, s2.inputs[id], preview.value.included);
        if built.Err? then (RecordFailure(s2, id), Err(built.error))
        else (FinishCalculation(s2, id, built.value), Ok(preview.value))
  }

  predicate Blank(c: Config, name: string) { forall i :: 0 <= i < |name| ==> c.isSpace(name[i]) }

  function PublishChecked(c: Config, s: Store, name: string, id: RunId): (Store, Result<RunId, BuildError>) {
    if Blank(c, name) then (s, Err(EmptyName))
    else if id !in s.runs then (s, Err(RunMissing))
    else if s.runs[id].status != RunStatus.Validated && s.runs[id].status != Published then (s, Err(WrongStatus))
    else (Publish(s, name, id), Ok(id))
  }

  datatype Refreshed = Rebuilt(run: RunId) | Kept(run: RunId)

  /**
   `build_and_publish_if_changed`, from the moment it reads the publication: the source as
   previewed, the source as snapshotted, and what others do in every gap.
   */
  ghost function Refresh(x: Setting, c: Config, s: Store, name: string, id: RunId, seen: seq<Candidate>,
                         source: seq<Candidate>, o: Others): (Store, Result<Refreshed, BuildError>)
    requires ValidSetting(x) && forall y :: c.params.pow10(y) > 0.0
  {
    var preview := PreviewOf(c, seen);
    if preview.Err? then (s, Err(preview.error))
    else if Unchanged(s, name, RecipeOf(c), preview.value) then
      (Prune(Run(x, s, o.beforeBuild)), Ok(Kept(s.publications[name].run)))
    else
      var (s1, built) := Build(x, c, Run(x, s, o.beforeBuild), id, source, o);
      if built.Err? then (s1, Err(built.error))
      else
        var (s2, published) := PublishChecked(c, Run(x, s1, o.beforePublish), name, id);
        (s2, if published.Err? then Err(published.error) else Ok(Rebuilt(id)))
  }

  // ---------------------------------------------------------------- in place

  class RatingRepository {
    var runs: map<RunId, RunRow>
    var inputs: map<RunId, seq<RunInput>>
    var history: map<RunId, seq<StoredRow>>
    var current: map<RunId, E.Players>
    var publications: map<string, Publication>

    ghost function St(): Store
      reads this
    {
      Store(runs, inputs, history, current, publications)
    }

    method Create(id: RunId, recipe: Recipe)
      modifies this
      ensures St() == CreateRun(old(St()), id, recipe)
    {
      runs := runs[id := RunRow(recipe, Building, None, None)];
    }

    method StoreSnapshot(id: RunId, rows: seq<RunInput>, preview: Preview)
      requires id in runs
      modifies this
      ensures St() == FinishSnapshot(old(St()), id, rows, preview)
    {
      inputs := inputs[id := rows];
      runs := runs[id := runs[id].(preview := Some(preview))];
    }

    method StoreCalculation(id: RunId, c: Calculated)
      requires id in runs
      modifies this
      ensures St() == FinishCalculation(old(St()), id, c)
    {
      history := history[id := c.history];
      current := current[id := c.elo.players];
      runs := runs[id := runs[id].(status := RunStatus.Validated, playerCount := Some(|c.elo.players|))];
    }

    method RetainedRunIds() returns (retained: set<RunId>)
      ensures retained == Retained(St())
    {
      retained := {};
      var names := publications.Keys;
      while names != {}
        invariant names <= publications.Keys
        invariant forall r :: r in retained <==> exists n :: n in publications && n !in names && Points(publications[n], r)
        decreases |names|
      {
        var name :| name in names;
        names := names - {name};
        retained := retained + {publications[name].run};
        if publications[name].previous.Some? {
          retained := retained + {publications[name].previous.value};
        }
      }
      forall r
        ensures r in retained <==> r in Retained(St())
      {
        RetainedMeansPointed(St(), r);
      }
    }

    /** Children first, then the runs; nothing to do when no run is doomed. */
    method PruneUnretainedRuns()
      modifies this
      ensures St() == Prune(old(St()))
    {
      var retained := RetainedRunIds();
      var doomed := set id | id in runs && runs[id].status != Building && id !in retained;
      assert doomed == Doomed(St());
      if doomed == {} {
        assert runs - doomed == runs && inputs - doomed == inputs && history - doomed == history && current - doomed == current;
        return;
      }
      history := history - doomed;
      current := current - doomed;
      inputs := inputs - doomed;
      runs := runs - doomed;
    }

    method Fail(id: RunId)
      modifies this
      ensures St() == RecordFailure(old(St()), id)
    {
      if id in runs {
        runs := runs[id := runs[id].(status := Failed)];
      }
      PruneUnretainedRuns();
    }

    /** Rotates the pointer, then marks the run. */
    method RotatePublication(name: string, id: RunId)
      requires id in runs
      modifies this
      ensures St() == Rotated(old(St()), name, id)
    {
      if name !in publications {
        publications := publications[name := Publication(id, None)];
      } else if publications[name].run != id {
        publications := publications[name := Publication(id, Some(publications[name].run))];
      }
      runs := runs[id := runs[id].(status := Published)];
    }

    /** One transaction of another process, if it is enabled. */
    method Perform(x: Setting, step: Step)
      requires ValidSetting(x)
      modifies this
      ensures St() == Next(x, old(St()), step)
    {
      match step {
        case Create(id, recipe) =>
          if id !in runs && id !in inputs && id !in history && id !in current && recipe.k > 0.0 {
            Create(id, recipe);
          }
        case TakeSnapshot(id, policy, source) =>
          if id in runs && runs[id].status == Building && runs[id].preview.None? {
            var preview, rows := Snapshot(policy, source, x.sha, 1);
            if preview.Ok? {
              StoreSnapshot(id, rows, preview.value);
            }
          }
        case Finish(id) =>
          if id in runs && runs[id].status == Building && runs[id].preview.Some? && id in inputs {
            var built := CalculateAndValidate(ParamsOf(x, runs[id].recipe), inputs[id], runs[id].preview.value.included);
            if built.Ok? {
              StoreCalculation(id, built.value);
            }
          }
        case Fail(id) =>
          if id in runs && runs[id].status == Building {
            Fail(id);
          }
        case PublishRun(name, id) =>
          if id in runs && (runs[id].status == RunStatus.Validated || runs[id].status == Published) {
            RotatePublication(name, id);
            PruneUnretainedRuns();
          }
        case PruneRuns =>
          PruneUnretainedRuns();
      }
    }

    method PerformAll(x: Setting, steps: seq<Step>)
      requires ValidSetting(x)
      modifies this
      ensures St() == Run(x, old(St()), steps)
    {
      for i := 0 to |steps|
        invariant Run(x, St(), steps[i..]) == Run(x, old(St()), steps)
      {
        assert steps[i..][0] == steps[i] && steps[i..][1..] == steps[i + 1..];
        Perform(x, steps[i]);
      }
      assert steps[|steps|..] == [];
    }
  }

  predicate Points(p: Publication, r: RunId) { p.run == r || p.previous == Some(r) }

  lemma RetainedMeansPointed(s: Store, r: RunId)
    ensures r in Retained(s) <==> exists n :: n in s.publications && Points(s.publications[n], r)
  {
    if n :| n in s.publications && Points(s.publications[n], r) {
      assert r == s.publications[n].run || s.publications[n].previous == Some(r);
    }
  }

  class RatingService {
    const config: Config
    const repository: RatingRepository

    /** Batch sizes and the factor are checked once, here. */
    constructor (config: Config, repository: RatingRepository)
      requires ValidConfig(config)
      ensures this.config == config && this.repository == repository
    {
      this.config, this.repository := config, repository;
    }

    method BuildRun(x: Setting, id: RunId, source: seq<Candidate>, o: Others) returns (r: Result<Preview, BuildError>)
      requires ValidSetting(x) && ValidConfig(config)
      modifies repository
      ensures (repository.St(), r) == Build(x, config, old(repository.St()), id, source, o)
    {
      repository.Create(id, RecipeOf(config));
      repository.PerformAll(x, o.beforeSnapshot);
      var preview, rows := Snapshot(config.policy, source, config.sha, config.inputBatchSize);
      if preview.Err? {
        repository.Fail(id);
        return Err(preview.error);
      }
      if id !in repository.runs {
        repository.Fail(id);
        return Err(RunMissing);
      }
      repository.StoreSnapshot(id, rows, preview.value);
      repository.PerformAll(x, o.beforeFinish);
      if id !in repository.runs || id !in repository.inputs {
        repository.Fail(id);
        return Err(RunMissing);
      }
      var built := CalculateRun(config.params, repository.inputs[id], preview.value.included, config.historyBatchSize);
      if built.Err? {
        repository.Fail(id);
        return Err(built.error);
      }
      repository.StoreCalculation(id, built.value);
      return Ok(preview.value);
    }

    method PublishRun(name: string, id: RunId) returns (r: Result<RunId, BuildError>)
      modifies repository
      ensures (repository.St(), r) == PublishChecked(config, old(repository.St()), name, id)
      ensures r == Err(EmptyName) <==> forall i :: 0 <= i < |name| ==> config.isSpace(name[i])
    {
      if Blank(config, name) {
        return Err(EmptyName);
      }
      if id !in repository.runs {
        return Err(RunMissing);
      }
      if repository.runs[id].status != RunStatus.Validated && repository.runs[id].status != Published {
        return Err(WrongStatus);
      }
      repository.RotatePublication(name, id);
      repository.PruneUnretainedRuns();
      return Ok(id);
    }

    method BuildAndPublishIfChanged(x: Setting, name: string, id: RunId, seen: seq<Candidate>, source: seq<Candidate>,
                                    o: Others)
      returns (r: Result<Refreshed, BuildError>)
      requires ValidSetting(x) && ValidConfig(config)
      modifies repository
      ensures (repository.St(), r) == Refresh(x, config, old(repository.St()), name, id, seen, source, o)
    {
      var preview := PreviewSource(config.policy, seen, config.sha);
      if preview.Err? {
        return Err(preview.error);
      }
      if name in repository.publications && repository.publications[name].run in repository.runs {
        var run := repository.publications[name].run;
        var row := repository.runs[run];
        if row.recipe == RecipeOf(config) && row.preview.Some?
           && row.preview.value.included == preview.value.included && row.preview.value.digest == preview.value.digest
        {
          repository.PerformAll(x, o.beforeBuild);
          repository.PruneUnretainedRuns();
          return Ok(Kept(run));
        }
      }
      repository.PerformAll(x, o.beforeBuild);
      var built := BuildRun(x, id, source, o);
      if built.Err? {
        return Err(built.error);
      }
      repository.PerformAll(x, o.beforePublish);
      var published := PublishRun(name, id);
      if published.Err? {
        return Err(published.error);
      }
      return Ok(Rebuilt(id));
    }
  }

  // ---------------------------------------------------------------- what a refresh promises

  ghost predicate Fits(x: Setting, c: Config) {
    ValidSetting(x) && ValidConfig(c) && c.sha == x.sha && c.params.pow10 == x.pow10
  }

  /** The others leave the run of this refresh to it, and take fresh ids for their own runs. */
  ghost predicate LeaveAlone(s: Store, o: Others, id: RunId) {
    && Unused(s, id)
    && Foreign(o.beforeBuild, id) && Foreign(o.beforeSnapshot, id) && Foreign(o.beforeFinish, id) && Foreign(o.beforePublish, id)
    && forall i :: 0 <= i < |o.beforeBuild| ==> o.beforeBuild[i].Create? ==> o.beforeBuild[i].id !in s.runs
  }

  /** The service's build is the steps of the store's protocol, and none of its checks fails, whatever others do. */
  lemma BuildIsThreeSteps(x: Setting, c: Config, s: Store, id: RunId, source: seq<Candidate>, o: Others)
    requires Fits(x, c) && Unused(s, id) && Foreign(o.beforeSnapshot, id) && Foreign(o.beforeFinish, id)
    ensures PreviewOf(c, source).Ok? && Build(x, c, s, id, source, o).1 == PreviewOf(c, source)
    ensures Build(x, c, s, id, source, o).0
         == Run(x, s, BuildAmongSteps(id, RecipeOf(c), c.policy, source, o.beforeSnapshot, o.beforeFinish))
  {
    var s1 := Next(x, s, Create(id, RecipeOf(c)));
    assert s1 == CreateRun(s, id, RecipeOf(c)) && s1.runs[id] == RunRow(RecipeOf(c), Building, None, None);
    BuildStages(x, s, id, RecipeOf(c), c.policy, source, o.beforeSnapshot, o.beforeFinish);
    BuildingStays(x, s1, o.beforeSnapshot, id);
    var s2 := Run(x, s1, o.beforeSnapshot);
    SnapshotAmong(x, s2, id, c.policy, source, o.beforeFinish);
    FinishAlike(x, c, s2, id, source, o.beforeFinish);
  }

  lemma FinishAlike(x: Setting, c: Config, s: Store, id: RunId, source: seq<Candidate>, b: seq<Step>)
    requires Fits(x, c) && id in s.runs && s.runs[id] == RunRow(RecipeOf(c), Building, None, None) && Foreign(b, id)
    requires PreviewOf(c, source).Ok?
    ensures var rows, preview := Eligible(c.policy, source).value, PreviewOf(c, source).value;
            && Next(x, s, TakeSnapshot(id, c.policy, source)) == FinishSnapshot(s, id, rows, preview)
            && var s' := Run(x, FinishSnapshot(s, id, rows, preview), b);
               && id in s'.runs && id in s'.inputs
               && var built := CalculateAndValidate(c.params, s'.inputs[id], preview.included);
                  built.Ok? && Next(x, s', Finish(id)) == FinishCalculation(s', id, built.value)
  {
    SnapshotAmong(x, s, id, c.policy, source, b);
    var rows := Eligible(c.policy, source).value;
    EligibleIsAccepted(c.policy, source);
    RecipeParams(x, RecipeOf(c));
    CalculateIsFold(c.params, rows);
    assert ParamsOf(x, RecipeOf(c)) == c.params;
  }

  lemma PruneRetains(s: Store)
    requires PointersOk(s)
    ensures var s' := Prune(s);
            forall r :: r in s'.runs && s'.runs[r].status != Building <==> r in Retained(s')
  {
    assert Retained(Prune(s)) == Retained(s);
    forall r | r in Retained(s)
      ensures r in s.runs && s.runs[r].status == Published
    {
      RetainedIsPublished(s, r);
    }
  }

  /** What the published name shows: ratings and history are the fold from scratch. */
  ghost predicate Shows(c: Config, s: Store, name: string, source: seq<Candidate>)
    requires forall x :: c.params.pow10(x) > 0.0
  {
    && name in s.publications && s.publications[name].run in s.current
    && s.current[s.publications[name].run] == FreshRatings(c.params, c.policy, source)
    && s.publications[name].run in s.history
    && s.history[s.publications[name].run] == FreshHistory(c.params, c.policy, source)
  }

  /** The store as the publication of a rebuilt run finds it. */
  ghost function Ready(x: Setting, c: Config, s: Store, id: RunId, source: seq<Candidate>, o: Others): Store
    requires ValidSetting(x) && forall y :: c.params.pow10(y) > 0.0
  {
    Run(x, Build(x, c, Run(x, s, o.beforeBuild), id, source, o).0, o.beforePublish)
  }

  /** The finished runs are exactly those some pointer names. */
  ghost predicate OnlyRetained(s: Store) {
    forall r :: r in s.runs && s.runs[r].status != Building <==> r in Retained(s)
  }

  /** What is kept is fresh for as long as the name points to it, and it does unless others publish under the name. */
  lemma KeptIsFresh(x: Setting, c: Config, s: Store, name: string, seen: seq<Candidate>, a: seq<Step>)
    requires Fits(x, c) && Inv(x, s) && PreviewOf(c, seen).Ok? && Unchanged(s, name, RecipeOf(c), PreviewOf(c, seen).value)
    requires forall i :: 0 <= i < |a| ==> a[i].Create? ==> a[i].id !in s.runs
    ensures var run, s' := s.publications[name].run, Prune(Run(x, s, a));
            && (name in s'.publications && s'.publications[name].run == run ==> Shows(c, s', name, seen))
            && (NeverPublishes(a, name) ==> name in s'.publications && s'.publications[name] == s.publications[name])
  {
    var run := s.publications[name].run;
    UnchangedMeansFresh(x, s, name, c.policy, seen, c.params.start, c.params.k);
    assert Publishable(s, run);
    FinishedStays(x, s, a, run);
    RunKeeps(x, s, a);
    PointedShows(x, Run(x, s, a), name);
    if NeverPublishes(a, name) {
      PointerStays(x, s, a, name);
    }
  }

  /** What a name points to is there, with ratings, and pruning leaves it alone. */
  lemma PointedShows(x: Setting, s: Store, name: string)
    requires Inv(x, s)
    ensures name in s.publications ==>
              var run := s.publications[name].run;
              && run in s.runs && run in s.current
              && run in Prune(s).runs && run in Prune(s).current && Prune(s).current[run] == s.current[run]
              && run in s.history && run in Prune(s).history && Prune(s).history[run] == s.history[run]
  {
    if name in s.publications {
      assert RunOk(x, s, s.publications[name].run);
      assert s.publications[name].run in Retained(s);
    }
  }

  /** A built run that is still there when it is published is what the name then shows. */
  lemma PublishedShows(x: Setting, c: Config, s: Store, name: string, id: RunId, source: seq<Candidate>)
    requires Fits(x, c) && Built(x, s, id, RecipeOf(c), c.policy, source)
    ensures var s' := Publish(s, name, id);
            Shows(c, s', name, source) && s'.publications[name].run == id
  {
    assert Rotated(s, name, id).publications[name].run == id;
    PointedIsKept(s, name, id, id);
  }

  /** A rebuild, up to its publication. */
  lemma ReadyOrDeleted(x: Setting, c: Config, s: Store, id: RunId, source: seq<Candidate>, o: Others)
    requires Fits(x, c) && Inv(x, s) && LeaveAlone(s, o, id)
    ensures var built, ready := Build(x, c, Run(x, s, o.beforeBuild), id, source, o), Ready(x, c, s, id, source, o);
            && built.1.Ok? && Inv(x, ready)
            && (id in ready.runs <==> Built(x, ready, id, RecipeOf(c), c.policy, source))
            && (id in ready.runs <==> !DeletedBy(x, built.0, o.beforePublish, id))
  {
    var s0 := Run(x, s, o.beforeBuild);
    UnusedStays(x, s, o.beforeBuild, id);
    BuildIsThreeSteps(x, c, s0, id, source, o);
    BuildsAmongOthers(x, s0, id, RecipeOf(c), c.policy, source, o.beforeSnapshot, o.beforeFinish);
    var steps := BuildAmongSteps(id, RecipeOf(c), c.policy, source, o.beforeSnapshot, o.beforeFinish);
    BuiltStays(x, Run(x, s0, steps), o.beforePublish, id, RecipeOf(c), c.policy, source);
    RunKeeps(x, s, o.beforeBuild);
    RunKeeps(x, s0, steps);
    RunKeeps(x, Run(x, s0, steps), o.beforePublish);
  }

  /**
   The end-to-end claim, with anything others do in the gaps of the refresh. It fails
   exactly when a build was needed and either the publication name is blank, or some other
   process pruned the run between its validation and its publication; then it says so and
   publishes nothing. Otherwise what the name shows is the fold from scratch over the source
   last read: after a rebuild always, after a kept publication for as long as the name
   points to it, and it does unless others publish under that very name. The finished runs
   are then exactly those some pointer names.
   */
  lemma RefreshIsFresh(x: Setting, c: Config, s: Store, name: string, id: RunId, seen: seq<Candidate>,
                       source: seq<Candidate>, o: Others)
    requires Fits(x, c) && Inv(x, s) && LeaveAlone(s, o, id)
    ensures PreviewOf(c, seen).Ok?
    ensures var (s', r) := Refresh(x, c, s, name, id, seen, source, o);
            var same := Unchanged(s, name, RecipeOf(c), PreviewOf(c, seen).value);
            var pruned := DeletedBy(x, Build(x, c, Run(x, s, o.beforeBuild), id, source, o).0, o.beforePublish, id);
            && Inv(x, s')
            && (r.Err? <==> !same && (Blank(c, name) || pruned))
            && (r.Err? ==> r.error == (if Blank(c, name) then EmptyName else RunMissing)
                           && s' == Ready(x, c, s, id, source, o))
            && (r.Ok? ==> OnlyRetained(s'))
            && (r.Ok? && !same ==> r.value == Rebuilt(id) && Shows(c, s', name, source) && s'.publications[name].run == id)
            && (r.Ok? && same ==>
                  && r.value == Kept(s.publications[name].run)
                  && (name in s'.publications && s'.publications[name].run == r.value.run ==> Shows(c, s', name, seen))
                  && (NeverPublishes(o.beforeBuild, name) ==> Shows(c, s', name, seen)))
  {
    EligibleIsAccepted(c.policy, seen);
    if Unchanged(s, name, RecipeOf(c), PreviewOf(c, seen).value) {
      KeptIsFresh(x, c, s, name, seen, o.beforeBuild);
      RunKeeps(x, s, o.beforeBuild);
      PruneKeeps(x, Run(x, s, o.beforeBuild));
      PruneRetains(Run(x, s, o.beforeBuild));
    } else {
      RebuildRefreshes(x, c, s, name, id, seen, source, o);
    }
  }

  lemma RebuildRefreshes(x: Setting, c: Config, s: Store, name: string, id: RunId, seen: seq<Candidate>,
                         source: seq<Candidate>, o: Others)
    requires Fits(x, c) && Inv(x, s) && LeaveAlone(s, o, id)
    requires PreviewOf(c, seen).Ok? && !Unchanged(s, name, RecipeOf(c), PreviewOf(c, seen).value)
    ensures var (s', r) := Refresh(x, c, s, name, id, seen, source, o);
            var pruned := DeletedBy(x, Build(x, c, Run(x, s, o.beforeBuild), id, source, o).0, o.beforePublish, id);
            && Inv(x, s')
            && (r.Err? <==> Blank(c, name) || pruned)
            && (r.Err? ==> r.error == (if Blank(c, name) then EmptyName else RunMissing)
                           && s' == Ready(x, c, s, id, source, o))
            && (r.Ok? ==> OnlyRetained(s') && r.value == Rebuilt(id) && Shows(c, s', name, source)
                          && s'.publications[name].run == id)
  {
    var ready := Ready(x, c, s, id, source, o);
    ReadyOrDeleted(x, c, s, id, source, o);
    if !Blank(c, name) && id in ready.runs {
      PublishedShows(x, c, ready, name, id, source);
      PublishKeeps(x, ready, name, id);
      PublishRetains(ready, name, id);
    }
  }

  /** The same from every state that builders, failures, publications, rollbacks and prunings can reach. */
  lemma RefreshIsFreshAfterAnyRun(x: Setting, c: Config, steps: seq<Step>, name: string, id: RunId,
                                  source: seq<Candidate>, o: Others)
    requires Fits(x, c) && LeaveAlone(Reached(x, steps), o, id) && NeverPublishes(o.beforeBuild, name)
    ensures var (s', r) := Refresh(x, c, Reached(x, steps), name, id, source, source, o);
            r.Ok? ==> Shows(c, s', name, source)
  {
    ReachedInv(x, steps);
    RefreshIsFresh(x, c, Reached(x, steps), name, id, source, source, o);
  }

  /** With nobody in between, a refresh fails only for a blank name that needs a build. */
  lemma RefreshAlone(x: Setting, c: Config, s: Store, name: string, id: RunId, source: seq<Candidate>)
    requires Fits(x, c) && Inv(x, s) && Unused(s, id)
    ensures var (s', r) := Refresh(x, c, s, name, id, source, source, NOBODY);
            && PreviewOf(c, source).Ok?
            && (r.Err? <==> Blank(c, name) && !Unchanged(s, name, RecipeOf(c), PreviewOf(c, source).value))
            && (r.Ok? ==> Shows(c, s', name, source))
  {
    RefreshIsFresh(x, c, s, name, id, source, source, NOBODY);
  }

  // ---------------------------------------------------------------- the shortcut is taken

  lemma NothingDoomed(s: Store)
    requires OnlyRetained(s)
    ensures Prune(s) == s
  {
    assert Doomed(s) == {};
    var s' := Prune(s);
    assert s'.runs == s.runs && s'.inputs == s.inputs && s'.history == s.history && s'.current == s.current;
  }

  /** What a rebuild published passes the test for an unchanged source. */
  lemma RebuiltIsUnchanged(x: Setting, c: Config, s: Store, name: string, id: RunId, source: seq<Candidate>)
    requires Fits(x, c) && PreviewOf(c, source).Ok? && Built(x, s, id, RecipeOf(c), c.policy, source)
    ensures Unchanged(Publish(s, name, id), name, RecipeOf(c), PreviewOf(c, source).value)
  {
    assert Rotated(s, name, id).publications[name].run == id;
    assert id in Retained(Rotated(s, name, id));
  }

  /** What is kept still passes it while the name points to it. */
  lemma KeptIsUnchanged(x: Setting, c: Config, s: Store, name: string, source: seq<Candidate>, a: seq<Step>)
    requires Fits(x, c) && Inv(x, s) && PreviewOf(c, source).Ok?
    requires Unchanged(s, name, RecipeOf(c), PreviewOf(c, source).value)
    requires forall i :: 0 <= i < |a| ==> a[i].Create? ==> a[i].id !in s.runs
    ensures var s' := Prune(Run(x, s, a));
            name in s'.publications && s'.publications[name].run == s.publications[name].run ==>
              Unchanged(s', name, RecipeOf(c), PreviewOf(c, source).value)
  {
    assert Publishable(s, s.publications[name].run);
    FinishedStays(x, s, a, s.publications[name].run);
    RunKeeps(x, s, a);
    PointedShows(x, Run(x, s, a), name);
  }

  /**
   The shortcut is taken: after a successful refresh whose run the name points to, a
   further refresh over the same source keeps it, builds nothing and changes nothing.
   */
  lemma SecondRefreshKeeps(x: Setting, c: Config, s: Store, name: string, id: RunId, next: RunId, source: seq<Candidate>,
                           o: Others)
    requires Fits(x, c) && Inv(x, s) && LeaveAlone(s, o, id)
    requires var (s', r) := Refresh(x, c, s, name, id, source, source, o);
             r.Ok? && name in s'.publications && s'.publications[name].run == r.value.run
    ensures var (s', r) := Refresh(x, c, s, name, id, source, source, o);
            Refresh(x, c, s', name, next, source, source, NOBODY) == (s', Ok(Kept(r.value.run)))
  {
    var (s', r) := Refresh(x, c, s, name, id, source, source, o);
    RefreshIsFresh(x, c, s, name, id, source, source, o);
    NothingDoomed(s');
    if Unchanged(s, name, RecipeOf(c), PreviewOf(c, source).value) {
      KeptIsUnchanged(x, c, s, name, source, o.beforeBuild);
    } else {
      ReadyOrDeleted(x, c, s, id, source, o);
      RebuiltIsUnchanged(x, c, Ready(x, c, s, id, source, o), name, id, source);
    }
    assert Run(x, s', NOBODY.beforeBuild) == s';
  }
}
