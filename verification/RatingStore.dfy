/**
 The rating tables, the transactions on them, and every interleaving of builds,
 failures, publications, rollbacks and prunings over any publication names.
 */
module RatingStores {
  import opened Wrappers
  import opened Digests
  import opened RatingPolicies
  import opened RatingBuilds
  import E = Elo

  type RunId = nat

  datatype RunStatus = Building | Validated | Published | Failed

  /** The recipe a service with this policy and these parameters writes into its runs. */
  function RecipeFor(policy: Policy, start: real, k: real): Recipe {
    Recipe(ALGORITHM, ALGORITHM_VERSION, Version(policy), start, k)
  }

  const ALGORITHM := "elo"
  const ALGORITHM_VERSION := "elo_v2_2player_only"

  /** What a run was built with. */
  datatype Recipe = Recipe(algorithm: string, version: string, policy: string, start: real, k: real)

  datatype RunRow = RunRow(
    recipe: Recipe,
    status: RunStatus,
    preview: Option<Preview>,
    playerCount: Option<nat>)

  datatype Publication = Publication(run: RunId, previous: Option<RunId>)

  /** A run with no rows in a child table has no entry there. */
  datatype Store = Store(
    runs: map<RunId, RunRow>,
    inputs: map<RunId, seq<RunInput>>,
    history: map<RunId, seq<StoredRow>>,
    current: map<RunId, E.Players>,
    publications: map<string, Publication>)

  // ---------------------------------------------------------------- transactions

  function CreateRun(s: Store, id: RunId, recipe: Recipe): Store {
    s.(runs := s.runs[id := RunRow(recipe, Building, None, None)])
  }

  function FinishSnapshot(s: Store, id: RunId, rows: seq<RunInput>, preview: Preview): Store
    requires id in s.runs
  {
    s.(inputs := s.inputs[id := rows], runs := s.runs[id := s.runs[id].(preview := Some(preview))])
  }

  function FinishCalculation(s: Store, id: RunId, c: Calculated): Store
    requires id in s.runs
  {
    s.(history := s.history[id := c.history], current := s.current[id := c.elo.players],
       runs := s.runs[id := s.runs[id].(status := RunStatus.Validated, playerCount := Some(|c.elo.players|))])
  }

  /** Every run a current or previous pointer protects. */
  function Retained(s: Store): set<RunId> {
    (set name | name in s.publications :: s.publications[name].run)
    + (set name | name in s.publications && s.publications[name].previous.Some? :: s.publications[name].previous.value)
  }

  function Doomed(s: Store): set<RunId> {
    set id | id in s.runs && s.runs[id].status != Building && id !in Retained(s)
  }

  function Prune(s: Store): Store {
    var doomed := Doomed(s);
    Store(s.runs - doomed, s.inputs - doomed, s.history - doomed, s.current - doomed, s.publications)
  }

  function MarkFailed(s: Store, id: RunId): Store
    requires id in s.runs
  {
    Prune(s.(runs := s.runs[id := s.runs[id].(status := Failed)]))
  }

  function Rotate(s: Store, name: string, id: RunId): map<string, Publication> {
    if name !in s.publications then s.publications[name := Publication(id, None)]
    else if s.publications[name].run == id then s.publications
    else s.publications[name := Publication(id, Some(s.publications[name].run))]
  }

  function Publishable(s: Store, id: RunId): bool {
    id in s.runs && (s.runs[id].status == RunStatus.Validated || s.runs[id].status == Published)
  }

  /** The store between the rotation of the pointer and the pruning in the same transaction. */
  function Rotated(s: Store, name: string, id: RunId): Store
    requires id in s.runs
  {
    s.(publications := Rotate(s, name, id), runs := s.runs[id := s.runs[id].(status := Published)])
  }

  function Publish(s: Store, name: string, id: RunId): Store
    requires Publishable(s, id)
  {
    Prune(Rotated(s, name, id))
  }

  // ---------------------------------------------------------------- the invariant

  /**
   `10^x`, the digest, and the ratings and history a recipe gives for inputs calculated from
   scratch. `rate` and `trace` are names for that calculation, so that the table reasoning
   need not look into it.
   */
  datatype Setting = Setting(pow10: real -> real, sha: string -> string, rate: (Recipe, seq<RunInput>) -> E.Players,
                             trace: (Recipe, seq<RunInput>) -> seq<StoredRow>)

  ghost predicate ValidSetting(x: Setting) {
    && Injective(x.sha)
    && E.ValidParams(E.Params(0.0, 1.0, x.pow10))
    && (forall recipe: Recipe, rows: seq<RunInput> ::
          x.rate(recipe, rows) == E.Fold(ParamsOf(x, recipe), AsRatingMatches(rows)).0.players)
    && (forall recipe: Recipe, rows: seq<RunInput> :: x.trace(recipe, rows) == NumberedFold(ParamsOf(x, recipe), rows))
  }

  function ParamsOf(x: Setting, recipe: Recipe): E.Params { E.Params(recipe.start, recipe.k, x.pow10) }

  function Get<V>(table: map<RunId, V>, id: RunId): Option<V> { if id in table then Some(table[id]) else None }

  /**
   One run and its child rows: the stored inputs are what the count and digest say, and
   a finished run holds exactly the ratings its recipe gives for them.
   */
  ghost predicate Good(x: Setting, row: RunRow, inputs: Option<seq<RunInput>>, history: Option<seq<StoredRow>>,
                       current: Option<E.Players>)
  {
    && row.recipe.k > 0.0
    && (row.preview.Some? <==> inputs.Some?)
    && (row.preview.Some? && inputs.Some? ==>
          && row.preview.value.included == |inputs.value|
          && row.preview.value.digest == x.sha(Stream(inputs.value))
          && WellNumbered(inputs.value))
    && (row.status == RunStatus.Validated || row.status == Published ==>
          && inputs.Some? && current.Some? && history.Some?
          && current.value == x.rate(row.recipe, inputs.value)
          && history.value == x.trace(row.recipe, inputs.value)
          && row.playerCount == Some(|current.value|))
  }

  ghost predicate RunOk(x: Setting, s: Store, id: RunId)
    requires id in s.runs
  {
    Good(x, s.runs[id], Get(s.inputs, id), Get(s.history, id), Get(s.current, id))
  }

  ghost predicate PointersOk(s: Store) {
    forall name :: name in s.publications ==>
      && s.publications[name].run in s.runs && s.runs[s.publications[name].run].status == Published
      && (s.publications[name].previous.Some? ==>
            s.publications[name].previous.value in s.runs && s.runs[s.publications[name].previous.value].status == Published)
  }

  /** No child row without its run. */
  ghost predicate NoOrphans(s: Store) {
    s.inputs.Keys <= s.runs.Keys && s.history.Keys <= s.runs.Keys && s.current.Keys <= s.runs.Keys
  }

  ghost predicate RunsOk(x: Setting, s: Store) {
    forall id :: id in s.runs ==> RunOk(x, s, id)
  }

  ghost predicate Inv(x: Setting, s: Store) {
    PointersOk(s) && NoOrphans(s) && RunsOk(x, s)
  }

  // ---------------------------------------------------------------- runs of the store

  /**
   Any number of builders and publishers. A builder's snapshot sees whatever the source
   is at that moment; ids are fresh. A step that is not enabled does nothing.
   */
  datatype Step =
    | Create(id: RunId, recipe: Recipe)
    | TakeSnapshot(id: RunId, policy: Policy, source: seq<Candidate>)
    | Finish(id: RunId)
    | Fail(id: RunId)
    | PublishRun(name: string, id: RunId)
    | PruneRuns

  const NO_RUNS := Store(map[], map[], map[], map[], map[])

  /** The build's own steps are guarded by where the build stands; `publish` by the stored status. */
  ghost predicate Enabled(s: Store, step: Step) {
    match step
    case Create(id, recipe) => id !in s.runs && id !in s.inputs && id !in s.history && id !in s.current && recipe.k > 0.0
    case TakeSnapshot(id, _, _) => id in s.runs && s.runs[id].status == Building && s.runs[id].preview.None?
    case Finish(id) => id in s.runs && s.runs[id].status == Building && s.runs[id].preview.Some? && id in s.inputs
    case Fail(id) => id in s.runs && s.runs[id].status == Building
    case PublishRun(_, id) => Publishable(s, id)
    case PruneRuns => true
  }

  ghost function Next(x: Setting, s: Store, step: Step): Store
    requires ValidSetting(x)
  {
    if !Enabled(s, step) then s
    else match step
      case Create(id, recipe) => CreateRun(s, id, recipe)
      case TakeSnapshot(id, policy, source) =>
        var rows := Eligible(policy, source);
        if rows.Err? then s
        else FinishSnapshot(s, id, rows.value,
                            Preview(|rows.value|, x.sha(Stream(rows.value)), Exclusions(policy, source)))
      case Finish(id) =>
        var built := CalculateAndValidate(ParamsOf(x, s.runs[id].recipe), s.inputs[id], s.runs[id].preview.value.included);
        if built.Err? then s else FinishCalculation(s, id, built.value)
      case Fail(id) => MarkFailed(s, id)
      case PublishRun(name, id) => Publish(s, name, id)
      case PruneRuns => Prune(s)
  }

  ghost function Run(x: Setting, s: Store, steps: seq<Step>): Store
    requires ValidSetting(x)
    decreases |steps|
  {
    if steps == [] then s else Run(x, Next(x, s, steps[0]), steps[1..])
  }

  lemma RecipeParams(x: Setting, recipe: Recipe)
    requires E.ValidParams(E.Params(0.0, 1.0, x.pow10)) && recipe.k > 0.0
    ensures E.ValidParams(ParamsOf(x, recipe))
  {
    assert forall y :: E.Params(0.0, 1.0, x.pow10).pow10(y) == x.pow10(y);
  }

  lemma PruneKeepsPointers(s: Store)
    requires PointersOk(s)
    ensures PointersOk(Prune(s))
  {
    forall name | name in s.publications
      ensures s.publications[name].run !in Doomed(s)
      ensures s.publications[name].previous.Some? ==> s.publications[name].previous.value !in Doomed(s)
    {
      assert s.publications[name].run in Retained(s);
    }
  }

  lemma PruneKeepsRuns(x: Setting, s: Store)
    requires RunsOk(x, s)
    ensures RunsOk(x, Prune(s))
  {
    var s' := Prune(s);
    forall id | id in s'.runs
      ensures RunOk(x, s', id)
    {
      assert RunOk(x, s, id);
    }
  }

  lemma PruneKeeps(x: Setting, s: Store)
    requires Inv(x, s)
    ensures Inv(x, Prune(s))
  {
    PruneKeepsPointers(s);
    PruneKeepsRuns(x, s);
  }

  /** Published runs stay published and the pointers do not move. */
  lemma PointersFrame(s: Store, s': Store)
    requires PointersOk(s) && s'.publications == s.publications
    requires forall id :: id in s.runs && s.runs[id].status == Published ==>
               id in s'.runs && s'.runs[id].status == Published
    ensures PointersOk(s')
  {
  }

  lemma InputsKeepRuns(x: Setting, s: Store, id: RunId, rows: seq<RunInput>, preview: Preview)
    requires RunsOk(x, s) && id in s.runs && s.runs[id].status == Building
    requires WellNumbered(rows) && preview.included == |rows| && preview.digest == x.sha(Stream(rows))
    ensures RunsOk(x, FinishSnapshot(s, id, rows, preview))
  {
    assert RunOk(x, s, id);
    forall other | other in s.runs && other != id
      ensures RunOk(x, FinishSnapshot(s, id, rows, preview), other)
    {
      assert RunOk(x, s, other);
    }
  }

  lemma InputsKeep(x: Setting, s: Store, id: RunId, rows: seq<RunInput>, preview: Preview)
    requires Inv(x, s) && id in s.runs && s.runs[id].status == Building
    requires WellNumbered(rows) && preview.included == |rows| && preview.digest == x.sha(Stream(rows))
    ensures Inv(x, FinishSnapshot(s, id, rows, preview))
  {
    InputsKeepRuns(x, s, id, rows, preview);
    PointersFrame(s, FinishSnapshot(s, id, rows, preview));
  }

  lemma SnapshotKeeps(x: Setting, s: Store, id: RunId, policy: Policy, source: seq<Candidate>)
    requires ValidSetting(x) && Inv(x, s) && Enabled(s, TakeSnapshot(id, policy, source))
    ensures Inv(x, Next(x, s, TakeSnapshot(id, policy, source)))
  {
    EligibleIsAccepted(policy, source);
    var rows := Eligible(policy, source).value;
    InputsKeep(x, s, id, rows, Preview(|rows|, x.sha(Stream(rows)), Exclusions(policy, source)));
  }

  /** The calculation of a snapshot never fails its own checks. */
  lemma FinishSucceeds(x: Setting, s: Store, id: RunId)
    requires ValidSetting(x) && Enabled(s, Finish(id)) && RunOk(x, s, id)
    ensures var p := ParamsOf(x, s.runs[id].recipe);
            var built := CalculateAndValidate(p, s.inputs[id], s.runs[id].preview.value.included);
            built.Ok? && built.value.elo.players == x.rate(s.runs[id].recipe, s.inputs[id])
            && built.value.history == x.trace(s.runs[id].recipe, s.inputs[id])
  {
    RecipeParams(x, s.runs[id].recipe);
    CalculateIsFold(ParamsOf(x, s.runs[id].recipe), s.inputs[id]);
    HistoryIsFold(ParamsOf(x, s.runs[id].recipe), s.inputs[id]);
  }

  lemma ResultGood(x: Setting, s: Store, id: RunId, c: Calculated)
    requires Enabled(s, Finish(id)) && RunOk(x, s, id)
    requires c.elo.players == x.rate(s.runs[id].recipe, s.inputs[id]) && c.history == x.trace(s.runs[id].recipe, s.inputs[id])
    ensures RunOk(x, FinishCalculation(s, id, c), id)
  {
  }

  lemma OtherGood(x: Setting, s: Store, s': Store, other: RunId)
    requires other in s.runs && RunOk(x, s, other) && other in s'.runs && s'.runs[other] == s.runs[other]
    requires Get(s'.inputs, other) == Get(s.inputs, other) && Get(s'.history, other) == Get(s.history, other)
    requires Get(s'.current, other) == Get(s.current, other)
    ensures RunOk(x, s', other)
  {
  }

  lemma ResultKeepsRuns(x: Setting, s: Store, id: RunId, c: Calculated)
    requires RunsOk(x, s) && Enabled(s, Finish(id))
    requires c.elo.players == x.rate(s.runs[id].recipe, s.inputs[id]) && c.history == x.trace(s.runs[id].recipe, s.inputs[id])
    ensures RunsOk(x, FinishCalculation(s, id, c))
  {
    var s' := FinishCalculation(s, id, c);
    ResultGood(x, s, id, c);
    forall other | other in s.runs && other != id
      ensures RunOk(x, s', other)
    {
      OtherGood(x, s, s', other);
    }
  }

  lemma ResultKeepsPointers(s: Store, id: RunId, c: Calculated)
    requires PointersOk(s) && NoOrphans(s) && Enabled(s, Finish(id))
    ensures PointersOk(FinishCalculation(s, id, c)) && NoOrphans(FinishCalculation(s, id, c))
  {
    PointersFrame(s, FinishCalculation(s, id, c));
  }

  lemma ResultKeeps(x: Setting, s: Store, id: RunId, c: Calculated)
    requires Inv(x, s) && Enabled(s, Finish(id))
    requires c.elo.players == x.rate(s.runs[id].recipe, s.inputs[id]) && c.history == x.trace(s.runs[id].recipe, s.inputs[id])
    ensures Inv(x, FinishCalculation(s, id, c))
  {
    ResultKeepsRuns(x, s, id, c);
    ResultKeepsPointers(s, id, c);
  }

  lemma FinishKeeps(x: Setting, s: Store, id: RunId)
    requires ValidSetting(x) && Inv(x, s) && Enabled(s, Finish(id))
    ensures Inv(x, Next(x, s, Finish(id)))
  {
    assert RunOk(x, s, id);
    FinishSucceeds(x, s, id);
    var p := ParamsOf(x, s.runs[id].recipe);
    ResultKeeps(x, s, id, CalculateAndValidate(p, s.inputs[id], s.runs[id].preview.value.included).value);
  }

  /** Changing one run's status to one that claims no new result. */
  lemma StatusKeepsRuns(x: Setting, s: Store, s': Store, id: RunId, status: RunStatus)
    requires RunsOk(x, s) && id in s.runs
    requires status == Failed || (status == Published && Publishable(s, id))
    requires s' == s.(publications := s'.publications, runs := s.runs[id := s.runs[id].(status := status)])
    ensures RunsOk(x, s')
  {
    assert RunOk(x, s, id);
    forall other | other in s.runs && other != id
      ensures RunOk(x, s', other)
    {
      assert RunOk(x, s, other);
    }
  }

  lemma FailKeeps(x: Setting, s: Store, id: RunId)
    requires Inv(x, s) && Enabled(s, Fail(id))
    ensures Inv(x, MarkFailed(s, id))
  {
    var s1 := s.(runs := s.runs[id := s.runs[id].(status := Failed)]);
    StatusKeepsRuns(x, s, s1, id, Failed);
    PointersFrame(s, s1);
    PruneKeeps(x, s1);
  }

  lemma RotateKeepsPointers(s: Store, name: string, id: RunId)
    requires PointersOk(s) && Publishable(s, id)
    ensures PointersOk(Rotated(s, name, id))
  {
  }

  lemma RotateKeeps(x: Setting, s: Store, name: string, id: RunId)
    requires Inv(x, s) && Publishable(s, id)
    ensures Inv(x, Rotated(s, name, id))
  {
    StatusKeepsRuns(x, s, Rotated(s, name, id), id, Published);
    RotateKeepsPointers(s, name, id);
  }

  lemma PublishKeeps(x: Setting, s: Store, name: string, id: RunId)
    requires Inv(x, s) && Publishable(s, id)
    ensures Inv(x, Publish(s, name, id))
  {
    RotateKeeps(x, s, name, id);
    PruneKeeps(x, Rotated(s, name, id));
  }

  lemma CreateKeepsRuns(x: Setting, s: Store, id: RunId, recipe: Recipe)
    requires RunsOk(x, s) && Enabled(s, Create(id, recipe))
    ensures RunsOk(x, CreateRun(s, id, recipe))
  {
    var s' := CreateRun(s, id, recipe);
    assert RunOk(x, s', id);
    forall other | other in s.runs
      ensures RunOk(x, s', other)
    {
      OtherGood(x, s, s', other);
    }
  }

  lemma CreateKeeps(x: Setting, s: Store, id: RunId, recipe: Recipe)
    requires Inv(x, s) && Enabled(s, Create(id, recipe))
    ensures Inv(x, CreateRun(s, id, recipe))
  {
    PointersFrame(s, CreateRun(s, id, recipe));
    CreateKeepsRuns(x, s, id, recipe);
  }

  lemma PointerMoveKeeps(x: Setting, s: Store, step: Step)
    requires ValidSetting(x) && Inv(x, s) && Enabled(s, step) && (step.Fail? || step.PublishRun? || step.PruneRuns?)
    ensures Inv(x, Next(x, s, step))
  {
    match step
    case Fail(id) =>
      FailKeeps(x, s, id);
    case PublishRun(name, id) =>
      PublishKeeps(x, s, name, id);
    case PruneRuns =>
      PruneKeeps(x, s);
  }

  lemma StepKeeps(x: Setting, s: Store, step: Step)
    requires ValidSetting(x) && Inv(x, s)
    ensures Inv(x, Next(x, s, step))
  {
    if Enabled(s, step) {
      match step
      case Create(id, recipe) =>
        CreateKeeps(x, s, id, recipe);
        assert Next(x, s, step) == CreateRun(s, id, recipe);
      case TakeSnapshot(id, policy, source) =>
        SnapshotKeeps(x, s, id, policy, source);
      case Finish(id) =>
        FinishKeeps(x, s, id);
      case _ =>
        PointerMoveKeeps(x, s, step);
    }
  }

  /** Pointers name existing published runs and no child row is orphaned, in every reachable state. */
  lemma {:induction false} RunKeeps(x: Setting, s: Store, steps: seq<Step>)
    requires ValidSetting(x) && Inv(x, s)
    ensures Inv(x, Run(x, s, steps))
    decreases |steps|
  {
    if steps == [] {
    } else {
      StepKeeps(x, s, steps[0]);
      RunKeeps(x, Next(x, s, steps[0]), steps[1..]);
    }
  }

  ghost function Reached(x: Setting, steps: seq<Step>): Store
    requires ValidSetting(x)
  {
    Run(x, NO_RUNS, steps)
  }

  lemma ReachedInv(x: Setting, steps: seq<Step>)
    requires ValidSetting(x)
    ensures Inv(x, Reached(x, steps))
  {
    RunKeeps(x, NO_RUNS, steps);
  }

  // ---------------------------------------------------------------- retention

  lemma RetainedIsPublished(s: Store, id: RunId)
    requires PointersOk(s) && id in Retained(s)
    ensures id in s.runs && s.runs[id].status == Published
  {
    if n :| n in s.publications && s.publications[n].run == id {
    } else {
      var n :| n in s.publications && s.publications[n].previous == Some(id);
    }
  }

  /** After a publication the finished runs are exactly those some pointer names; building runs are left alone. */
  lemma PublishRetains(s: Store, name: string, id: RunId)
    requires PointersOk(s) && Publishable(s, id)
    ensures var s' := Publish(s, name, id);
            && (forall r :: r in s'.runs && s'.runs[r].status != Building <==> r in Retained(s'))
            && (forall r :: r in s.runs && s.runs[r].status == Building ==> r in s'.runs && s'.runs[r] == s.runs[r])
  {
    var s1 := Rotated(s, name, id);
    RotateKeepsPointers(s, name, id);
    assert Retained(Publish(s, name, id)) == Retained(s1);
    forall r | r in Retained(s1)
      ensures r in s1.runs && s1.runs[r].status == Published
    {
      RetainedIsPublished(s1, r);
    }
    assert forall r :: r in Publish(s, name, id).runs <==> r in s1.runs && r !in Doomed(s1);
  }

  lemma PublishLeavesExactlyTheRetained(x: Setting, steps: seq<Step>, name: string, id: RunId)
    requires ValidSetting(x) && Publishable(Reached(x, steps), id)
    ensures var s := Reached(x, steps); var s' := Publish(s, name, id);
            && (forall r :: r in s'.runs && s'.runs[r].status != Building <==> r in Retained(s'))
            && (forall r :: r in s.runs && s.runs[r].status == Building ==> r in s'.runs && s'.runs[r] == s.runs[r])
  {
    ReachedInv(x, steps);
    PublishRetains(Reached(x, steps), name, id);
  }

  /** Publishing another run makes the replaced one the previous; publishing the current one moves nothing. */
  lemma RotationRemembersOne(s: Store, name: string, id: RunId)
    requires Publishable(s, id)
    ensures var after := Publish(s, name, id).publications;
            && after.Keys == s.publications.Keys + {name} && after[name].run == id
            && (name in s.publications && s.publications[name].run != id ==> after[name].previous == Some(s.publications[name].run))
            && (name in s.publications && s.publications[name].run == id ==> after[name] == s.publications[name])
            && (name !in s.publications ==> after[name].previous.None?)
            && (forall other :: other in s.publications && other != name ==> after[other] == s.publications[other])
  {
  }

  lemma BackAndAgain(s: Store, name: string)
    requires PointersOk(s) && name in s.publications
    requires var p := s.publications[name]; p.previous.Some? && p.previous.value != p.run && p.run in s.current
    ensures var p := s.publications[name];
            && Publishable(s, p.previous.value)
            && var back := Publish(s, name, p.previous.value);
               && back.publications[name] == Publication(p.previous.value, Some(p.run))
               && Publishable(back, p.run)
               && var again := Publish(back, name, p.run);
                  && again.publications == s.publications
                  && p.run in again.current && again.current[p.run] == s.current[p.run]
  {
    var p := s.publications[name];
    RotateKeepsPointers(s, name, p.previous.value);
    var back := Publish(s, name, p.previous.value);
    assert p.run in Retained(Rotated(s, name, p.previous.value)) by {
      assert Rotated(s, name, p.previous.value).publications[name].previous == Some(p.run);
    }
    PointedIsKept(s, name, p.previous.value, p.run);
    var again := Publish(back, name, p.run);
    assert p.run in Retained(Rotated(back, name, p.run)) by {
      assert Rotated(back, name, p.run).publications[name].run == p.run;
    }
    PointedIsKept(back, name, p.run, p.run);
    assert again.publications == s.publications;
  }

  /** A rollback is a publication of the previous run, and undoing it restores both pointers and the ratings. */
  lemma RollbackTwiceRestores(x: Setting, steps: seq<Step>, name: string)
    requires ValidSetting(x) && name in Reached(x, steps).publications
    requires var p := Reached(x, steps).publications[name]; p.previous.Some? && p.previous.value != p.run
    ensures var s := Reached(x, steps); var p := s.publications[name];
            && p.run in s.current && Publishable(s, p.previous.value)
            && var back := Publish(s, name, p.previous.value);
               && Publishable(back, p.run)
               && var again := Publish(back, name, p.run);
                  && again.publications == s.publications
                  && p.run in again.current && again.current[p.run] == s.current[p.run]
  {
    ReachedInv(x, steps);
    assert RunOk(x, Reached(x, steps), Reached(x, steps).publications[name].run);
    BackAndAgain(Reached(x, steps), name);
  }

  /** The ratings of a run that is pointed at after a publication are untouched by it. */
  lemma PointedIsKept(s: Store, name: string, id: RunId, r: RunId)
    requires Publishable(s, id) && r in Retained(Rotated(s, name, id)) && r in s.current
    ensures r in Publish(s, name, id).current && Publish(s, name, id).current[r] == s.current[r]
  {
  }

  /** The same row and the same child rows. */
  ghost predicate SameRun(s: Store, s': Store, id: RunId) {
    && id in s.runs && id in s'.runs && s'.runs[id] == s.runs[id]
    && Get(s'.inputs, id) == Get(s.inputs, id) && Get(s'.history, id) == Get(s.history, id)
    && Get(s'.current, id) == Get(s.current, id)
  }

  lemma PruneSpares(s: Store, id: RunId)
    requires NoOrphans(s)
    ensures id in s.runs && id !in Doomed(s) ==> SameRun(s, Prune(s), id)
    ensures id in Doomed(s) ==>
              id !in Prune(s).runs && id !in Prune(s).inputs && id !in Prune(s).history && id !in Prune(s).current
  {
  }

  /** A failure deletes the run with everything it holds; what a pointer names or is being built is left as it was. */
  lemma FailureLeavesNothing(x: Setting, steps: seq<Step>, id: RunId, other: RunId)
    requires ValidSetting(x)
    requires id in Reached(x, steps).runs && Reached(x, steps).runs[id].status == Building
    ensures var s, s' := Reached(x, steps), Next(x, Reached(x, steps), Fail(id));
            && id !in s'.runs && id !in s'.inputs && id !in s'.history && id !in s'.current
            && s'.publications == s.publications
            && (other != id && other in s.runs
                && (s.runs[other].status == Building
                    || exists n :: n in s.publications
                                   && (s.publications[n].run == other || s.publications[n].previous == Some(other))) ==>
                  SameRun(s, s', other))
  {
    ReachedInv(x, steps);
    FailedIsDeleted(Reached(x, steps), id, other);
  }

  lemma FailedIsDeleted(s: Store, id: RunId, other: RunId)
    requires PointersOk(s) && NoOrphans(s) && id in s.runs && s.runs[id].status == Building
    ensures var s' := MarkFailed(s, id);
            && id !in s'.runs && id !in s'.inputs && id !in s'.history && id !in s'.current
            && s'.publications == s.publications
            && (other != id && other in s.runs && (s.runs[other].status == Building || other in Retained(s)) ==>
                  SameRun(s, s', other))
  {
    var failed := s.(runs := s.runs[id := s.runs[id].(status := Failed)]);
    assert Retained(failed) == Retained(s);
    if id in Retained(s) {
      RetainedIsPublished(s, id);
    }
    assert id in Doomed(failed);
    PruneSpares(failed, id);
    PruneSpares(failed, other);
  }

  /** No step deletes a run that is being built, except failing that run itself. */
  lemma BuildingIsNeverDeleted(x: Setting, s: Store, step: Step, id: RunId)
    requires ValidSetting(x) && id in s.runs && s.runs[id].status == Building && step != Fail(id)
    ensures id in Next(x, s, step).runs
  {
  }

  /**
   A validated run that is not yet published is not protected: another publisher's
   pruning deletes it, and its own publication then finds no run. A run survives
   another publication exactly when it is still building or some pointer names it.
   */
  lemma ValidatedSurvivesExactlyIfPointed(s: Store, name: string, other: RunId, id: RunId)
    requires id in s.runs && id != other && Publishable(s, other)
    ensures id in Publish(s, name, other).runs
       <==> s.runs[id].status == Building || id in Retained(Rotated(s, name, other))
  {
  }

  /** The three transactions of an undisturbed build. */
  function BuildSteps(id: RunId, recipe: Recipe, policy: Policy, source: seq<Candidate>): seq<Step> {
    [Create(id, recipe), TakeSnapshot(id, policy, source), Finish(id)]
  }

  lemma SnapshotStored(x: Setting, s: Store, id: RunId, policy: Policy, source: seq<Candidate>)
    requires ValidSetting(x) && Enabled(s, TakeSnapshot(id, policy, source)) && RunOk(x, s, id)
    ensures var s' := Next(x, s, TakeSnapshot(id, policy, source));
            && Eligible(policy, source).Ok? && Enabled(s', Finish(id)) && RunOk(x, s', id)
            && s'.inputs[id] == Eligible(policy, source).value && s'.runs[id].recipe == s.runs[id].recipe
            && s'.publications == s.publications
            && s'.runs.Keys == s.runs.Keys && (forall r :: r in s.runs && r != id ==> s'.runs[r] == s.runs[r])
  {
    EligibleIsAccepted(policy, source);
  }

  lemma ResultStored(x: Setting, s: Store, id: RunId)
    requires ValidSetting(x) && Enabled(s, Finish(id)) && RunOk(x, s, id)
    ensures var s' := Next(x, s, Finish(id));
            && s'.runs.Keys == s.runs.Keys && s'.runs[id].status == RunStatus.Validated && s'.publications == s.publications
            && id in s'.current && s'.current[id] == x.rate(s.runs[id].recipe, s.inputs[id])
            && id in s'.history && s'.history[id] == x.trace(s.runs[id].recipe, s.inputs[id])
            && (forall r :: r in s.runs && r != id ==> s'.runs[r] == s.runs[r])
  {
    FinishSucceeds(x, s, id);
  }

  lemma SnapshotThenResult(x: Setting, s: Store, id: RunId, policy: Policy, source: seq<Candidate>)
    requires ValidSetting(x) && Enabled(s, TakeSnapshot(id, policy, source)) && RunOk(x, s, id)
    ensures Eligible(policy, source).Ok?
    ensures var s' := Next(x, Next(x, s, TakeSnapshot(id, policy, source)), Finish(id));
            && s'.runs.Keys == s.runs.Keys && s'.runs[id].status == RunStatus.Validated && s'.publications == s.publications
            && id in s'.current && s'.current[id] == x.rate(s.runs[id].recipe, Eligible(policy, source).value)
            && (forall r :: r in s.runs && r != id ==> s'.runs[r] == s.runs[r])
  {
    SnapshotStored(x, s, id, policy, source);
    ResultStored(x, Next(x, s, TakeSnapshot(id, policy, source)), id);
  }

  /** The run has just been created, and nothing else changed. */
  ghost predicate Created(s: Store, s1: Store, id: RunId, recipe: Recipe) {
    && id !in s.runs && s1.runs == s.runs[id := RunRow(recipe, Building, None, None)] && s1.publications == s.publications
  }

  lemma FromCreated(x: Setting, s: Store, s1: Store, id: RunId, recipe: Recipe, policy: Policy, source: seq<Candidate>)
    requires ValidSetting(x) && Created(s, s1, id, recipe) && RunOk(x, s1, id)
    ensures Eligible(policy, source).Ok?
    ensures var s' := Next(x, Next(x, s1, TakeSnapshot(id, policy, source)), Finish(id));
            && s'.runs.Keys == s.runs.Keys + {id} && s'.runs[id].status == RunStatus.Validated
            && id in s'.current && s'.current[id] == x.rate(recipe, Eligible(policy, source).value)
            && s'.publications == s.publications
            && (forall r :: r in s.runs ==> s'.runs[r] == s.runs[r])
  {
    assert s1.runs.Keys == s.runs.Keys + {id} && s1.runs[id].recipe == recipe;
    SnapshotThenResult(x, s1, id, policy, source);
  }

  lemma CreatedThenFinished(x: Setting, s: Store, id: RunId, recipe: Recipe, policy: Policy, source: seq<Candidate>)
    requires ValidSetting(x) && Enabled(s, Create(id, recipe))
    ensures Eligible(policy, source).Ok?
    ensures var s' := Next(x, Next(x, Next(x, s, Create(id, recipe)), TakeSnapshot(id, policy, source)), Finish(id));
            && s'.runs.Keys == s.runs.Keys + {id} && s'.runs[id].status == RunStatus.Validated
            && id in s'.current && s'.current[id] == x.rate(recipe, Eligible(policy, source).value)
            && s'.publications == s.publications
            && (forall r :: r in s.runs ==> s'.runs[r] == s.runs[r])
  {
    var s1 := Next(x, s, Create(id, recipe));
    assert Created(s, s1, id, recipe);
    assert RunOk(x, s1, id);
    FromCreated(x, s, s1, id, recipe, policy, source);
  }

  /** A build that is not disturbed ends validated, with the ratings from scratch, and touches no other run. */
  lemma BuildValidates(x: Setting, s: Store, id: RunId, recipe: Recipe, policy: Policy, source: seq<Candidate>)
    requires ValidSetting(x) && Enabled(s, Create(id, recipe))
    ensures Eligible(policy, source).Ok?
    ensures var s' := Run(x, s, BuildSteps(id, recipe, policy, source));
            && s'.runs.Keys == s.runs.Keys + {id} && s'.runs[id].status == RunStatus.Validated
            && id in s'.current && s'.current[id] == x.rate(recipe, Eligible(policy, source).value)
            && s'.publications == s.publications
            && (forall r :: r in s.runs ==> s'.runs[r] == s.runs[r])
  {
    ThreeSteps(x, s, Create(id, recipe), TakeSnapshot(id, policy, source), Finish(id));
    CreatedThenFinished(x, s, id, recipe, policy, source);
  }

  lemma RunOne(x: Setting, s: Store, step: Step)
    requires ValidSetting(x)
    ensures Run(x, s, [step]) == Next(x, s, step)
  {
    assert [step][0] == step && [step][1..] == [];
    assert Run(x, Next(x, s, step), []) == Next(x, s, step);
    assert Run(x, s, [step]) == Run(x, Next(x, s, step), [step][1..]);
  }

  /** One run after another is the run of all their steps. */
  lemma {:induction false} RunJoined(x: Setting, s: Store, a: seq<Step>, b: seq<Step>)
    requires ValidSetting(x)
    ensures Run(x, s, a + b) == Run(x, Run(x, s, a), b)
    decreases |a|
  {
    if a == [] {
      assert a + b == b;
    } else {
      assert (a + b)[0] == a[0] && (a + b)[1..] == a[1..] + b;
      RunJoined(x, Next(x, s, a[0]), a[1..], b);
    }
  }

  lemma ThreeSteps(x: Setting, s: Store, a: Step, b: Step, c: Step)
    requires ValidSetting(x)
    ensures Run(x, s, [a, b, c]) == Next(x, Next(x, Next(x, s, a), b), c)
  {
    assert [a, b, c] == [a] + ([b] + [c]);
    RunJoined(x, s, [a], [b] + [c]);
    RunOne(x, s, a);
    RunJoined(x, Next(x, s, a), [b], [c]);
    RunOne(x, Next(x, s, a), b);
    RunOne(x, Next(x, Next(x, s, a), b), c);
  }

  lemma RaceLost(s: Store, name: string, winner: RunId, loser: RunId)
    requires s.publications == map[] && winner != loser
    requires winner in s.runs && s.runs[winner].status == RunStatus.Validated
    requires loser in s.runs && s.runs[loser].status == RunStatus.Validated
    ensures Publishable(s, winner) && Publishable(s, loser) && !Publishable(Publish(s, name, winner), loser)
  {
    ValidatedSurvivesExactlyIfPointed(s, name, winner, loser);
    assert Rotated(s, name, winner).publications == map[name := Publication(winner, None)];
  }

  /** Two builders race over any store with nothing published: whoever publishes first deletes the other's run. */
  lemma RacingBuildIsPruned(x: Setting, s: Store, winner: RunId, loser: RunId, recipe: Recipe, policy: Policy,
                            source: seq<Candidate>, name: string)
    requires ValidSetting(x) && s.publications == map[] && winner in s.runs
    requires s.runs[winner].status == RunStatus.Validated && Enabled(s, Create(loser, recipe))
    ensures var s' := Run(x, s, BuildSteps(loser, recipe, policy, source));
            Publishable(s', winner) && Publishable(s', loser) && !Publishable(Publish(s', name, winner), loser)
  {
    BuildValidates(x, s, loser, recipe, policy, source);
    RaceLost(Run(x, s, BuildSteps(loser, recipe, policy, source)), name, winner, loser);
  }

  // ---------------------------------------------------------------- cache correctness

  /** The test a refresh makes before it decides that nothing changed. */
  predicate Unchanged(s: Store, name: string, recipe: Recipe, preview: Preview) {
    && name in s.publications && s.publications[name].run in s.runs
    && var row := s.runs[s.publications[name].run];
       && row.recipe == recipe && row.preview.Some?
       && row.preview.value.included == preview.included && row.preview.value.digest == preview.digest
  }

  /** A run passes for unchanged under one configuration only: no other policy, start or factor is taken for it. */
  lemma OneRecipeMatches(s: Store, name: string, preview: Preview, preview': Preview, policy: Policy, start: real, k: real,
                         policy': Policy, start': real, k': real)
    requires Unchanged(s, name, RecipeFor(policy, start, k), preview)
    requires Unchanged(s, name, RecipeFor(policy', start', k'), preview')
    ensures policy == policy' && start == start' && k == k'
    ensures s.runs[s.publications[name].run].recipe
         == Recipe("elo", "elo_v2_2player_only", if policy == GlobalEloV1 then "global_elo_v1" else "legacy_parity_v1", start, k)
  {
    assert Version(GlobalEloV1)[0] != Version(LegacyParity)[0];
  }

  lemma RateIsFresh(x: Setting, policy: Policy, source: seq<Candidate>, start: real, k: real)
    requires ValidSetting(x) && Eligible(policy, source).Ok?
    ensures var rows, p := Eligible(policy, source).value, E.Params(start, k, x.pow10);
            && x.rate(RecipeFor(policy, start, k), rows) == FreshRatings(p, policy, source)
            && x.trace(RecipeFor(policy, start, k), rows) == FreshHistory(p, policy, source)
  {
  }

  /**
   Taking the shortcut is safe: if the published run was built with this recipe and its
   stored count and digest match the source as previewed, then the published ratings are
   the fold from scratch over the source.
   */
  lemma UnchangedMeansFresh(x: Setting, s: Store, name: string, policy: Policy, source: seq<Candidate>, start: real, k: real)
    requires ValidSetting(x) && Inv(x, s)
    requires var rows := Eligible(policy, source);
             && rows.Ok?
             && Unchanged(s, name, RecipeFor(policy, start, k),
                          Preview(|rows.value|, x.sha(Stream(rows.value)), Exclusions(policy, source)))
    ensures var run, p := s.publications[name].run, E.Params(start, k, x.pow10);
            && run in s.current && s.current[run] == FreshRatings(p, policy, source)
            && run in s.history && s.history[run] == FreshHistory(p, policy, source)
  {
    var run := s.publications[name].run;
    assert RunOk(x, s, run);
    assert s.inputs[run] == Eligible(policy, source).value by {
      DigestDetermines(x.sha, s.inputs[run], Eligible(policy, source).value);
    }
    RateIsFresh(x, policy, source, start, k);
  }
}
