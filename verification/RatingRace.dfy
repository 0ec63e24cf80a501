/**
 One refresh among others: what any builders, publishers and prunings may do between the
 transactions of a build, what they cannot change, and when they delete its result.
 */
module RatingRaces {
  import opened Wrappers
  import opened Digests
  import opened RatingPolicies
  import opened RatingBuilds
  import opened RatingStores
  import E = Elo

  // ---------------------------------------------------------------- steps by others

  /** A step of the build of this run: only the process that owns the run takes one. */
  predicate Drives(step: Step, id: RunId) {
    match step
    case Create(other, _) => other == id
    case TakeSnapshot(other, _, _) => other == id
    case Finish(other) => other == id
    case Fail(other) => other == id
    case _ => false
  }

  /** Anything others do, publications of this very run included. */
  ghost predicate Foreign(steps: seq<Step>, id: RunId) {
    forall i :: 0 <= i < |steps| ==> !Drives(steps[i], id)
  }

  ghost predicate Unused(s: Store, id: RunId) {
    id !in s.runs && id !in s.inputs && id !in s.history && id !in s.current
  }

  lemma UnusedStep(x: Setting, s: Store, step: Step, id: RunId)
    requires ValidSetting(x) && Unused(s, id) && !Drives(step, id)
    ensures Unused(Next(x, s, step), id)
  {
  }

  /** A fresh id stays fresh. */
  lemma {:induction false} UnusedStays(x: Setting, s: Store, steps: seq<Step>, id: RunId)
    requires ValidSetting(x) && Unused(s, id) && Foreign(steps, id)
    ensures Unused(Run(x, s, steps), id)
    decreases |steps|
  {
    if steps == [] {
    } else {
      UnusedStep(x, s, steps[0], id);
      UnusedStays(x, Next(x, s, steps[0]), steps[1..], id);
    }
  }

  // ---------------------------------------------------------------- a run under construction

  /** The row of a run under construction and its inputs are as they were. */
  ghost predicate SameBuilding(s: Store, s': Store, id: RunId) {
    && id in s.runs && s.runs[id].status == Building
    && id in s'.runs && s'.runs[id] == s.runs[id] && Get(s'.inputs, id) == Get(s.inputs, id)
  }

  lemma BuildingStep(x: Setting, s: Store, step: Step, id: RunId)
    requires ValidSetting(x) && id in s.runs && s.runs[id].status == Building && !Drives(step, id)
    ensures SameBuilding(s, Next(x, s, step), id)
  {
  }

  lemma {:induction false} BuildingStays(x: Setting, s: Store, steps: seq<Step>, id: RunId)
    requires ValidSetting(x) && id in s.runs && s.runs[id].status == Building && Foreign(steps, id)
    ensures SameBuilding(s, Run(x, s, steps), id)
    decreases |steps|
  {
    if steps == [] {
    } else {
      BuildingStep(x, s, steps[0], id);
      BuildingStays(x, Next(x, s, steps[0]), steps[1..], id);
    }
  }

  // ---------------------------------------------------------------- a finished run

  /** A finished run is gone, or it can be published and holds what it held. */
  ghost predicate SameResultOrGone(s: Store, s': Store, id: RunId)
    requires id in s.runs
  {
    id in s'.runs ==>
      && Publishable(s', id)
      && s'.runs[id].recipe == s.runs[id].recipe && s'.runs[id].preview == s.runs[id].preview
      && Get(s'.inputs, id) == Get(s.inputs, id) && Get(s'.current, id) == Get(s.current, id)
      && Get(s'.history, id) == Get(s.history, id)
  }

  predicate Creates(step: Step, id: RunId) { step.Create? && step.id == id }

  /** Pruning deletes the run or leaves it alone. */
  lemma ResultPruned(s: Store, s': Store, id: RunId)
    requires id in s.runs && SameResultOrGone(s, s', id)
    ensures SameResultOrGone(s, Prune(s'), id)
  {
  }

  lemma FinishedStep(x: Setting, s: Store, step: Step, id: RunId)
    requires ValidSetting(x) && Publishable(s, id) && !Creates(step, id)
    ensures SameResultOrGone(s, Next(x, s, step), id)
  {
    if Enabled(s, step) {
      match step
      case Fail(other) => ResultPruned(s, s.(runs := s.runs[other := s.runs[other].(status := Failed)]), id);
      case PublishRun(name, other) => ResultPruned(s, Rotated(s, name, other), id);
      case PruneRuns => ResultPruned(s, s, id);
      case _ =>
    }
  }

  lemma GoneStep(x: Setting, s: Store, step: Step, id: RunId)
    requires ValidSetting(x) && id !in s.runs && !Creates(step, id)
    ensures id !in Next(x, s, step).runs
  {
  }

  lemma {:induction false} GoneStays(x: Setting, s: Store, steps: seq<Step>, id: RunId)
    requires ValidSetting(x) && id !in s.runs && forall i :: 0 <= i < |steps| ==> !Creates(steps[i], id)
    ensures id !in Run(x, s, steps).runs
    decreases |steps|
  {
    if steps == [] {
    } else {
      GoneStep(x, s, steps[0], id);
      GoneStays(x, Next(x, s, steps[0]), steps[1..], id);
    }
  }

  /** Nobody can change a finished run: whatever happens it is there as it was, or not there any more. */
  lemma {:induction false} FinishedStays(x: Setting, s: Store, steps: seq<Step>, id: RunId)
    requires ValidSetting(x) && Publishable(s, id) && forall i :: 0 <= i < |steps| ==> !Creates(steps[i], id)
    ensures SameResultOrGone(s, Run(x, s, steps), id)
    decreases |steps|
  {
    if steps == [] {
    } else {
      var next := Next(x, s, steps[0]);
      FinishedStep(x, s, steps[0], id);
      if id in next.runs {
        FinishedStays(x, next, steps[1..], id);
      } else {
        GoneStays(x, next, steps[1..], id);
      }
    }
  }

  /** A step that deletes this finished run: it prunes while no pointer names the run. */
  predicate Deletes(s: Store, step: Step, id: RunId) {
    match step
    case Fail(other) => other in s.runs && s.runs[other].status == Building && id !in Retained(s)
    case PublishRun(name, other) => Publishable(s, other) && id !in Retained(Rotated(s, name, other))
    case PruneRuns => id !in Retained(s)
    case _ => false
  }

  lemma DeletedExactly(x: Setting, s: Store, step: Step, id: RunId)
    requires ValidSetting(x) && Publishable(s, id)
    ensures id !in Next(x, s, step).runs <==> Deletes(s, step, id)
  {
  }

  /** Some step of the run deletes it. */
  ghost predicate DeletedBy(x: Setting, s: Store, steps: seq<Step>, id: RunId)
    requires ValidSetting(x)
    decreases |steps|
  {
    steps != [] && (Deletes(s, steps[0], id) || DeletedBy(x, Next(x, s, steps[0]), steps[1..], id))
  }

  /** A finished run survives exactly when no step prunes while no pointer names it. */
  lemma {:induction false} SurvivesExactly(x: Setting, s: Store, steps: seq<Step>, id: RunId)
    requires ValidSetting(x) && Publishable(s, id) && forall i :: 0 <= i < |steps| ==> !Creates(steps[i], id)
    ensures id in Run(x, s, steps).runs <==> !DeletedBy(x, s, steps, id)
    decreases |steps|
  {
    if steps == [] {
    } else {
      var next := Next(x, s, steps[0]);
      DeletedExactly(x, s, steps[0], id);
      if id in next.runs {
        FinishedStep(x, s, steps[0], id);
        SurvivesExactly(x, next, steps[1..], id);
      } else {
        GoneStays(x, next, steps[1..], id);
      }
    }
  }

  // ---------------------------------------------------------------- pointers

  ghost predicate NeverPublishes(steps: seq<Step>, name: string) {
    forall i :: 0 <= i < |steps| ==> !(steps[i].PublishRun? && steps[i].name == name)
  }

  lemma PointerStep(x: Setting, s: Store, step: Step, name: string)
    requires ValidSetting(x) && name in s.publications && !(step.PublishRun? && step.name == name)
    ensures name in Next(x, s, step).publications && Next(x, s, step).publications[name] == s.publications[name]
  {
  }

  /** A name that nobody publishes under keeps its pointers. */
  lemma {:induction false} PointerStays(x: Setting, s: Store, steps: seq<Step>, name: string)
    requires ValidSetting(x) && name in s.publications && NeverPublishes(steps, name)
    ensures var s' := Run(x, s, steps); name in s'.publications && s'.publications[name] == s.publications[name]
    decreases |steps|
  {
    if steps == [] {
    } else {
      PointerStep(x, s, steps[0], name);
      PointerStays(x, Next(x, s, steps[0]), steps[1..], name);
    }
  }

  // ---------------------------------------------------------------- a build among others

  /** The steps of a build, with those of others between its transactions. */
  function BuildAmongSteps(id: RunId, recipe: Recipe, policy: Policy, source: seq<Candidate>, a: seq<Step>, b: seq<Step>)
    : seq<Step>
  {
    [Create(id, recipe)] + a + [TakeSnapshot(id, policy, source)] + b + [Finish(id)]
  }

  /** A built run: it can be published, and holds the inputs of the source and the ratings they give. */
  ghost predicate Built(x: Setting, s: Store, id: RunId, recipe: Recipe, policy: Policy, source: seq<Candidate>) {
    && Eligible(policy, source).Ok? && Publishable(s, id) && s.runs[id].recipe == recipe
    && var rows := Eligible(policy, source).value;
       && s.runs[id].preview == Some(Preview(|rows|, x.sha(Stream(rows)), Exclusions(policy, source)))
       && Get(s.inputs, id) == Some(rows) && Get(s.current, id) == Some(x.rate(recipe, rows))
       && Get(s.history, id) == Some(x.trace(recipe, rows))
  }

  lemma SnapshotAmong(x: Setting, s: Store, id: RunId, policy: Policy, source: seq<Candidate>, b: seq<Step>)
    requires ValidSetting(x) && id in s.runs && s.runs[id].status == Building && s.runs[id].preview.None?
    requires s.runs[id].recipe.k > 0.0 && Foreign(b, id)
    ensures Eligible(policy, source).Ok?
    ensures var rows := Eligible(policy, source).value;
            var s' := Run(x, Next(x, s, TakeSnapshot(id, policy, source)), b);
            && Enabled(s', Finish(id)) && s'.inputs[id] == rows
            && s'.runs[id] == s.runs[id].(preview := Some(Preview(|rows|, x.sha(Stream(rows)), Exclusions(policy, source))))
  {
    EligibleIsAccepted(policy, source);
    BuildingStays(x, Next(x, s, TakeSnapshot(id, policy, source)), b, id);
  }

  lemma FinishAmong(x: Setting, s: Store, id: RunId, recipe: Recipe, policy: Policy, source: seq<Candidate>)
    requires ValidSetting(x) && Enabled(s, Finish(id)) && recipe.k > 0.0 && s.runs[id].recipe == recipe
    requires Eligible(policy, source).Ok? && s.inputs[id] == Eligible(policy, source).value
    requires s.runs[id].preview
          == Some(Preview(|s.inputs[id]|, x.sha(Stream(s.inputs[id])), Exclusions(policy, source)))
    ensures Built(x, Next(x, s, Finish(id)), id, recipe, policy, source)
  {
    EligibleIsAccepted(policy, source);
    RecipeParams(x, recipe);
    CalculateIsFold(ParamsOf(x, recipe), s.inputs[id]);
    HistoryIsFold(ParamsOf(x, recipe), s.inputs[id]);
  }

  lemma BuildStages(x: Setting, s: Store, id: RunId, recipe: Recipe, policy: Policy, source: seq<Candidate>,
                    a: seq<Step>, b: seq<Step>)
    requires ValidSetting(x)
    ensures Run(x, s, BuildAmongSteps(id, recipe, policy, source, a, b))
         == Next(x, Run(x, Next(x, Run(x, Next(x, s, Create(id, recipe)), a), TakeSnapshot(id, policy, source)), b), Finish(id))
  {
    var create, take, finish := [Create(id, recipe)], [TakeSnapshot(id, policy, source)], [Finish(id)];
    RunJoined(x, s, create + a + take + b, finish);
    RunJoined(x, s, create + a + take, b);
    RunJoined(x, s, create + a, take);
    RunJoined(x, s, create, a);
    RunOne(x, s, create[0]);
    RunOne(x, Run(x, s, create + a), take[0]);
    RunOne(x, Run(x, s, create + a + take + b), finish[0]);
  }

  /** Whatever others do in between, a build ends with its run validated and the ratings from scratch in it. */
  lemma BuildsAmongOthers(x: Setting, s: Store, id: RunId, recipe: Recipe, policy: Policy, source: seq<Candidate>,
                          a: seq<Step>, b: seq<Step>)
    requires ValidSetting(x) && Unused(s, id) && recipe.k > 0.0 && Foreign(a, id) && Foreign(b, id)
    ensures Built(x, Run(x, s, BuildAmongSteps(id, recipe, policy, source, a, b)), id, recipe, policy, source)
  {
    BuildStages(x, s, id, recipe, policy, source, a, b);
    var s1 := Next(x, s, Create(id, recipe));
    assert s1.runs[id] == RunRow(recipe, Building, None, None);
    BuildingStays(x, s1, a, id);
    var s2 := Run(x, s1, a);
    SnapshotAmong(x, s2, id, policy, source, b);
    FinishAmong(x, Run(x, Next(x, s2, TakeSnapshot(id, policy, source)), b), id, recipe, policy, source);
  }

  /** And until it is published the run is as it was built, or others have deleted it. */
  lemma BuiltStays(x: Setting, s: Store, steps: seq<Step>, id: RunId, recipe: Recipe, policy: Policy, source: seq<Candidate>)
    requires ValidSetting(x) && Built(x, s, id, recipe, policy, source) && Foreign(steps, id)
    ensures var s' := Run(x, s, steps);
            && (id in s'.runs <==> Built(x, s', id, recipe, policy, source))
            && (id in s'.runs <==> !DeletedBy(x, s, steps, id))
  {
    FinishedStays(x, s, steps, id);
    SurvivesExactly(x, s, steps, id);
  }
}
