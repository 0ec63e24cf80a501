/**
 What the practice metrics mean, told from the evidence alone: which actions make up a turn,
 when a replay has no metrics, and what each metric says. Values are named by their path in
 the evidence, turns by the places of their actions.
 */
module PracticeLaws {
  import opened Wrappers
  import opened Jsons
  import opened Practices

  /** The value at a path of keys; null where the path ends early. */
  function At(j: Json, path: seq<string>): Json
    decreases |path|
  {
    if path == [] then j else At(Field(j, path[0]), path[1..])
  }

  function In(n: Evidence, path: seq<string>): Json { At(Obj(n), path) }

  lemma OneStep(j: Json, a: string)
    ensures At(j, [a]) == Field(j, a)
  {
    assert [a][1..] == [];
  }

  lemma TwoSteps(j: Json, a: string, b: string)
    ensures At(j, [a, b]) == Field(Field(j, a), b)
  {
    assert [a, b][1..] == [b];
    OneStep(Field(j, a), b);
  }

  lemma ThreeSteps(j: Json, a: string, b: string, c: string)
    ensures At(j, [a, b, c]) == Field(Field(Field(j, a), b), c)
  {
    assert [a, b, c][1..] == [b, c];
    TwoSteps(Field(j, a), b, c);
  }

  lemma EmptyIsNothing(j: Json, key: string)
    ensures Field(OrEmpty(j), key) == Field(j, key)
  {
  }

  /** The values that do not count as true. */
  lemma Falsy(j: Json)
    ensures !Truthy(j) <==> j in {Null, Bool(false), Int(0), Float(0.0), Str(""), Arr([]), Obj(map[])}
  {
  }

  // ---------------------------------------------------------------- whose turn it is

  /** The active player of an action, or the current player of its context while the game is being played. */
  function WhoseTurn(py: Python, action: Json): Json {
    if At(action, ["active_player"]) != Null then At(action, ["active_player"])
    else if py.rep(At(action, ["coach_context", "status"])) == py.rep(Str("playing")) then
      At(action, ["coach_context", "current_player"])
    else Null
  }

  /** An action that was not undone, of a known player, in a numbered turn. */
  predicate InGame(py: Python, action: Json) {
    !Truthy(At(action, ["undone"])) && WhoseTurn(py, action) != Null
    && (At(action, ["gameplay_turn"]).Int? || At(action, ["gameplay_turn"]).Bool?)
  }

  /** A decision of the player whose replay it is; undo frames are not decisions. */
  predicate Decides(py: Python, action: Json) {
    At(action, ["actor_is_perspective"]) == Bool(true) && py.rep(At(action, ["type"])) != py.rep(Str("undo"))
  }

  lemma ActionMeans(py: Python, action: Json)
    ensures WhoseTurn(py, action) == Active(py, action)
    ensures InGame(py, action) <==> !Skipped(py, action)
    ensures Decides(py, action) <==> Decision(py, action)
    ensures At(action, ["gameplay_turn"]) == Field(action, "gameplay_turn")
  {
    OneStep(action, "active_player");
    TwoSteps(action, "coach_context", "status");
    TwoSteps(action, "coach_context", "current_player");
    OneStep(action, "undone");
    OneStep(action, "gameplay_turn");
    OneStep(action, "actor_is_perspective");
    OneStep(action, "type");
    EmptyIsNothing(Field(action, "coach_context"), "status");
    EmptyIsNothing(Field(action, "coach_context"), "current_player");
  }

  /** Two actions of one player's turn with one label. */
  predicate OneSegment(py: Python, a: Json, b: Json) {
    && py.rep(WhoseTurn(py, a)) == py.rep(WhoseTurn(py, b))
    && py.rep(At(a, ["gameplay_turn"])) == py.rep(At(b, ["gameplay_turn"]))
  }

  /** The last action of the game before place `i`. */
  function LastBefore(py: Python, actions: seq<Json>, i: nat): (r: Option<nat>)
    requires i <= |actions|
    ensures r.None? <==> forall j :: 0 <= j < i ==> !InGame(py, actions[j])
    ensures r.Some? ==> r.value < i && InGame(py, actions[r.value])
                        && forall j :: r.value < j < i ==> !InGame(py, actions[j])
  {
    if i == 0 then None else if InGame(py, actions[i - 1]) then Some(i - 1) else LastBefore(py, actions, i - 1)
  }

  /** A turn of this player begins at place `i`: the action before it in the game is of another segment. */
  predicate Opens(py: Python, player: Json, actions: seq<Json>, i: nat)
    requires i < |actions|
  {
    && InGame(py, actions[i]) && py.rep(WhoseTurn(py, actions[i])) == py.rep(player)
    && (LastBefore(py, actions, i).None? || !OneSegment(py, actions[i], actions[LastBefore(py, actions, i).value]))
  }

  /** How many turns of the player have begun before place `i`. */
  function Opened(py: Python, player: Json, actions: seq<Json>, i: nat): nat
    requires i <= |actions|
  {
    if i == 0 then 0 else Opened(py, player, actions, i - 1) + if Opens(py, player, actions, i - 1) then 1 else 0
  }

  /** Place `i` holds a decision the player took in the turn with this number. */
  predicate DecidedIn(py: Python, player: Json, actions: seq<Json>, turn: nat, i: nat)
    requires i < |actions|
  {
    && InGame(py, actions[i]) && py.rep(WhoseTurn(py, actions[i])) == py.rep(player) && Decides(py, actions[i])
    && Opened(py, player, actions, i + 1) == turn
  }

  /** The turn holds the actions at those places, in order, and they are all the player's decisions in it. */
  ghost predicate Holds(py: Python, player: Json, actions: seq<Json>, bound: nat, turn: nat, held: seq<Json>, places: seq<nat>)
    requires bound <= |actions|
  {
    && |held| == |places|
    && (forall k :: 0 <= k < |places| ==> places[k] < bound && held[k] == actions[places[k]])
    && (forall k, l :: 0 <= k < l < |places| ==> places[k] < places[l])
    && (forall i: nat :: i in places <==> i < bound && DecidedIn(py, player, actions, turn, i))
  }

  // ---------------------------------------------------------------- the loop takes exactly those turns

  /** The loop remembers the segment of the last action of the game. */
  ghost predicate Remembers(py: Python, actions: seq<Json>, i: nat, w: Walk)
    requires i <= |actions|
  {
    var last := LastBefore(py, actions, i);
    && (w.started <==> last.Some?) && (w.previous.Some? <==> last.Some?)
    && (last.Some? ==>
          && py.rep(w.previous.value.0) == py.rep(WhoseTurn(py, actions[last.value]))
          && py.rep(w.previous.value.1) == py.rep(At(actions[last.value], ["gameplay_turn"])))
  }

  /** It has the turns that have begun, each with the decisions taken in it so far. */
  ghost predicate Collects(py: Python, player: Json, actions: seq<Json>, i: nat, turns: seq<seq<Json>>, places: seq<seq<nat>>)
    requires i <= |actions|
  {
    && |turns| == |places| == Opened(py, player, actions, i)
    && forall t :: 0 <= t < |places| ==> Holds(py, player, actions, i, t + 1, turns[t], places[t])
  }

  /** While the last action of the game was in a turn of the player, there is a turn to add to. */
  ghost predicate Ready(py: Python, player: Json, actions: seq<Json>, i: nat)
    requires i <= |actions|
  {
    var last := LastBefore(py, actions, i);
    last.Some? && py.rep(WhoseTurn(py, actions[last.value])) == py.rep(player) ==> Opened(py, player, actions, i) > 0
  }

  /** After the first `i` actions the loop is where the evidence says. */
  ghost predicate Follows(py: Python, player: Json, actions: seq<Json>, i: nat, w: Walk, places: seq<seq<nat>>)
    requires i <= |actions|
  {
    && Remembers(py, actions, i, w) && Collects(py, player, actions, i, w.turns, places) && Ready(py, player, actions, i)
  }

  lemma HoldsOn(py: Python, player: Json, actions: seq<Json>, i: nat, turn: nat, held: seq<Json>, places: seq<nat>)
    requires i < |actions| && Holds(py, player, actions, i, turn, held, places)
    ensures !DecidedIn(py, player, actions, turn, i) ==> Holds(py, player, actions, i + 1, turn, held, places)
    ensures DecidedIn(py, player, actions, turn, i) ==>
              Holds(py, player, actions, i + 1, turn, held + [actions[i]], places + [i])
  {
    assert forall j: nat :: j in places + [i] <==> j in places || j == i;
  }

  lemma NothingHeld(py: Python, player: Json, actions: seq<Json>, i: nat, turn: nat)
    requires i <= |actions| && turn > Opened(py, player, actions, i)
    ensures Holds(py, player, actions, i, turn, [], [])
  {
    forall j: nat | j < i
      ensures !DecidedIn(py, player, actions, turn, j)
    {
      OpenedGrows(py, player, actions, j + 1, i);
    }
  }

  lemma {:induction false} OpenedGrows(py: Python, player: Json, actions: seq<Json>, i: nat, j: nat)
    requires i <= j <= |actions|
    ensures Opened(py, player, actions, i) <= Opened(py, player, actions, j)
    decreases j
  {
    if i == j {
    } else {
      OpenedGrows(py, player, actions, i, j - 1);
    }
  }

  lemma FollowsSkip(py: Python, player: Json, actions: seq<Json>, i: nat, w: Walk, places: seq<seq<nat>>)
    requires i < |actions| && Follows(py, player, actions, i, w, places) && !InGame(py, actions[i])
    ensures Follows(py, player, actions, i + 1, w, places)
  {
    forall t | 0 <= t < |places|
      ensures Holds(py, player, actions, i + 1, t + 1, w.turns[t], places[t])
    {
      HoldsOn(py, player, actions, i, t + 1, w.turns[t], places[t]);
    }
  }

  /** The turns when the one that begins at place `i` has been opened, if one does. */
  lemma TurnsOpened(py: Python, player: Json, actions: seq<Json>, i: nat, turns: seq<seq<Json>>, places: seq<seq<nat>>)
    requires i < |actions| && Collects(py, player, actions, i, turns, places) && Opens(py, player, actions, i)
    ensures forall t :: 0 <= t < |places| + 1 ==>
              Holds(py, player, actions, i, t + 1, (turns + [[]])[t], (places + [[]])[t])
  {
    NothingHeld(py, player, actions, i, |places| + 1);
    forall t | 0 <= t < |places| + 1
      ensures Holds(py, player, actions, i, t + 1, (turns + [[]])[t], (places + [[]])[t])
    {
      if t < |places| {
        assert Holds(py, player, actions, i, t + 1, turns[t], places[t]);
      }
    }
  }

  /** A decision belongs to the last turn that has begun, if to any. */
  lemma OnlyTheLast(py: Python, player: Json, actions: seq<Json>, i: nat, turns: seq<seq<Json>>, places: seq<seq<nat>>, t: nat)
    requires i < |actions| && |turns| == |places| == Opened(py, player, actions, i + 1) && t < |places|
    requires Holds(py, player, actions, i, t + 1, turns[t], places[t])
    ensures t + 1 != |turns| || !DecidedIn(py, player, actions, |turns|, i) ==>
              Holds(py, player, actions, i + 1, t + 1, turns[t], places[t])
  {
    HoldsOn(py, player, actions, i, t + 1, turns[t], places[t]);
  }

  /** And when the decision at place `i`, if it is one, has been added to the last of them. */
  lemma TurnsCollected(py: Python, player: Json, actions: seq<Json>, i: nat, turns: seq<seq<Json>>, places: seq<seq<nat>>)
    returns (places': seq<seq<nat>>)
    requires i < |actions| && |turns| == |places| == Opened(py, player, actions, i + 1)
    requires forall t :: 0 <= t < |places| ==> Holds(py, player, actions, i, t + 1, turns[t], places[t])
    requires DecidedIn(py, player, actions, |turns|, i) ==> turns != []
    ensures Collects(py, player, actions, i + 1,
                     if DecidedIn(py, player, actions, |turns|, i) then AddToLast(turns, actions[i]) else turns, places')
  {
    if DecidedIn(py, player, actions, |turns|, i) {
      var last := |places| - 1;
      var turns' := AddToLast(turns, actions[i]);
      places' := places[last := places[last] + [i]];
      HoldsOn(py, player, actions, i, last + 1, turns[last], places[last]);
      forall t | 0 <= t < |places'|
        ensures Holds(py, player, actions, i + 1, t + 1, turns'[t], places'[t])
      {
        if t < last {
          OnlyTheLast(py, player, actions, i, turns, places, t);
        }
      }
    } else {
      places' := places;
      forall t | 0 <= t < |places|
        ensures Holds(py, player, actions, i + 1, t + 1, turns[t], places[t])
      {
        OnlyTheLast(py, player, actions, i, turns, places, t);
      }
    }
  }

  lemma EnterRemembers(py: Python, player: Json, actions: seq<Json>, i: nat, w: Walk)
    requires i < |actions| && Remembers(py, actions, i, w) && InGame(py, actions[i])
    ensures var action := actions[i];
            var w' := Enter(py, player, w, WhoseTurn(py, action), At(action, ["gameplay_turn"]), action, Decides(py, action));
            && Remembers(py, actions, i + 1, w')
            && (Opens(py, player, actions, i)
                <==> NewSegment(py, w, WhoseTurn(py, action), At(action, ["gameplay_turn"]))
                     && py.rep(WhoseTurn(py, action)) == py.rep(player))
  {
    assert LastBefore(py, actions, i + 1) == Some(i);
  }

  lemma ReadyOn(py: Python, player: Json, actions: seq<Json>, i: nat)
    requires i < |actions| && Ready(py, player, actions, i) && InGame(py, actions[i])
    ensures Ready(py, player, actions, i + 1)
  {
    assert LastBefore(py, actions, i + 1) == Some(i);
  }

  lemma FollowsEnter(py: Python, player: Json, actions: seq<Json>, i: nat, w: Walk, places: seq<seq<nat>>)
    returns (places': seq<seq<nat>>)
    requires i < |actions| && Follows(py, player, actions, i, w, places) && InGame(py, actions[i])
    ensures var action := actions[i];
            Follows(py, player, actions, i + 1,
                    Enter(py, player, w, WhoseTurn(py, action), At(action, ["gameplay_turn"]), action, Decides(py, action)),
                    places')
  {
    EnterRemembers(py, player, actions, i, w);
    ReadyOn(py, player, actions, i);
    assert LastBefore(py, actions, i + 1) == Some(i);
    if Opens(py, player, actions, i) {
      TurnsOpened(py, player, actions, i, w.turns, places);
      places' := TurnsCollected(py, player, actions, i, w.turns + [[]], places + [[]]);
    } else {
      places' := TurnsCollected(py, player, actions, i, w.turns, places);
    }
  }

  /** The replay begins at turn one of the first player. */
  ghost predicate BeginsAtTurnOne(py: Python, first: Json, actions: seq<Json>, i: nat)
    requires i <= |actions|
  {
    forall j :: 0 <= j < i && InGame(py, actions[j]) && LastBefore(py, actions, j).None? ==>
      py.rep(WhoseTurn(py, actions[j])) == py.rep(first) && py.rep(At(actions[j], ["gameplay_turn"])) == py.rep(Int(1))
  }

  /** The first action of the game decides. */
  ghost predicate MayBegin(py: Python, first: Json, actions: seq<Json>, i: nat)
    requires i < |actions|
  {
    InGame(py, actions[i]) && LastBefore(py, actions, i).None? ==>
      py.rep(WhoseTurn(py, actions[i])) == py.rep(first) && py.rep(At(actions[i], ["gameplay_turn"])) == py.rep(Int(1))
  }

  lemma BeginsOneMore(py: Python, first: Json, actions: seq<Json>, i: nat)
    requires i < |actions| && BeginsAtTurnOne(py, first, actions, i)
    ensures BeginsAtTurnOne(py, first, actions, i + 1) <==> MayBegin(py, first, actions, i)
  {
  }

  lemma StepMeans(py: Python, player: Json, first: Json, actions: seq<Json>, i: nat, w: Walk)
    requires i < |actions| && Remembers(py, actions, i, w)
    ensures var action := actions[i];
            Step(py, player, first, w, action)
            == if !InGame(py, action) then Some(w)
               else if !MayBegin(py, first, actions, i) then None
               else Some(Enter(py, player, w, WhoseTurn(py, action), At(action, ["gameplay_turn"]), action, Decides(py, action)))
  {
    ActionMeans(py, actions[i]);
  }

  /** One more action of the loop: it goes on unless this is the first of the game and not turn one of the first player. */
  lemma WalkOneMore(py: Python, player: Json, first: Json, actions: seq<Json>, i: nat, w: Walk, places: seq<seq<nat>>)
    returns (places': seq<seq<nat>>)
    requires i < |actions| && Follows(py, player, actions, i, w, places) && BeginsAtTurnOne(py, first, actions, i)
    ensures var w' := Step(py, player, first, w, actions[i]);
            && (w'.Some? <==> BeginsAtTurnOne(py, first, actions, i + 1))
            && (w'.Some? ==> Follows(py, player, actions, i + 1, w'.value, places'))
  {
    places' := places;
    BeginsOneMore(py, first, actions, i);
    StepMeans(py, player, first, actions, i, w);
    if !InGame(py, actions[i]) {
      FollowsSkip(py, player, actions, i, w, places);
    } else if MayBegin(py, first, actions, i) {
      places' := FollowsEnter(py, player, actions, i, w, places);
    }
  }

  lemma {:induction false} WalkFollows(py: Python, player: Json, first: Json, actions: seq<Json>, i: nat)
    returns (places: seq<seq<nat>>)
    requires i <= |actions|
    ensures var w := WalkAll(py, player, first, actions[..i]);
            && (w.Some? <==> BeginsAtTurnOne(py, first, actions, i))
            && (w.Some? ==> Follows(py, player, actions, i, w.value, places))
  {
    places := [];
    if i == 0 {
    } else {
      assert actions[..i][..i - 1] == actions[..i - 1];
      places := WalkFollows(py, player, first, actions, i - 1);
      var w := WalkAll(py, player, first, actions[..i - 1]);
      if w.Some? {
        places := WalkOneMore(py, player, first, actions, i - 1, w.value, places);
      }
    }
  }

  // ---------------------------------------------------------------- which replays have turns, and what they hold

  /** The actions in force. */
  function Recorded(n: Evidence): seq<Json> {
    if In(n, ["effective_actions"]).Arr? then In(n, ["effective_actions"]).items else []
  }

  function Player(n: Evidence): Json { In(n, ["game", "perspective"]) }

  lemma EntriesMean(n: Evidence)
    ensures forall key :: In(n, [key]) == Entry(n, key)
    ensures forall key :: In(n, ["game", key]) == Field(OrEmpty(Entry(n, "game")), key)
    ensures forall key :: In(n, ["mulligan", key]) == Group(n, key)
    ensures Recorded(n) == Actions(n)
  {
    forall key
      ensures In(n, [key]) == Entry(n, key)
      ensures In(n, ["game", key]) == Field(OrEmpty(Entry(n, "game")), key)
      ensures In(n, ["mulligan", key]) == Group(n, key)
    {
      OneStep(Obj(n), key);
      TwoSteps(Obj(n), "game", key);
      TwoSteps(Obj(n), "mulligan", key);
      EmptyIsNothing(Entry(n, "game"), key);
      EmptyIsNothing(Entry(n, "mulligan"), key);
    }
  }

  ghost predicate OwnMulligan(py: Python, action: Json) {
    py.rep(At(action, ["type"])) == py.rep(Str("mulligan")) && At(action, ["actor_is_perspective"]) == Bool(true)
  }

  lemma MulliganMeans(py: Python, actions: seq<Json>)
    ensures SawMulligan(py, actions) <==> exists i :: 0 <= i < |actions| && OwnMulligan(py, actions[i])
  {
    forall i | 0 <= i < |actions|
      ensures OwnMulligan(py, actions[i])
         <==> HasType(py, actions[i], "mulligan") && Field(actions[i], "actor_is_perspective") == Bool(true)
    {
      OneStep(actions[i], "type");
      OneStep(actions[i], "actor_is_perspective");
    }
  }

  /** It is known whose replay it is and who began, nothing was warned of, and two players are named if any are. */
  ghost predicate Complete(n: Evidence) {
    var names := In(n, ["game", "player_names"]);
    && Player(n) != Null && In(n, ["game", "first_player"]) != Null && !Truthy(In(n, ["parser_warnings"]))
    && (Truthy(names) ==> Size(names) == 2)
  }

  lemma CompleteMeans(n: Evidence)
    ensures Whole(n) <==> Complete(n)
  {
    EntriesMean(n);
  }

  lemma WalkStarts(py: Python, player: Json, first: Json, actions: seq<Json>)
    ensures var w := WalkAll(py, player, first, actions);
            w.Some? && w.value.started
            <==> (exists i :: 0 <= i < |actions| && InGame(py, actions[i])) && BeginsAtTurnOne(py, first, actions, |actions|)
  {
    var places := WalkFollows(py, player, first, actions, |actions|);
    assert actions[..|actions|] == actions;
  }

  /**
   A replay has turns exactly if it is complete, the player's own mulligan is in it, and its
   first action of the game is in turn one of the player who began.
   */
  lemma HasTurnsExactly(py: Python, n: Evidence)
    ensures var actions, first := Recorded(n), In(n, ["game", "first_player"]);
            Turns(py, n).Some?
            <==> && Complete(n)
                 && (exists i :: 0 <= i < |actions| && OwnMulligan(py, actions[i]))
                 && (exists i :: 0 <= i < |actions| && InGame(py, actions[i]))
                 && BeginsAtTurnOne(py, first, actions, |actions|)
  {
    EntriesMean(n);
    CompleteMeans(n);
    MulliganMeans(py, Recorded(n));
    WalkStarts(py, Player(n), In(n, ["game", "first_player"]), Recorded(n));
  }

  /**
   There is one turn for each segment of the player that begins in the game, and it holds
   exactly the decisions the player took in it, in their order.
   */
  lemma TurnsExactly(py: Python, n: Evidence) returns (places: seq<seq<nat>>)
    requires Turns(py, n).Some?
    ensures var actions, turns := Recorded(n), Turns(py, n).value;
            && |turns| == |places| == Opened(py, Player(n), actions, |actions|)
            && forall t :: 0 <= t < |turns| ==>
                 Holds(py, Player(n), actions, |actions|, t + 1, turns[t], places[t])
  {
    EntriesMean(n);
    var actions := Recorded(n);
    places := WalkFollows(py, Player(n), In(n, ["game", "first_player"]), actions, |actions|);
    assert actions[..|actions|] == actions;
  }

  // ---------------------------------------------------------------- targets

  /** The text of a value is the name of a target. */
  ghost predicate Names(py: Python, value: Json, targets: seq<string>) {
    exists i :: 0 <= i < |targets| && py.cardKey(if Truthy(value) then value else Str("")) == py.cardKey(Str(targets[i]))
  }

  /** Every card says which card it is. */
  ghost predicate Told(cards: seq<Json>) {
    forall i :: 0 <= i < |cards| ==> Truthy(At(cards[i], ["id"])) && Truthy(At(cards[i], ["name"]))
  }

  /** A target is among the cards, by id or by name. */
  ghost predicate Among(py: Python, cards: seq<Json>, targets: seq<string>) {
    exists i :: 0 <= i < |cards| && (Names(py, At(cards[i], ["id"]), targets) || Names(py, At(cards[i], ["name"]), targets))
  }

  ghost predicate CardList(cards: Json) {
    cards.Arr? && forall i :: 0 <= i < |cards.items| ==> cards.items[i].Obj?
  }

  /** Found if a target is there; missing only if every card is told and none is a target; else it cannot be known. */
  lemma PresentExactly(py: Python, cards: Json, targets: seq<string>)
    ensures TargetPresent(py, cards, targets) == Yes <==> CardList(cards) && Among(py, cards.items, targets)
    ensures TargetPresent(py, cards, targets) == No
       <==> CardList(cards) && Told(cards.items) && !Among(py, cards.items, targets)
  {
    if CardList(cards) {
      forall i | 0 <= i < |cards.items|
        ensures Hits(py, cards.items[i], targets)
           <==> Names(py, At(cards.items[i], ["id"]), targets) || Names(py, At(cards.items[i], ["name"]), targets)
        ensures Named(cards.items[i]) <==> Truthy(At(cards.items[i], ["id"])) && Truthy(At(cards.items[i], ["name"]))
      {
        OneStep(cards.items[i], "id");
        OneStep(cards.items[i], "name");
      }
    }
  }

  // ---------------------------------------------------------------- the opening hand

  ghost predicate IdentifiedCards(cards: Json) {
    CardList(cards) && forall i :: 0 <= i < |cards.items| ==> Truthy(At(cards.items[i], ["id"]))
  }

  function IdClasses(py: Python, cards: seq<Json>): multiset<Json> {
    multiset(seq(|cards|, i requires 0 <= i < |cards| => py.rep(At(cards[i], ["id"]))))
  }

  lemma ClassesMean(py: Python, cards: seq<Json>)
    ensures IdClasses(py, cards) == multiset(IdList(py, cards))
  {
    forall i | 0 <= i < |cards|
      ensures At(cards[i], ["id"]) == Field(cards[i], "id")
    {
      OneStep(cards[i], "id");
    }
    assert seq(|cards|, i requires 0 <= i < |cards| => py.rep(At(cards[i], ["id"]))) == IdList(py, cards);
  }

  lemma ClassesJoin(py: Python, a: seq<Json>, b: seq<Json>)
    ensures IdClasses(py, a + b) == IdClasses(py, a) + IdClasses(py, b)
  {
    assert seq(|a + b|, i requires 0 <= i < |a + b| => py.rep(At((a + b)[i], ["id"])))
        == seq(|a|, i requires 0 <= i < |a| => py.rep(At(a[i], ["id"])))
           + seq(|b|, i requires 0 <= i < |b| => py.rep(At(b[i], ["id"])));
  }

  lemma IdentifiedMeans(cards: Json)
    ensures IdentifiedCards(cards) <==> Identified(cards)
  {
    if cards.Arr? {
      forall i | 0 <= i < |cards.items|
        ensures At(cards.items[i], ["id"]) == Field(cards.items[i], "id")
      {
        OneStep(cards.items[i], "id");
      }
    }
  }

  /** The mulligan of `count` cards is borne out: seven cards at first, as many drawn as sent back, the rest kept, by their ids. */
  ghost predicate BorneOut(py: Python, n: Evidence, count: int) {
    var initial, kept := In(n, ["starting_hand"]), In(n, ["mulligan", "kept"]);
    var sent, drawn := In(n, ["mulligan", "sent_back"]), In(n, ["mulligan", "drawn"]);
    && In(n, ["mulligan", "count"]) == Int(count) && 0 <= count <= 7
    && IdentifiedCards(initial) && IdentifiedCards(kept) && IdentifiedCards(sent) && IdentifiedCards(drawn)
    && |initial.items| == 7 && |kept.items| == 7 - count && |sent.items| == count && |drawn.items| == count
    && IdClasses(py, initial.items) == IdClasses(py, kept.items) + IdClasses(py, sent.items)
  }

  lemma CountExactly(py: Python, n: Evidence, count: int)
    ensures Count(py, n) == Some(count) <==> BorneOut(py, n, count)
  {
    EntriesMean(n);
    var initial, kept := In(n, ["starting_hand"]), In(n, ["mulligan", "kept"]);
    var sent, drawn := In(n, ["mulligan", "sent_back"]), In(n, ["mulligan", "drawn"]);
    IdentifiedMeans(initial);
    IdentifiedMeans(kept);
    IdentifiedMeans(sent);
    IdentifiedMeans(drawn);
    if initial.Arr? && kept.Arr? && sent.Arr? {
      ClassesMean(py, initial.items);
      ClassesMean(py, kept.items + sent.items);
      ClassesJoin(py, kept.items, sent.items);
    }
  }

  /** The hand after a mulligan that is borne out: what was kept, then what was drawn. */
  function Opening(n: Evidence): seq<Json>
    requires In(n, ["mulligan", "kept"]).Arr? && In(n, ["mulligan", "drawn"]).Arr?
  {
    In(n, ["mulligan", "kept"]).items + In(n, ["mulligan", "drawn"]).items
  }

  function Uninkable(cards: seq<Json>): set<nat> {
    set i: nat | i < |cards| && At(cards[i], ["inkable"]) == Bool(false)
  }

  lemma {:induction false} UninkableCounted(cards: seq<Json>)
    ensures CountUninkable(cards) == |Uninkable(cards)|
  {
    if cards == [] {
      assert Uninkable(cards) == {};
    } else {
      var n := |cards| - 1;
      UninkableCounted(cards[..n]);
      OneStep(cards[n], "inkable");
      assert Uninkable(cards) == Uninkable(cards[..n]) + if At(cards[n], ["inkable"]) == Bool(false) then {n} else {};
    }
  }

  // ---------------------------------------------------------------- one turn

  predicate IsType(py: Python, action: Json, name: string) { py.rep(At(action, ["type"])) == py.rep(Str(name)) }

  /** The last action of the turn that ends it. */
  ghost predicate LastEnding(py: Python, actions: seq<Json>, j: nat) {
    && j < |actions| && IsType(py, actions[j], "end_turn")
    && forall k :: j < k < |actions| ==> !IsType(py, actions[k], "end_turn")
  }

  function Hand(action: Json): Json { At(action, ["coach_context", "my", "hand"]) }

  /** The card of the action is a target, by id or by name. */
  ghost predicate OfTarget(py: Python, action: Json, targets: seq<string>) {
    Names(py, At(action, ["card_id"]), targets) || Names(py, At(action, ["card_name"]), targets)
  }

  /** A target was seen if some hand held one; it was not if every hand was told and held none. */
  ghost predicate SeenIs(py: Python, actions: seq<Json>, targets: seq<string>, seen: Tri) {
    && (seen == Yes <==> exists i :: 0 <= i < |actions| && CardList(Hand(actions[i])) && Among(py, Hand(actions[i]).items, targets))
    && (seen == No <==>
          && actions != []
          && forall i :: 0 <= i < |actions| ==>
               CardList(Hand(actions[i])) && Told(Hand(actions[i]).items) && !Among(py, Hand(actions[i]).items, targets))
  }

  /** A target was played if some play was of one; it was not if the turn is complete and every play is told and of none. */
  ghost predicate PlayedIs(py: Python, actions: seq<Json>, targets: seq<string>, played: Tri) {
    && (played == Yes <==> exists i :: 0 <= i < |actions| && IsType(py, actions[i], "play") && OfTarget(py, actions[i], targets))
    && (played == No <==>
          && (exists j: nat :: LastEnding(py, actions, j))
          && forall i :: 0 <= i < |actions| && IsType(py, actions[i], "play") ==>
               && Truthy(At(actions[i], ["card_id"])) && Truthy(At(actions[i], ["card_name"]))
               && !OfTarget(py, actions[i], targets))
  }

  /** What a metric says of a turn: with the last action that ended it if there is one, and null without. */
  ghost predicate Describes(py: Python, actions: seq<Json>, targets: seq<string>, number: nat, m: TurnMetric) {
    && m.number == number
    && (m.complete <==> exists j: nat :: LastEnding(py, actions, j))
    && (!m.complete ==> m.ink == m.readyInk == m.endSeq == Null)
    && (forall j: nat :: LastEnding(py, actions, j) ==>
          && m.ink == At(actions[j], ["coach_context", "my", "ink_count"])
          && m.readyInk == At(actions[j], ["coach_context", "my", "ready_ink"])
          && m.endSeq == At(actions[j], ["seq"]))
    && (m.targets.Some? <==> targets != [])
    && (m.targets.Some? ==>
          SeenIs(py, actions, targets, m.targets.value.0) && PlayedIs(py, actions, targets, m.targets.value.1))
  }

  lemma EndingBefore(py: Python, actions: seq<Json>, j: nat)
    requires actions != [] && !IsType(py, actions[|actions| - 1], "end_turn")
    ensures LastEnding(py, actions[..|actions| - 1], j) <==> LastEnding(py, actions, j)
  {
  }

  /** The loop finds the last action that ends the turn. */
  lemma {:induction false} LastEndFound(py: Python, actions: seq<Json>) returns (j: nat)
    ensures LastEnd(py, actions).Some? ==> LastEnding(py, actions, j) && LastEnd(py, actions) == Some(actions[j])
    ensures LastEnd(py, actions).None? ==> forall k :: 0 <= k < |actions| ==> !IsType(py, actions[k], "end_turn")
  {
    j := 0;
    if actions == [] {
    } else {
      var n := |actions| - 1;
      OneStep(actions[n], "type");
      if IsType(py, actions[n], "end_turn") {
        j := n;
      } else {
        j := LastEndFound(py, actions[..n]);
        EndingBefore(py, actions, j);
        assert forall k :: 0 <= k < n ==> actions[..n][k] == actions[k];
      }
    }
  }

  lemma LastEndExactly(py: Python, actions: seq<Json>)
    ensures LastEnd(py, actions).Some? <==> exists j: nat :: LastEnding(py, actions, j)
    ensures forall j: nat :: LastEnding(py, actions, j) ==> LastEnd(py, actions) == Some(actions[j])
  {
    var found := LastEndFound(py, actions);
    forall j: nat | LastEnding(py, actions, j)
      ensures LastEnd(py, actions) == Some(actions[j])
    {
    }
  }

  lemma SightingMeans(py: Python, action: Json, targets: seq<string>)
    ensures Sighting(py, action, targets) == TargetPresent(py, Hand(action), targets)
    ensures HasType(py, action, "play") <==> IsType(py, action, "play")
  {
    ThreeSteps(action, "coach_context", "my", "hand");
    EmptyIsNothing(Field(action, "coach_context"), "my");
    OneStep(action, "type");
  }

  lemma SeenExactly(py: Python, actions: seq<Json>, targets: seq<string>)
    ensures SeenIs(py, actions, targets, Seen(py, actions, targets))
  {
    forall i | 0 <= i < |actions|
      ensures Sighting(py, actions[i], targets) == Yes
         <==> CardList(Hand(actions[i])) && Among(py, Hand(actions[i]).items, targets)
      ensures Sighting(py, actions[i], targets) == No
         <==> CardList(Hand(actions[i])) && Told(Hand(actions[i]).items) && !Among(py, Hand(actions[i]).items, targets)
    {
      SightingMeans(py, actions[i], targets);
      PresentExactly(py, Hand(actions[i]), targets);
    }
  }

  /** A play is searched as a list of one card. */
  lemma PlayExactly(py: Python, action: Json, targets: seq<string>)
    ensures Play(py, action, targets) == Yes <==> OfTarget(py, action, targets)
    ensures Play(py, action, targets) == No
       <==> Truthy(At(action, ["card_id"])) && Truthy(At(action, ["card_name"])) && !OfTarget(py, action, targets)
  {
    OneStep(action, "card_id");
    OneStep(action, "card_name");
    var card := Obj(map["id" := Field(action, "card_id"), "name" := Field(action, "card_name")]);
    OneStep(card, "id");
    OneStep(card, "name");
    PresentExactly(py, Arr([card]), targets);
    assert [card][0] == card;
  }

  lemma PlayedExactly(py: Python, actions: seq<Json>, targets: seq<string>)
    ensures var played := Played(py, actions, targets);
            PlayedIs(py, actions, targets, if LastEnd(py, actions).Some? || played == Yes then played else Unknown)
  {
    LastEndExactly(py, actions);
    forall i | 0 <= i < |actions|
      ensures HasType(py, actions[i], "play") <==> IsType(py, actions[i], "play")
      ensures Play(py, actions[i], targets) == Yes <==> OfTarget(py, actions[i], targets)
      ensures Play(py, actions[i], targets) == No
         <==> Truthy(At(actions[i], ["card_id"])) && Truthy(At(actions[i], ["card_name"]))
              && !OfTarget(py, actions[i], targets)
    {
      SightingMeans(py, actions[i], targets);
      PlayExactly(py, actions[i], targets);
    }
  }

  lemma EndMeans(action: Json)
    ensures AtEnd(Some(action))
         == (At(action, ["coach_context", "my", "ink_count"]), At(action, ["coach_context", "my", "ready_ink"]), At(action, ["seq"]))
  {
    ThreeSteps(action, "coach_context", "my", "ink_count");
    ThreeSteps(action, "coach_context", "my", "ready_ink");
    OneStep(action, "seq");
    EmptyIsNothing(Field(action, "coach_context"), "my");
    EmptyIsNothing(Field(Context(action), "my"), "ink_count");
    EmptyIsNothing(Field(Context(action), "my"), "ready_ink");
  }

  lemma MetricExactly(py: Python, number: nat, actions: seq<Json>, targets: seq<string>)
    ensures Describes(py, actions, targets, number, MetricOf(py, number, actions, targets))
  {
    LastEndExactly(py, actions);
    SeenExactly(py, actions, targets);
    PlayedExactly(py, actions, targets);
    forall j: nat | LastEnding(py, actions, j)
      ensures AtEnd(LastEnd(py, actions)) == AtEnd(Some(actions[j]))
      ensures AtEnd(Some(actions[j])) == (At(actions[j], ["coach_context", "my", "ink_count"]),
                                         At(actions[j], ["coach_context", "my", "ready_ink"]), At(actions[j], ["seq"]))
    {
      EndMeans(actions[j]);
    }
  }

  // ---------------------------------------------------------------- all metrics

  ghost predicate TargetsIs(py: Python, cards: Json, targets: seq<string>, answer: Tri) {
    && (answer == Yes <==> CardList(cards) && Among(py, cards.items, targets))
    && (answer == No <==> CardList(cards) && Told(cards.items) && !Among(py, cards.items, targets))
  }

  /** What is said of the hand: nothing but that it is unknown, unless the mulligan is borne out. */
  ghost predicate HandIs(py: Python, n: Evidence, targets: seq<string>, count: Option<int>, uninkables: Option<nat>,
                         hand: Option<HandTargets>)
  {
    && (forall c :: count == Some(c) <==> BorneOut(py, n, c))
    && (hand.Some? <==> targets != [])
    && (count.None? ==> uninkables.None? && (hand.Some? ==> hand.value == HandTargets(Unknown, Unknown, Unknown)))
    && (count.Some? ==>
          && In(n, ["mulligan", "kept"]).Arr? && In(n, ["mulligan", "drawn"]).Arr?
          && var cards := Opening(n);
             && (uninkables.Some? <==> forall i :: 0 <= i < |cards| ==> At(cards[i], ["inkable"]).Bool?)
             && (uninkables.Some? ==> uninkables.value == |Uninkable(cards)|)
             && (hand.Some? ==>
                   && TargetsIs(py, In(n, ["starting_hand"]), targets, hand.value.initial)
                   && TargetsIs(py, In(n, ["mulligan", "kept"]), targets, hand.value.kept)
                   && TargetsIs(py, Arr(cards), targets, hand.value.post)))
  }

  lemma UninkablesExactly(cards: seq<Json>)
    ensures Uninkables(Some(cards)).Some? <==> forall i :: 0 <= i < |cards| ==> At(cards[i], ["inkable"]).Bool?
    ensures Uninkables(Some(cards)).Some? ==> Uninkables(Some(cards)).value == |Uninkable(cards)|
  {
    UninkableCounted(cards);
    forall i | 0 <= i < |cards|
      ensures At(cards[i], ["inkable"]) == Field(cards[i], "inkable")
    {
      OneStep(cards[i], "inkable");
    }
  }

  lemma PostMeans(py: Python, n: Evidence)
    requires Count(py, n).Some?
    ensures In(n, ["mulligan", "kept"]).Arr? && In(n, ["mulligan", "drawn"]).Arr? && Post(py, n) == Some(Opening(n))
  {
    EntriesMean(n);
  }

  lemma TargetsExactly(py: Python, n: Evidence, targets: seq<string>)
    requires Count(py, n).Some?
    ensures In(n, ["mulligan", "kept"]).Arr? && In(n, ["mulligan", "drawn"]).Arr?
    ensures var hand := TargetsOf(py, n, targets);
            && TargetsIs(py, In(n, ["starting_hand"]), targets, hand.initial)
            && TargetsIs(py, In(n, ["mulligan", "kept"]), targets, hand.kept)
            && TargetsIs(py, Arr(Opening(n)), targets, hand.post)
  {
    EntriesMean(n);
    PostMeans(py, n);
    PresentExactly(py, In(n, ["starting_hand"]), targets);
    PresentExactly(py, In(n, ["mulligan", "kept"]), targets);
    PresentExactly(py, Arr(Opening(n)), targets);
  }

  lemma HandExactly(py: Python, n: Evidence, targets: seq<string>)
    ensures HandIs(py, n, targets, Count(py, n), Uninkables(Post(py, n)),
                   if targets == [] then None else Some(TargetsOf(py, n, targets)))
  {
    forall c
      ensures Count(py, n) == Some(c) <==> BorneOut(py, n, c)
    {
      CountExactly(py, n, c);
    }
    if Count(py, n).Some? {
      PostMeans(py, n);
      UninkablesExactly(Opening(n));
      TargetsExactly(py, n, targets);
    }
  }

  lemma {:induction false} FirstOfExactly<T>(turns: seq<seq<Json>>, n: nat, f: (nat, seq<Json>) -> T)
    requires n <= |turns|
    ensures |FirstOf(turns, n, f)| == n && forall k :: 0 <= k < n ==> FirstOf(turns, n, f)[k] == f(k + 1, turns[k])
  {
    if n == 0 {
    } else {
      FirstOfExactly(turns, n - 1, f);
    }
  }

  lemma TurnMetricsExactly(py: Python, turns: seq<seq<Json>>, targets: seq<string>)
    ensures var metrics := TurnMetrics(py, turns, targets);
            && |metrics| == (if |turns| <= 3 then |turns| else 3)
            && forall k :: 0 <= k < |metrics| ==> Describes(py, turns[k], targets, k + 1, metrics[k])
  {
    FirstOfExactly(turns, Limit(turns), MetricFor(py, targets));
    forall k | 0 <= k < Limit(turns)
      ensures Describes(py, turns[k], targets, k + 1, MetricFor(py, targets)(k + 1, turns[k]))
    {
      MetricExactly(py, k + 1, turns[k], targets);
    }
  }

  /**
   The metrics of any evidence: there are some exactly if it has turns; the hand is described
   as the mulligan bears it out, and the first three turns, numbered from 1, as their actions
   say.
   */
  lemma MetricsExactly(py: Python, n: Evidence, targets: seq<string>)
    ensures var m, turns := MetricsOf(py, n, targets), Turns(py, n);
            && (m.Eligible? <==> turns.Some?)
            && (m.Eligible? ==>
                  && HandIs(py, n, targets, m.mulliganCount, m.postUninkables, m.targets)
                  && |m.turns| == (if |turns.value| <= 3 then |turns.value| else 3)
                  && forall k :: 0 <= k < |m.turns| ==> Describes(py, turns.value[k], targets, k + 1, m.turns[k]))
  {
    if Turns(py, n).Some? {
      HandExactly(py, n, targets);
      TurnMetricsExactly(py, Turns(py, n).value, targets);
    }
  }
}
