/** The practice metrics: a player's turns, the opening hand and what was seen and played of the targets. */
module Practices {
  import opened Wrappers
  import opened Jsons

  /** One normalised replay: its top-level entries. */
  type Evidence = map<string, Json>

  function Entry(n: Evidence, key: string): Json { if key in n then n[key] else Null }

  /**
   What the metrics borrow from Python: `rep` names the class of values equal to one
   another (1, 1.0 and true are one class), and `cardKey` is `card_key(str(value))`.
   */
  datatype Python = Python(rep: Json -> Json, cardKey: Json -> string)

  predicate Same(py: Python, a: Json, b: Json) { py.rep(a) == py.rep(b) }

  predicate HasType(py: Python, action: Json, name: string) { Same(py, Field(action, "type"), Str(name)) }

  // ---------------------------------------------------------------- targets

  datatype Tri = Yes | No | Unknown

  function Text(j: Json): Json { if Truthy(j) then j else Str("") }

  predicate Hits(py: Python, card: Json, targets: seq<string>) {
    exists i :: 0 <= i < |targets| &&
      (|| py.cardKey(Str(targets[i])) == py.cardKey(Text(Field(card, "id")))
       || py.cardKey(Str(targets[i])) == py.cardKey(Text(Field(card, "name"))))
  }

  predicate Named(card: Json) { Truthy(Field(card, "id")) && Truthy(Field(card, "name")) }

  /** `target_present`: missing identities cannot establish absence. */
  function TargetPresent(py: Python, cards: Json, targets: seq<string>): Tri {
    if !cards.Arr? || (exists i :: 0 <= i < |cards.items| && !cards.items[i].Obj?) then Unknown
    else if exists i :: 0 <= i < |cards.items| && Hits(py, cards.items[i], targets) then Yes
    else if exists i :: 0 <= i < |cards.items| && !Named(cards.items[i]) then Unknown
    else No
  }

  // ---------------------------------------------------------------- turns

  function Context(action: Json): Json { OrEmpty(Field(action, "coach_context")) }

  function Actions(n: Evidence): seq<Json> {
    var actions := Entry(n, "effective_actions");
    if actions.Arr? then actions.items else []
  }

  function Active(py: Python, action: Json): Json {
    var active := Field(action, "active_player");
    if active == Null && Same(py, Field(Context(action), "status"), Str("playing")) then Field(Context(action), "current_player")
    else active
  }

  /** `isinstance(label, int)`: a boolean is an integer too. */
  predicate IsInt(j: Json) { j.Int? || j.Bool? }

  /** The state of the loop; `previous` is the segment last seen. */
  datatype Walk = Walk(turns: seq<seq<Json>>, previous: Option<(Json, Json)>, started: bool)

  predicate Skipped(py: Python, action: Json) {
    Truthy(Field(action, "undone")) || Active(py, action) == Null || !IsInt(Field(action, "gameplay_turn"))
  }

  predicate NewSegment(py: Python, w: Walk, active: Json, turnLabel: Json) {
    w.previous.None? || !Same(py, active, w.previous.value.0) || !Same(py, turnLabel, w.previous.value.1)
  }

  predicate Decision(py: Python, action: Json) {
    Field(action, "actor_is_perspective") == Bool(true) && !HasType(py, action, "undo")
  }

  function AddToLast(turns: seq<seq<Json>>, action: Json): seq<seq<Json>> {
    if turns == [] then turns else turns[|turns| - 1 := turns[|turns| - 1] + [action]]
  }

  /** A decision of the active player, who may be taking a new turn. */
  function Enter(py: Python, perspective: Json, w: Walk, active: Json, turnLabel: Json, action: Json, decision: bool): Walk {
    var mine, changed := Same(py, active, perspective), NewSegment(py, w, active, turnLabel);
    var turns := if changed && mine then w.turns + [[]] else w.turns;
    Walk(if mine && decision then AddToLast(turns, action) else turns,
         if changed then Some((active, turnLabel)) else w.previous,
         true)
  }

  /** One action of the loop; none when the replay does not begin at turn one of the first player. */
  function Step(py: Python, perspective: Json, first: Json, w: Walk, action: Json): Option<Walk> {
    if Skipped(py, action) then Some(w)
    else
      var active, turnLabel := Active(py, action), Field(action, "gameplay_turn");
      if !w.started && (!Same(py, active, first) || !Same(py, turnLabel, Int(1))) then None
      else Some(Enter(py, perspective, w, active, turnLabel, action, Decision(py, action)))
  }

  function WalkAll(py: Python, perspective: Json, first: Json, actions: seq<Json>): Option<Walk> {
    if actions == [] then Some(Walk([], None, false))
    else
      var before := WalkAll(py, perspective, first, actions[..|actions| - 1]);
      if before.None? then None else Step(py, perspective, first, before.value, actions[|actions| - 1])
  }

  predicate Whole(n: Evidence) {
    var game := OrEmpty(Entry(n, "game"));
    var names := OrEmpty(Field(game, "player_names"));
    && Field(game, "perspective") != Null && Field(game, "first_player") != Null
    && !Truthy(Entry(n, "parser_warnings")) && (Truthy(names) ==> Size(names) == 2)
  }

  predicate SawMulligan(py: Python, actions: seq<Json>) {
    exists i :: 0 <= i < |actions|
      && HasType(py, actions[i], "mulligan") && Field(actions[i], "actor_is_perspective") == Bool(true)
  }

  function Turns(py: Python, n: Evidence): Option<seq<seq<Json>>> {
    var game := OrEmpty(Entry(n, "game"));
    if !Whole(n) || !SawMulligan(py, Actions(n)) then None
    else
      var w := WalkAll(py, Field(game, "perspective"), Field(game, "first_player"), Actions(n));
      if w.None? || !w.value.started then None else Some(w.value.turns)
  }

  lemma {:induction false} WalkNoneStays(py: Python, perspective: Json, first: Json, actions: seq<Json>, k: nat)
    requires k <= |actions| && WalkAll(py, perspective, first, actions[..k]).None?
    ensures WalkAll(py, perspective, first, actions).None?
  {
    if k < |actions| {
      assert actions[..|actions| - 1][..k] == actions[..k];
      WalkNoneStays(py, perspective, first, actions[..|actions| - 1], k);
    } else {
      assert actions[..k] == actions;
    }
  }

  /** The last turn is there whenever the program adds to it: a segment of the player's own opened one. */
  predicate Anchored(py: Python, perspective: Json, turns: seq<seq<Json>>, previous: Option<(Json, Json)>) {
    previous.Some? && Same(py, previous.value.0, perspective) ==> turns != []
  }

  method EnterSegment(py: Python, perspective: Json, active: Json, turnLabel: Json, action: Json, decision: bool,
                      turns: seq<seq<Json>>, previous: Option<(Json, Json)>, ghost started: bool)
    returns (turns': seq<seq<Json>>, previous': Option<(Json, Json)>)
    requires Anchored(py, perspective, turns, previous)
    ensures Walk(turns', previous', true)
         == Enter(py, perspective, Walk(turns, previous, started), active, turnLabel, action, decision)
    ensures Anchored(py, perspective, turns', previous')
  {
    turns', previous' := turns, previous;
    var mine := Same(py, active, perspective);
    if previous.None? || !Same(py, active, previous.value.0) || !Same(py, turnLabel, previous.value.1) {
      if mine {
        turns' := turns' + [[]];
      }
      previous' := Some((active, turnLabel));
    }
    ghost var opens := NewSegment(py, Walk(turns, previous, started), active, turnLabel) && mine;
    assert turns' == if opens then turns + [[]] else turns;
    if mine && decision {
      assert turns' != [];
      turns' := turns'[|turns'| - 1 := turns'[|turns'| - 1] + [action]];
    }
  }

  /** The body of the loop; it stops when the replay does not begin at turn one of the first player. */
  method TakeAction(py: Python, perspective: Json, first: Json, action: Json,
                    turns: seq<seq<Json>>, previous: Option<(Json, Json)>, started: bool)
    returns (ok: bool, turns': seq<seq<Json>>, previous': Option<(Json, Json)>, started': bool)
    requires Anchored(py, perspective, turns, previous)
    ensures Step(py, perspective, first, Walk(turns, previous, started), action)
         == if ok then Some(Walk(turns', previous', started')) else None
    ensures Anchored(py, perspective, turns', previous')
  {
    ok, turns', previous', started' := true, turns, previous, started;
    if Skipped(py, action) {
      return;
    }
    var active, turnLabel := Active(py, action), Field(action, "gameplay_turn");
    if !started && (!Same(py, active, first) || !Same(py, turnLabel, Int(1))) {
      ok := false;
      return;
    }
    started' := true;
    turns', previous' :=
      EnterSegment(py, perspective, active, turnLabel, action, Decision(py, action), turns, previous, started);
  }

  method WalkActions(py: Python, perspective: Json, first: Json, actions: seq<Json>) returns (r: Option<Walk>)
    ensures r == WalkAll(py, perspective, first, actions)
  {
    var turns: seq<seq<Json>>, previous: Option<(Json, Json)>, started := [], None, false;
    for i := 0 to |actions|
      invariant WalkAll(py, perspective, first, actions[..i]) == Some(Walk(turns, previous, started))
      invariant Anchored(py, perspective, turns, previous)
    {
      assert actions[..i + 1][..i] == actions[..i];
      var ok;
      ok, turns, previous, started := TakeAction(py, perspective, first, actions[i], turns, previous, started);
      if !ok {
        WalkNoneStays(py, perspective, first, actions, i + 1);
        return None;
      }
    }
    assert actions[..|actions|] == actions;
    return Some(Walk(turns, previous, started));
  }

  /** `player_turns`. */
  method PlayerTurns(py: Python, n: Evidence) returns (r: Option<seq<seq<Json>>>)
    ensures r == Turns(py, n)
  {
    var game := OrEmpty(Entry(n, "game"));
    if !Whole(n) {
      return None;
    }
    if !SawMulligan(py, Actions(n)) {
      return None;
    }
    var walk := WalkActions(py, Field(game, "perspective"), Field(game, "first_player"), Actions(n));
    return if walk.Some? && walk.value.started then Some(walk.value.turns) else None;
  }

  // ---------------------------------------------------------------- the opening hand

  predicate Identified(group: Json) {
    group.Arr? && forall i :: 0 <= i < |group.items| ==> group.items[i].Obj? && Truthy(Field(group.items[i], "id"))
  }

  predicate StringIds(group: Json) {
    group.Arr? && forall i :: 0 <= i < |group.items| ==>
      group.items[i].Obj? && Field(group.items[i], "id").Str? && Field(group.items[i], "id") != Str("")
  }

  function IdList(py: Python, cards: seq<Json>): (ids: seq<Json>)
    ensures |ids| == |cards| && forall i :: 0 <= i < |cards| ==> ids[i] == py.rep(Field(cards[i], "id"))
  {
    seq(|cards|, i requires 0 <= i < |cards| => py.rep(Field(cards[i], "id")))
  }

  /** Sizes and card counts agree: seven cards, as many drawn as sent back, and the first hand is what was kept and sent. */
  predicate Balanced(py: Python, initial: seq<Json>, kept: seq<Json>, sent: seq<Json>, drawn: seq<Json>, count: int) {
    && |initial| == 7 && |sent| == |drawn| == count && |kept| + count == 7
    && multiset(IdList(py, initial)) == multiset(IdList(py, kept + sent))
  }

  function Mulligan(n: Evidence): Json { OrEmpty(Entry(n, "mulligan")) }

  function Group(n: Evidence, key: string): Json { Field(Mulligan(n), key) }

  /** The mulligan count, recomputed from evidence that must add up. */
  function Count(py: Python, n: Evidence): Option<int> {
    var initial, kept, sent, drawn := Entry(n, "starting_hand"), Group(n, "kept"), Group(n, "sent_back"), Group(n, "drawn");
    var count := Group(n, "count");
    if Identified(initial) && Identified(kept) && Identified(sent) && Identified(drawn)
       && count.Int? && 0 <= count.n <= 7 && Balanced(py, initial.items, kept.items, sent.items, drawn.items, count.n)
    then Some(count.n) else None
  }

  /** The hand after the mulligan. */
  function Post(py: Python, n: Evidence): Option<seq<Json>> {
    if Count(py, n).None? then None else Some(Group(n, "kept").items + Group(n, "drawn").items)
  }

  function CountUninkable(cards: seq<Json>): nat {
    if cards == [] then 0
    else CountUninkable(cards[..|cards| - 1]) + if Field(cards[|cards| - 1], "inkable") == Bool(false) then 1 else 0
  }

  function Uninkables(post: Option<seq<Json>>): Option<nat> {
    if post.Some? && forall i :: 0 <= i < |post.value| ==> Field(post.value[i], "inkable").Bool?
    then Some(CountUninkable(post.value))
    else None
  }

  datatype HandTargets = HandTargets(initial: Tri, kept: Tri, post: Tri)

  function TargetsOf(py: Python, n: Evidence, targets: seq<string>): HandTargets {
    if Count(py, n).None? then HandTargets(Unknown, Unknown, Unknown)
    else HandTargets(TargetPresent(py, Entry(n, "starting_hand"), targets), TargetPresent(py, Group(n, "kept"), targets),
                     TargetPresent(py, Arr(Post(py, n).value), targets))
  }

  // ---------------------------------------------------------------- metrics

  /** What was seen and played of the targets is reported only when there are targets. */
  datatype TurnMetric = TurnMetric(number: nat, complete: bool, ink: Json, readyInk: Json, endSeq: Json,
                                   targets: Option<(Tri, Tri)>)

  datatype Metrics =
    | Ineligible
    | Eligible(mulliganCount: Option<int>, postUninkables: Option<nat>, targets: Option<HandTargets>, turns: seq<TurnMetric>)

  function LastEnd(py: Python, actions: seq<Json>): Option<Json> {
    if actions == [] then None
    else if HasType(py, actions[|actions| - 1], "end_turn") then Some(actions[|actions| - 1])
    else LastEnd(py, actions[..|actions| - 1])
  }

  function Sighting(py: Python, action: Json, targets: seq<string>): Tri {
    TargetPresent(py, Field(Field(Context(action), "my"), "hand"), targets)
  }

  function Seen(py: Python, actions: seq<Json>, targets: seq<string>): Tri {
    if exists i :: 0 <= i < |actions| && Sighting(py, actions[i], targets) == Yes then Yes
    else if actions != [] && forall i :: 0 <= i < |actions| ==> Sighting(py, actions[i], targets) == No then No
    else Unknown
  }

  function Play(py: Python, action: Json, targets: seq<string>): Tri {
    TargetPresent(py, Arr([Obj(map["id" := Field(action, "card_id"), "name" := Field(action, "card_name")])]), targets)
  }

  function Played(py: Python, actions: seq<Json>, targets: seq<string>): Tri {
    if exists i :: 0 <= i < |actions| && HasType(py, actions[i], "play") && Play(py, actions[i], targets) == Yes then Yes
    else if exists i :: 0 <= i < |actions| && HasType(py, actions[i], "play") && Play(py, actions[i], targets) == Unknown
    then Unknown
    else No
  }

  /** Ink, ready ink and number of the action that ended the turn. */
  function AtEnd(end: Option<Json>): (Json, Json, Json) {
    var mine := if end.None? then Obj(map[]) else OrEmpty(Field(Context(end.value), "my"));
    (Field(mine, "ink_count"), Field(mine, "ready_ink"), if end.None? then Null else Field(end.value, "seq"))
  }

  function Metric(number: nat, complete: bool, atEnd: (Json, Json, Json), seen: Tri, played: Tri, search: bool): TurnMetric {
    TurnMetric(number, complete, atEnd.0, atEnd.1, atEnd.2,
               if search then Some((seen, if complete || played == Yes then played else Unknown)) else None)
  }

  function MetricOf(py: Python, number: nat, actions: seq<Json>, targets: seq<string>): TurnMetric {
    Metric(number, LastEnd(py, actions).Some?, AtEnd(LastEnd(py, actions)), Seen(py, actions, targets),
           Played(py, actions, targets), targets != [])
  }

  function MetricFor(py: Python, targets: seq<string>): (nat, seq<Json>) -> TurnMetric {
    (number: nat, actions: seq<Json>) => MetricOf(py, number, actions, targets)
  }

  /** What `f` makes of the first `n` turns, which it is given with their numbers from 1. */
  function FirstOf<T>(turns: seq<seq<Json>>, n: nat, f: (nat, seq<Json>) -> T): seq<T>
    requires n <= |turns|
  {
    if n == 0 then [] else FirstOf(turns, n - 1, f) + [f(n, turns[n - 1])]
  }

  function Limit(turns: seq<seq<Json>>): nat { if |turns| < 3 then |turns| else 3 }

  /** The first three turns. */
  function TurnMetrics(py: Python, turns: seq<seq<Json>>, targets: seq<string>): seq<TurnMetric> {
    FirstOf(turns, Limit(turns), MetricFor(py, targets))
  }

  function MetricsOf(py: Python, n: Evidence, targets: seq<string>): Metrics {
    var turns := Turns(py, n);
    if turns.None? then Ineligible
    else Eligible(Count(py, n), Uninkables(Post(py, n)), if targets == [] then None else Some(TargetsOf(py, n, targets)),
                  TurnMetrics(py, turns.value, targets))
  }

  method FirstTurns<T>(turns: seq<seq<Json>>, f: (nat, seq<Json>) -> T) returns (r: seq<T>)
    ensures r == FirstOf(turns, Limit(turns), f)
  {
    r := [];
    for i := 0 to Limit(turns)
      invariant r == FirstOf(turns, i, f)
    {
      r := r + [f(i + 1, turns[i])];
    }
  }

  /** `opening_metrics`, filling in one entry after another. */
  method OpeningMetrics(py: Python, n: Evidence, targets: seq<string>) returns (r: Metrics)
    ensures r == MetricsOf(py, n, targets)
  {
    var turns := PlayerTurns(py, n);
    if turns.None? {
      return Ineligible;
    }
    var count := Count(py, n);
    var post: Option<seq<Json>> := None;
    if count.Some? {
      post := Some(Group(n, "kept").items + Group(n, "drawn").items);
    }
    var hand: Option<HandTargets> := None;
    if targets != [] {
      hand := Some(TargetsOf(py, n, targets));
    }
    var first := FirstTurns(turns.value, MetricFor(py, targets));
    return Eligible(count, Uninkables(post), hand, first);
  }
}
