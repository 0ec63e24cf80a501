/** The compact read model of an opening, and the proof that no practice metric can tell it from the full evidence. */
module Projections {
  import opened Wrappers
  import opened Jsons
  import opened Practices

  // ---------------------------------------------------------------- compaction

  function Restrict(fields: map<string, Json>, keys: set<string>): map<string, Json> {
    map k | k in fields && k in keys :: fields[k]
  }

  const CARD_KEYS := {"id", "name", "inkable"}
  const ACTION_KEYS := {"seq", "type", "active_player", "gameplay_turn", "actor_is_perspective", "undone", "card_id", "card_name"}
  const GROUP_KEYS := {"kept", "sent_back", "drawn"}

  function CompactCard(card: Json): Json { if card.Obj? then Obj(Restrict(card.fields, CARD_KEYS)) else card }

  function CompactList(cards: seq<Json>): (r: seq<Json>)
    ensures |r| == |cards| && forall i :: 0 <= i < |cards| ==> r[i] == CompactCard(cards[i])
  {
    seq(|cards|, i requires 0 <= i < |cards| => CompactCard(cards[i]))
  }

  function CompactCards(value: Json): Json { if value.Arr? then Arr(CompactList(value.items)) else value }

  function CompactMulligan(mulligan: Json): Json {
    if !mulligan.Obj? then mulligan
    else Obj(map k | k in mulligan.fields :: if k in GROUP_KEYS then CompactCards(mulligan.fields[k]) else mulligan.fields[k])
  }

  function CompactMine(mine: Json): Json {
    var kept := Restrict(Fields(mine), {"ink_count", "ready_ink"});
    Obj(if "hand" in Fields(mine) then kept["hand" := CompactCards(Fields(mine)["hand"])] else kept)
  }

  function CompactAction(action: Json): Json {
    var context := Context(action);
    var mine := OrEmpty(Field(context, "my"));
    Obj(Restrict(Fields(action), ACTION_KEYS)
        ["coach_context" := Obj(Restrict(Fields(context), {"status", "current_player"})["my" := CompactMine(mine)])])
  }

  function CompactActions(actions: seq<Json>): (r: seq<Json>)
    ensures |r| == |actions| && forall i :: 0 <= i < |actions| ==> r[i] == CompactAction(actions[i])
  {
    seq(|actions|, i requires 0 <= i < |actions| => CompactAction(actions[i]))
  }

  function Compact(n: Evidence): Evidence {
    map["game" := Entry(n, "game"),
        "parser_warnings" := Entry(n, "parser_warnings"),
        "starting_hand" := CompactCards(Entry(n, "starting_hand")),
        "mulligan" := CompactMulligan(Entry(n, "mulligan")),
        "effective_actions" := Arr(CompactActions(Actions(n)))]
  }

  /** `compact_opening`. */
  method CompactOpening(n: Evidence) returns (evidence: Evidence)
    ensures evidence == Compact(n)
  {
    evidence := map["game" := Entry(n, "game"), "parser_warnings" := Entry(n, "parser_warnings")];
    evidence := evidence["starting_hand" := CompactCards(Entry(n, "starting_hand"))];
    evidence := evidence["mulligan" := CompactMulligan(Entry(n, "mulligan"))];
    var actions, source := [], Actions(n);
    for i := 0 to |source|
      invariant actions == CompactActions(source)[..i]
    {
      var action := source[i];
      var context := Context(action);
      var mine := OrEmpty(Field(context, "my"));
      var compactMine := Restrict(Fields(mine), {"ink_count", "ready_ink"});
      if "hand" in Fields(mine) {
        compactMine := compactMine["hand" := CompactCards(Fields(mine)["hand"])];
      }
      var compactContext := Restrict(Fields(context), {"status", "current_player"})["my" := Obj(compactMine)];
      actions := actions + [Obj(Restrict(Fields(action), ACTION_KEYS)["coach_context" := Obj(compactContext)])];
    }
    assert CompactActions(source)[..|source|] == CompactActions(source);
    evidence := evidence["effective_actions" := Arr(actions)];
  }

  // ---------------------------------------------------------------- the stored mulligan count

  /** No warnings, a perspective, and two players if they are named. */
  predicate Trusted(n: Evidence) {
    var game := OrEmpty(Entry(n, "game"));
    var names := OrEmpty(Field(game, "player_names"));
    && !Truthy(Entry(n, "parser_warnings")) && game.Obj? && Field(game, "perspective") != Null
    && (Truthy(names) ==> Size(names) == 2)
  }

  function StringCount(py: Python, initial: Json, kept: Json, sent: Json, drawn: Json, count: Json): Option<int> {
    if count.Int? && 0 <= count.n <= 7 && StringIds(initial) && StringIds(kept) && StringIds(sent) && StringIds(drawn)
       && Balanced(py, initial.items, kept.items, sent.items, drawn.items, count.n)
    then Some(count.n) else None
  }

  /** `validated_mulligan`: the count, from evidence without warnings whose every card id is a string. */
  function Validated(py: Python, n: Evidence): Option<int> {
    var mulligan := Entry(n, "mulligan");
    if !Trusted(n) || !mulligan.Obj? then None
    else StringCount(py, Entry(n, "starting_hand"), Field(mulligan, "kept"), Field(mulligan, "sent_back"),
                     Field(mulligan, "drawn"), Field(mulligan, "count"))
  }

  predicate AllStringIds(n: Evidence) {
    && StringIds(Entry(n, "starting_hand")) && StringIds(Group(n, "kept"))
    && StringIds(Group(n, "sent_back")) && StringIds(Group(n, "drawn"))
  }

  datatype ReadModel = ReadModel(version: nat, mulliganCount: Option<int>, decklist: Json, openingEvidence: Evidence)

  const PROJECTION_VERSION := 1

  function ProjectionValues(py: Python, n: Evidence): ReadModel {
    ReadModel(PROJECTION_VERSION, Validated(py, n), Entry(n, "decklist"), Compact(n))
  }

  // ---------------------------------------------------------------- cards

  lemma CardFields(card: Json)
    ensures forall k :: k in CARD_KEYS ==> Field(CompactCard(card), k) == Field(card, k)
    ensures CompactCard(card).Obj? <==> card.Obj?
    ensures CompactCard(CompactCard(card)) == CompactCard(card)
  {
    if card.Obj? {
      assert Restrict(Restrict(card.fields, CARD_KEYS), CARD_KEYS) == Restrict(card.fields, CARD_KEYS);
    }
  }

  lemma ListFields(cards: seq<Json>)
    ensures forall i :: 0 <= i < |cards| ==> (CompactList(cards)[i].Obj? <==> cards[i].Obj?)
    ensures forall i :: 0 <= i < |cards| ==> Field(CompactList(cards)[i], "id") == Field(cards[i], "id")
    ensures forall i :: 0 <= i < |cards| ==> Field(CompactList(cards)[i], "name") == Field(cards[i], "name")
    ensures forall i :: 0 <= i < |cards| ==> Field(CompactList(cards)[i], "inkable") == Field(cards[i], "inkable")
  {
    forall i | 0 <= i < |cards|
      ensures CompactList(cards)[i].Obj? <==> cards[i].Obj?
      ensures forall k :: k in CARD_KEYS ==> Field(CompactList(cards)[i], k) == Field(cards[i], k)
    {
      CardFields(cards[i]);
    }
  }

  /** Compacting cards hides nothing that a target search looks at. */
  lemma TargetPreserved(py: Python, cards: Json, targets: seq<string>)
    ensures TargetPresent(py, CompactCards(cards), targets) == TargetPresent(py, cards, targets)
  {
    if cards.Arr? {
      ListFields(cards.items);
      var compact := CompactList(cards.items);
      assert forall i :: 0 <= i < |compact| ==> (Hits(py, compact[i], targets) <==> Hits(py, cards.items[i], targets));
      assert forall i :: 0 <= i < |compact| ==> (Named(compact[i]) <==> Named(cards.items[i]));
    }
  }

  lemma IdentityPreserved(py: Python, cards: Json)
    ensures Identified(CompactCards(cards)) <==> Identified(cards)
    ensures StringIds(CompactCards(cards)) <==> StringIds(cards)
    ensures cards.Arr? ==> IdList(py, CompactCards(cards).items) == IdList(py, cards.items)
  {
    if cards.Arr? {
      ListFields(cards.items);
      var compact := CompactList(cards.items);
      assert forall i :: 0 <= i < |compact| ==> (compact[i].Obj? <==> cards.items[i].Obj?)
                                                && Field(compact[i], "id") == Field(cards.items[i], "id");
    }
  }

  lemma {:induction false} UninkablePreserved(cards: seq<Json>)
    ensures CountUninkable(CompactList(cards)) == CountUninkable(cards)
  {
    if cards == [] {
    } else {
      UninkablePreserved(cards[..|cards| - 1]);
      CardFields(cards[|cards| - 1]);
      assert CompactList(cards)[..|cards| - 1] == CompactList(cards[..|cards| - 1]);
    }
  }

  lemma UninkablesPreserved(post: seq<Json>)
    ensures Uninkables(Some(CompactList(post))) == Uninkables(Some(post))
  {
    ListFields(post);
    UninkablePreserved(post);
    assert forall i :: 0 <= i < |post| ==> Field(CompactList(post)[i], "inkable") == Field(post[i], "inkable");
  }

  lemma ListsJoin(a: seq<Json>, b: seq<Json>)
    ensures CompactList(a) + CompactList(b) == CompactList(a + b)
  {
  }

  // ---------------------------------------------------------------- the opening hand

  lemma GroupsCompact(n: Evidence)
    ensures forall k :: k in GROUP_KEYS ==> Group(Compact(n), k) == CompactCards(Group(n, k))
    ensures Group(Compact(n), "count") == Group(n, "count")
    ensures Entry(Compact(n), "starting_hand") == CompactCards(Entry(n, "starting_hand"))
  {
    var mulligan := Entry(n, "mulligan");
    if mulligan.Obj? {
      assert CompactMulligan(mulligan).fields.Keys == mulligan.fields.Keys;
      assert CompactMulligan(mulligan).fields == map[] <==> mulligan.fields == map[];
    }
  }

  lemma BalancePreserved(py: Python, initial: Json, kept: Json, sent: Json, drawn: Json, count: int)
    requires initial.Arr? && kept.Arr? && sent.Arr? && drawn.Arr?
    ensures Balanced(py, CompactCards(initial).items, CompactCards(kept).items, CompactCards(sent).items,
                     CompactCards(drawn).items, count)
       <==> Balanced(py, initial.items, kept.items, sent.items, drawn.items, count)
  {
    ListsJoin(kept.items, sent.items);
    IdentityPreserved(py, initial);
    IdentityPreserved(py, Arr(kept.items + sent.items));
  }

  lemma CountPreserved(py: Python, n: Evidence)
    ensures Count(py, Compact(n)) == Count(py, n)
  {
    GroupsCompact(n);
    var initial, kept, sent, drawn := Entry(n, "starting_hand"), Group(n, "kept"), Group(n, "sent_back"), Group(n, "drawn");
    IdentityPreserved(py, initial);
    IdentityPreserved(py, kept);
    IdentityPreserved(py, sent);
    IdentityPreserved(py, drawn);
    if initial.Arr? && kept.Arr? && sent.Arr? && drawn.Arr? && Group(n, "count").Int? {
      BalancePreserved(py, initial, kept, sent, drawn, Group(n, "count").n);
    }
  }

  lemma HandPreserved(py: Python, n: Evidence, targets: seq<string>)
    ensures Uninkables(Post(py, Compact(n))) == Uninkables(Post(py, n))
    ensures TargetsOf(py, Compact(n), targets) == TargetsOf(py, n, targets)
  {
    CountPreserved(py, n);
    GroupsCompact(n);
    if Count(py, n).Some? {
      var kept, drawn := Group(n, "kept"), Group(n, "drawn");
      ListsJoin(kept.items, drawn.items);
      UninkablesPreserved(kept.items + drawn.items);
      TargetPreserved(py, Entry(n, "starting_hand"), targets);
      TargetPreserved(py, kept, targets);
      TargetPreserved(py, Arr(kept.items + drawn.items), targets);
    }
  }

  lemma StringCountPreserved(py: Python, initial: Json, kept: Json, sent: Json, drawn: Json, count: Json)
    ensures StringCount(py, CompactCards(initial), CompactCards(kept), CompactCards(sent), CompactCards(drawn), count)
         == StringCount(py, initial, kept, sent, drawn, count)
  {
    IdentityPreserved(py, initial);
    IdentityPreserved(py, kept);
    IdentityPreserved(py, sent);
    IdentityPreserved(py, drawn);
    if initial.Arr? && kept.Arr? && sent.Arr? && drawn.Arr? && count.Int? {
      BalancePreserved(py, initial, kept, sent, drawn, count.n);
    }
  }

  /** Compaction does not change what the stored count is validated from. */
  lemma ValidatedPreserved(py: Python, n: Evidence)
    ensures Validated(py, Compact(n)) == Validated(py, n)
  {
    assert Trusted(Compact(n)) <==> Trusted(n);
    if Entry(n, "mulligan").Obj? {
      ObjectGroups(n);
      GroupsCompact(n);
      ObjectGroups(Compact(n));
      StringCountPreserved(py, Entry(n, "starting_hand"), Group(n, "kept"), Group(n, "sent_back"),
                           Group(n, "drawn"), Group(n, "count"));
    }
  }

  lemma ObjectGroups(n: Evidence)
    requires Entry(n, "mulligan").Obj?
    ensures forall k :: Field(Entry(n, "mulligan"), k) == Group(n, k)
  {
  }

  /** The opening adds up: four groups of identified cards, a count from 0 to 7, and sizes and cards that match. */
  predicate AddsUp(py: Python, n: Evidence) {
    var initial, kept, sent, drawn := Entry(n, "starting_hand"), Group(n, "kept"), Group(n, "sent_back"), Group(n, "drawn");
    var count := Group(n, "count");
    && Identified(initial) && Identified(kept) && Identified(sent) && Identified(drawn)
    && count.Int? && 0 <= count.n <= 7
    && Balanced(py, initial.items, kept.items, sent.items, drawn.items, count.n)
  }

  lemma StringsAreIdentified(group: Json)
    ensures StringIds(group) ==> Identified(group)
  {
  }

  /**
   For an eligible opening the stored count is the recomputed one, except exactly when the
   opening adds up but has a card id that is not a string: then only the recomputed one is there.
   */
  lemma StoredCountAgrees(py: Python, n: Evidence)
    requires Turns(py, n).Some?
    ensures Validated(py, n) == Count(py, n) <==> !AddsUp(py, n) || AllStringIds(n)
    ensures AddsUp(py, n) && !AllStringIds(n) ==> Validated(py, n).None? && Count(py, n) == Some(Group(n, "count").n)
    ensures Validated(py, n).Some? ==> Validated(py, n) == Count(py, n)
  {
    StringsAreIdentified(Entry(n, "starting_hand"));
    StringsAreIdentified(Group(n, "kept"));
    StringsAreIdentified(Group(n, "sent_back"));
    StringsAreIdentified(Group(n, "drawn"));
    assert Trusted(n);
    if Entry(n, "mulligan").Obj? {
      ObjectGroups(n);
    }
  }

  /** A card whose id is a number. */
  const NUMBERED_CARD := Obj(map["id" := Int(11)])

  /** A whole game opening: seven numbered cards, all of them kept, and the first player's mulligan. */
  const NUMBERED_OPENING: Evidence :=
    map["game" := Obj(map["perspective" := Int(1), "first_player" := Int(1)]),
        "starting_hand" := Arr(seq(7, i => NUMBERED_CARD)),
        "mulligan" := Obj(map["kept" := Arr(seq(7, i => NUMBERED_CARD)), "sent_back" := Arr([]), "drawn" := Arr([]),
                              "count" := Int(0)]),
        "effective_actions" := Arr([Obj(map["type" := Str("mulligan"), "actor_is_perspective" := Bool(true),
                                            "active_player" := Int(1), "gameplay_turn" := Int(1)])])]

  lemma NumberedIsEligible(py: Python)
    ensures Turns(py, NUMBERED_OPENING).Some?
  {
    var n := NUMBERED_OPENING;
    var actions := Actions(n);
    assert Whole(n);
    assert HasType(py, actions[0], "mulligan");
    assert actions[..0] == [];
    assert WalkAll(py, Int(1), Int(1), actions) == Step(py, Int(1), Int(1), Walk([], None, false), actions[0]);
  }

  lemma NumberedGroups()
    ensures var n, seven := NUMBERED_OPENING, Arr(seq(7, i => NUMBERED_CARD));
            && Entry(n, "starting_hand") == seven && Group(n, "kept") == seven
            && Group(n, "sent_back") == Arr([]) && Group(n, "drawn") == Arr([]) && Group(n, "count") == Int(0)
  {
  }

  lemma NumberedAddsUp(py: Python)
    ensures AddsUp(py, NUMBERED_OPENING) && !AllStringIds(NUMBERED_OPENING)
  {
    NumberedGroups();
    var seven := seq(7, i => NUMBERED_CARD);
    assert seven + [] == seven;
    assert Field(seven[0], "id") == Int(11);
  }

  /** With numbers for card ids the recomputed count is 0 and none is stored. */
  lemma StoredCountCanDiffer(py: Python)
    ensures Turns(py, NUMBERED_OPENING).Some?
    ensures Count(py, NUMBERED_OPENING) == Some(0) && Validated(py, NUMBERED_OPENING).None?
  {
    NumberedIsEligible(py);
    NumberedAddsUp(py);
    NumberedGroups();
    StoredCountAgrees(py, NUMBERED_OPENING);
  }

  // ---------------------------------------------------------------- actions

  /** Everything the metrics read from an action is still there. */
  lemma ActionPreserved(action: Json)
    ensures forall k :: k in ACTION_KEYS ==> Field(CompactAction(action), k) == Field(action, k)
  {
  }

  lemma ActivePreserved(py: Python, action: Json)
    ensures Active(py, CompactAction(action)) == Active(py, action)
  {
    ActionPreserved(action);
    ContextCompact(action);
  }

  lemma MinePreserved(action: Json)
    ensures var mine := OrEmpty(Field(Context(CompactAction(action)), "my"));
            var was := OrEmpty(Field(Context(action), "my"));
            && Field(mine, "ink_count") == Field(was, "ink_count") && Field(mine, "ready_ink") == Field(was, "ready_ink")
            && Field(mine, "hand") == CompactCards(Field(was, "hand"))
  {
    ContextCompact(action);
  }

  lemma ContextCompact(action: Json)
    ensures Context(CompactAction(action))
         == Obj(Restrict(Fields(Context(action)), {"status", "current_player"})
                ["my" := CompactMine(OrEmpty(Field(Context(action), "my")))])
  {
    var fields := CompactAction(action).fields;
    assert "my" in fields["coach_context"].fields;
  }

  lemma SkippedPreserved(py: Python, action: Json)
    ensures Skipped(py, CompactAction(action)) <==> Skipped(py, action)
    ensures Decision(py, CompactAction(action)) <==> Decision(py, action)
    ensures Field(CompactAction(action), "gameplay_turn") == Field(action, "gameplay_turn")
    ensures Active(py, CompactAction(action)) == Active(py, action)
  {
    ActionPreserved(action);
    ActivePreserved(py, action);
  }

  function CompactTurns(turns: seq<seq<Json>>): (r: seq<seq<Json>>)
    ensures |r| == |turns| && forall i :: 0 <= i < |turns| ==> r[i] == CompactActions(turns[i])
  {
    seq(|turns|, i requires 0 <= i < |turns| => CompactActions(turns[i]))
  }

  function CompactWalk(w: Walk): Walk { w.(turns := CompactTurns(w.turns)) }

  lemma TurnsGrow(turns: seq<seq<Json>>, action: Json)
    ensures CompactTurns(turns + [[]]) == CompactTurns(turns) + [[]]
    ensures CompactTurns(AddToLast(turns, action)) == AddToLast(CompactTurns(turns), CompactAction(action))
  {
    assert CompactActions([]) == [];
    if turns != [] {
      var last := turns[|turns| - 1];
      assert CompactActions(last + [action]) == CompactActions(last) + [CompactAction(action)];
    }
  }

  lemma StepPreserved(py: Python, perspective: Json, first: Json, w: Walk, action: Json)
    ensures var full := Step(py, perspective, first, w, action);
            Step(py, perspective, first, CompactWalk(w), CompactAction(action))
            == if full.None? then None else Some(CompactWalk(full.value))
  {
    SkippedPreserved(py, action);
    TurnsGrow(w.turns, action);
    TurnsGrow(w.turns + [[]], action);
  }

  lemma {:induction false} WalkPreserved(py: Python, perspective: Json, first: Json, actions: seq<Json>)
    ensures var full := WalkAll(py, perspective, first, actions);
            WalkAll(py, perspective, first, CompactActions(actions))
            == if full.None? then None else Some(CompactWalk(full.value))
  {
    if actions != [] {
      var front := actions[..|actions| - 1];
      WalkPreserved(py, perspective, first, front);
      assert CompactActions(actions)[..|front|] == CompactActions(front);
      var before := WalkAll(py, perspective, first, front);
      if before.Some? {
        StepPreserved(py, perspective, first, before.value, actions[|actions| - 1]);
      }
    } else {
      assert CompactTurns([]) == [];
    }
  }

  lemma MulliganSeen(py: Python, actions: seq<Json>)
    ensures SawMulligan(py, CompactActions(actions)) <==> SawMulligan(py, actions)
  {
    forall i | 0 <= i < |actions|
      ensures HasType(py, CompactActions(actions)[i], "mulligan") <==> HasType(py, actions[i], "mulligan")
      ensures Field(CompactActions(actions)[i], "actor_is_perspective") == Field(actions[i], "actor_is_perspective")
    {
      ActionPreserved(actions[i]);
    }
  }

  lemma WholePreserved(n: Evidence)
    ensures Whole(Compact(n)) <==> Whole(n)
    ensures Entry(Compact(n), "game") == Entry(n, "game")
    ensures Actions(Compact(n)) == CompactActions(Actions(n))
  {
  }

  /** The same turns with the same decisions in them. */
  lemma TurnsPreserved(py: Python, n: Evidence)
    ensures Turns(py, Compact(n)) == if Turns(py, n).None? then None else Some(CompactTurns(Turns(py, n).value))
  {
    var game, actions := OrEmpty(Entry(n, "game")), Actions(n);
    WholePreserved(n);
    TurnsOfActions(py, Field(game, "perspective"), Field(game, "first_player"), actions);
  }

  lemma TurnsOfActions(py: Python, perspective: Json, first: Json, actions: seq<Json>)
    ensures SawMulligan(py, CompactActions(actions)) <==> SawMulligan(py, actions)
    ensures var full := WalkAll(py, perspective, first, actions);
            var compact := WalkAll(py, perspective, first, CompactActions(actions));
            && (compact.None? <==> full.None?)
            && (full.Some? ==> compact.value.started == full.value.started && compact.value.turns == CompactTurns(full.value.turns))
  {
    MulliganSeen(py, actions);
    WalkPreserved(py, perspective, first, actions);
  }

  // ---------------------------------------------------------------- the metrics of a turn

  lemma SightingPreserved(py: Python, action: Json, targets: seq<string>)
    ensures Sighting(py, CompactAction(action), targets) == Sighting(py, action, targets)
    ensures Play(py, CompactAction(action), targets) == Play(py, action, targets)
    ensures HasType(py, CompactAction(action), "play") <==> HasType(py, action, "play")
  {
    ActionPreserved(action);
    MinePreserved(action);
    HandOrEmpty(Field(Context(action), "my"));
    HandOrEmpty(Field(Context(CompactAction(action)), "my"));
    TargetPreserved(py, Field(Field(Context(action), "my"), "hand"), targets);
  }

  lemma HandOrEmpty(mine: Json)
    ensures Field(OrEmpty(mine), "hand") == Field(mine, "hand")
  {
  }

  lemma {:induction false} LastEndPreserved(py: Python, actions: seq<Json>)
    ensures var end := LastEnd(py, actions);
            LastEnd(py, CompactActions(actions)) == if end.None? then None else Some(CompactAction(end.value))
  {
    if actions == [] {
    } else {
      var front := actions[..|actions| - 1];
      assert CompactActions(actions)[..|front|] == CompactActions(front);
      ActionPreserved(actions[|actions| - 1]);
      LastEndPreserved(py, front);
    }
  }

  lemma SeenPreserved(py: Python, actions: seq<Json>, targets: seq<string>)
    ensures Seen(py, CompactActions(actions), targets) == Seen(py, actions, targets)
    ensures Played(py, CompactActions(actions), targets) == Played(py, actions, targets)
  {
    var compact := CompactActions(actions);
    forall i | 0 <= i < |actions|
      ensures Sighting(py, compact[i], targets) == Sighting(py, actions[i], targets)
      ensures Play(py, compact[i], targets) == Play(py, actions[i], targets)
      ensures HasType(py, compact[i], "play") <==> HasType(py, actions[i], "play")
    {
      SightingPreserved(py, actions[i], targets);
    }
  }

  lemma EndPreserved(end: Option<Json>)
    ensures AtEnd(if end.None? then None else Some(CompactAction(end.value))) == AtEnd(end)
  {
    if end.Some? {
      ActionPreserved(end.value);
      MinePreserved(end.value);
    }
  }

  lemma EndOfTurnPreserved(py: Python, actions: seq<Json>)
    ensures LastEnd(py, CompactActions(actions)).Some? <==> LastEnd(py, actions).Some?
    ensures AtEnd(LastEnd(py, CompactActions(actions))) == AtEnd(LastEnd(py, actions))
  {
    LastEndPreserved(py, actions);
    EndPreserved(LastEnd(py, actions));
  }

  lemma MetricPreserved(py: Python, number: nat, actions: seq<Json>, targets: seq<string>)
    ensures MetricOf(py, number, CompactActions(actions), targets) == MetricOf(py, number, actions, targets)
  {
    EndOfTurnPreserved(py, actions);
    SeenPreserved(py, actions, targets);
  }

  lemma {:induction false} FirstOfSame<T>(turns: seq<seq<Json>>, turns': seq<seq<Json>>, n: nat, f: (nat, seq<Json>) -> T)
    requires n <= |turns| && n <= |turns'|
    requires forall k: nat :: k < n ==> f(k + 1, turns'[k]) == f(k + 1, turns[k])
    ensures FirstOf(turns', n, f) == FirstOf(turns, n, f)
  {
    if n == 0 {
    } else {
      FirstOfSame(turns, turns', n - 1, f);
      assert f(n - 1 + 1, turns'[n - 1]) == f(n - 1 + 1, turns[n - 1]);
    }
  }

  lemma TurnMetricsPreserved(py: Python, turns: seq<seq<Json>>, targets: seq<string>)
    ensures TurnMetrics(py, CompactTurns(turns), targets) == TurnMetrics(py, turns, targets)
  {
    var f := MetricFor(py, targets);
    forall k: nat | k < Limit(turns)
      ensures f(k + 1, CompactTurns(turns)[k]) == f(k + 1, turns[k])
    {
      MetricPreserved(py, k + 1, turns[k], targets);
    }
    FirstOfSame(turns, CompactTurns(turns), Limit(turns), f);
  }

  /** Every practice metric of the compact evidence is that of the full evidence, for every list of targets. */
  lemma MetricsPreserved(py: Python, n: Evidence, targets: seq<string>)
    ensures MetricsOf(py, Compact(n), targets) == MetricsOf(py, n, targets)
  {
    var turns, compact := Turns(py, n), Turns(py, Compact(n));
    TurnsPreserved(py, n);
    CountPreserved(py, n);
    HandPreserved(py, n, targets);
    if turns.Some? {
      TurnMetricsPreserved(py, turns.value, targets);
    }
  }

  // ---------------------------------------------------------------- idempotence

  lemma CardsTwice(value: Json)
    ensures CompactCards(CompactCards(value)) == CompactCards(value)
  {
    if value.Arr? {
      forall i | 0 <= i < |value.items|
        ensures CompactCard(CompactCard(value.items[i])) == CompactCard(value.items[i])
      {
        CardFields(value.items[i]);
      }
      assert CompactList(CompactList(value.items)) == CompactList(value.items);
    }
  }

  lemma MulliganTwice(mulligan: Json)
    ensures CompactMulligan(CompactMulligan(mulligan)) == CompactMulligan(mulligan)
  {
    if mulligan.Obj? {
      forall k | k in mulligan.fields
        ensures CompactCards(CompactCards(mulligan.fields[k])) == CompactCards(mulligan.fields[k])
      {
        CardsTwice(mulligan.fields[k]);
      }
      assert CompactMulligan(CompactMulligan(mulligan)).fields == CompactMulligan(mulligan).fields;
    }
  }

  lemma MineTwice(mine: Json)
    ensures CompactMine(OrEmpty(CompactMine(mine))) == CompactMine(mine)
  {
    var once := CompactMine(mine).fields;
    if "hand" in Fields(mine) {
      CardsTwice(Fields(mine)["hand"]);
    }
    assert CompactMine(OrEmpty(CompactMine(mine))).fields == once;
  }

  lemma ActionTwice(action: Json)
    ensures CompactAction(CompactAction(action)) == CompactAction(action)
  {
    ContextCompact(action);
    var context, mine := Context(action), OrEmpty(Field(Context(action), "my"));
    MineTwice(mine);
    var once := CompactAction(action).fields;
    var twice := CompactAction(CompactAction(action)).fields;
    assert twice["coach_context"].fields == once["coach_context"].fields;
    assert Restrict(once, ACTION_KEYS) == Restrict(Fields(action), ACTION_KEYS);
  }

  /** Compacting what is already compact changes nothing. */
  lemma CompactTwice(n: Evidence)
    ensures Compact(Compact(n)) == Compact(n)
  {
    CardsTwice(Entry(n, "starting_hand"));
    MulliganTwice(Entry(n, "mulligan"));
    forall i | 0 <= i < |Actions(n)|
      ensures CompactAction(CompactAction(Actions(n)[i])) == CompactAction(Actions(n)[i])
    {
      ActionTwice(Actions(n)[i]);
    }
    assert CompactActions(CompactActions(Actions(n))) == CompactActions(Actions(n));
  }

  lemma RebuildSame(py: Python, n: Evidence)
    ensures ProjectionValues(py, Compact(n)["decklist" := Entry(n, "decklist")]) == ProjectionValues(py, n)
  {
    ValidatedPreserved(py, n);
    CompactTwice(n);
    var again := Compact(n)["decklist" := Entry(n, "decklist")];
    assert Compact(again) == Compact(Compact(n));
    assert Validated(py, again) == Validated(py, Compact(n));
  }

  /** A reader of the stored read model sees every metric of the full evidence, and rebuilding the row changes nothing. */
  lemma ReadModelIsFaithful(py: Python, n: Evidence, targets: seq<string>)
    ensures var row := ProjectionValues(py, n);
            && MetricsOf(py, row.openingEvidence, targets) == MetricsOf(py, n, targets)
            && row.version == 1 && row.decklist == Entry(n, "decklist")
            && row.mulliganCount == Validated(py, n) == Validated(py, row.openingEvidence)
            && ProjectionValues(py, row.openingEvidence["decklist" := row.decklist]) == row
  {
    MetricsPreserved(py, n, targets);
    ValidatedPreserved(py, n);
    RebuildSame(py, n);
  }
}
