/** What the stored read model holds, key by key, and exactly when it stores a mulligan count. */
module ProjectionLaws {
  import opened Wrappers
  import opened Jsons
  import opened Practices
  import opened PracticeLaws
  import opened Projections

  // ---------------------------------------------------------------- the stored count

  /** Every card of the list has a text for its id. */
  ghost predicate TextIds(cards: Json) {
    cards.Arr? && forall i :: 0 <= i < |cards.items| ==> At(cards.items[i], ["id"]).Str?
  }

  lemma StringIdsMean(cards: Json)
    ensures StringIds(cards) <==> IdentifiedCards(cards) && TextIds(cards)
  {
    if cards.Arr? {
      forall i | 0 <= i < |cards.items|
        ensures At(cards.items[i], ["id"]) == Field(cards.items[i], "id")
      {
        OneStep(cards.items[i], "id");
      }
    }
  }

  lemma StringCountMeans(py: Python, n: Evidence, count: int)
    requires In(n, ["mulligan"]).Obj?
    ensures StringCount(py, Entry(n, "starting_hand"), Group(n, "kept"), Group(n, "sent_back"), Group(n, "drawn"),
                        Group(n, "count")) == Some(count)
       <==> BorneOut(py, n, count) && AllStringIds(n)
  {
    CountExactly(py, n, count);
    StringsAreIdentified(Entry(n, "starting_hand"));
    StringsAreIdentified(Group(n, "kept"));
    StringsAreIdentified(Group(n, "sent_back"));
    StringsAreIdentified(Group(n, "drawn"));
  }

  lemma TrustedMeans(n: Evidence)
    ensures var names := In(n, ["game", "player_names"]);
            Trusted(n) <==> !Truthy(In(n, ["parser_warnings"])) && Player(n) != Null && (Truthy(names) ==> Size(names) == 2)
  {
    EntriesMean(n);
  }

  lemma TextsMean(n: Evidence)
    ensures AllStringIds(n)
       <==> && IdentifiedCards(In(n, ["starting_hand"])) && TextIds(In(n, ["starting_hand"]))
            && IdentifiedCards(In(n, ["mulligan", "kept"])) && TextIds(In(n, ["mulligan", "kept"]))
            && IdentifiedCards(In(n, ["mulligan", "sent_back"])) && TextIds(In(n, ["mulligan", "sent_back"]))
            && IdentifiedCards(In(n, ["mulligan", "drawn"])) && TextIds(In(n, ["mulligan", "drawn"]))
  {
    EntriesMean(n);
    StringIdsMean(Entry(n, "starting_hand"));
    StringIdsMean(Group(n, "kept"));
    StringIdsMean(Group(n, "sent_back"));
    StringIdsMean(Group(n, "drawn"));
  }

  /**
   A count is stored exactly if the replay was read without warnings, it is known whose it
   is, two players are named if any are, and the mulligan is borne out by cards whose every
   id is a text. Whether the replay has turns does not matter.
   */
  lemma ValidatedExactly(py: Python, n: Evidence, count: int)
    ensures var names := In(n, ["game", "player_names"]);
            Validated(py, n) == Some(count)
            <==> && !Truthy(In(n, ["parser_warnings"])) && Player(n) != Null && (Truthy(names) ==> Size(names) == 2)
                 && BorneOut(py, n, count)
                 && TextIds(In(n, ["starting_hand"])) && TextIds(In(n, ["mulligan", "kept"]))
                 && TextIds(In(n, ["mulligan", "sent_back"])) && TextIds(In(n, ["mulligan", "drawn"]))
  {
    TrustedMeans(n);
    TextsMean(n);
    OneStep(Obj(n), "mulligan");
    if Entry(n, "mulligan").Obj? {
      ObjectGroups(n);
      StringCountMeans(py, n, count);
    } else {
      NoGroups(n);
    }
  }

  lemma NoGroups(n: Evidence)
    requires !Entry(n, "mulligan").Obj?
    ensures In(n, ["mulligan", "count"]) == Null
  {
    TwoSteps(Obj(n), "mulligan", "count");
  }

  // ---------------------------------------------------------------- what is kept, and nothing else

  /** The object has these keys of the full one, with their values, and no others. */
  ghost predicate Reduced(small: Json, full: Json, keys: set<string>) {
    && small.Obj? && small.fields.Keys == Fields(full).Keys * keys
    && forall k :: k in small.fields ==> small.fields[k] == Fields(full)[k]
  }

  /** The same cards in the same order, each without what the metrics do not look at. */
  ghost predicate ReducedCards(small: Json, full: Json) {
    if !full.Arr? then small == full
    else
      && small.Arr? && |small.items| == |full.items|
      && forall i :: 0 <= i < |full.items| ==>
           if full.items[i].Obj? then Reduced(small.items[i], full.items[i], {"id", "name", "inkable"})
           else small.items[i] == full.items[i]
  }

  ghost predicate ReducedMulligan(small: Json, full: Json) {
    if !full.Obj? then small == full
    else
      && small.Obj? && small.fields.Keys == full.fields.Keys
      && forall k :: k in full.fields ==>
           if k in {"kept", "sent_back", "drawn"} then ReducedCards(small.fields[k], full.fields[k])
           else small.fields[k] == full.fields[k]
  }

  ghost predicate ReducedMine(small: Json, full: Json) {
    && small.Obj? && small.fields.Keys == Fields(full).Keys * {"ink_count", "ready_ink", "hand"}
    && (forall k :: k in small.fields && k != "hand" ==> small.fields[k] == Fields(full)[k])
    && ("hand" in small.fields ==> ReducedCards(small.fields["hand"], Fields(full)["hand"]))
  }

  ghost predicate ReducedAction(small: Json, full: Json) {
    var keys := {"seq", "type", "active_player", "gameplay_turn", "actor_is_perspective", "undone", "card_id", "card_name"};
    var context := At(full, ["coach_context"]);
    && small.Obj? && small.fields.Keys == Fields(full).Keys * keys + {"coach_context"}
    && (forall k :: k in keys * small.fields.Keys ==> small.fields[k] == Fields(full)[k])
    && var kept := small.fields["coach_context"];
       && kept.Obj? && kept.fields.Keys == Fields(context).Keys * {"status", "current_player"} + {"my"}
       && (forall k :: k in kept.fields && k != "my" ==> kept.fields[k] == Fields(context)[k])
       && ReducedMine(kept.fields["my"], At(full, ["coach_context", "my"]))
  }

  lemma CardsReduce(cards: Json)
    ensures ReducedCards(CompactCards(cards), cards)
  {
  }

  lemma MulliganReduces(mulligan: Json)
    ensures ReducedMulligan(CompactMulligan(mulligan), mulligan)
  {
    if mulligan.Obj? {
      forall k | k in mulligan.fields
        ensures ReducedCards(CompactCards(mulligan.fields[k]), mulligan.fields[k])
      {
        CardsReduce(mulligan.fields[k]);
      }
    }
  }

  lemma MineReduces(mine: Json)
    ensures ReducedMine(CompactMine(OrEmpty(mine)), mine)
  {
    assert Fields(OrEmpty(mine)) == Fields(mine);
    if "hand" in Fields(mine) {
      CardsReduce(Fields(mine)["hand"]);
    }
  }

  lemma ActionReduces(action: Json)
    ensures ReducedAction(CompactAction(action), action)
  {
    OneStep(action, "coach_context");
    TwoSteps(action, "coach_context", "my");
    var context := Field(action, "coach_context");
    assert Fields(OrEmpty(context)) == Fields(context);
    EmptyIsNothing(context, "my");
    MineReduces(Field(context, "my"));
    assert Context(action) == OrEmpty(context);
  }

  /**
   The compact evidence in full: five entries; the game and the warnings as they are, cards
   reduced to id, name and inkability, and actions to what the metrics look at. It holds
   nothing else, and everything it holds is the evidence's own.
   */
  lemma CompactHoldsNothingElse(n: Evidence)
    ensures var c := Compact(n);
            && c.Keys == {"game", "parser_warnings", "starting_hand", "mulligan", "effective_actions"}
            && In(c, ["game"]) == In(n, ["game"]) && In(c, ["parser_warnings"]) == In(n, ["parser_warnings"])
            && ReducedCards(In(c, ["starting_hand"]), In(n, ["starting_hand"]))
            && ReducedMulligan(In(c, ["mulligan"]), In(n, ["mulligan"]))
            && In(c, ["effective_actions"]).Arr? && |Recorded(c)| == |Recorded(n)|
            && forall i :: 0 <= i < |Recorded(n)| ==> ReducedAction(Recorded(c)[i], Recorded(n)[i])
  {
    EntriesMean(n);
    EntriesMean(Compact(n));
    CardsReduce(Entry(n, "starting_hand"));
    MulliganReduces(Entry(n, "mulligan"));
    forall i | 0 <= i < |Actions(n)|
      ensures ReducedAction(CompactAction(Actions(n)[i]), Actions(n)[i])
    {
      ActionReduces(Actions(n)[i]);
    }
  }
}
