/**
 Every outcome of a patch operation, told from what is at its path: what is made on the
 way, what happens at the target, and which error stops the walk. Nothing here goes by the
 steps of the walk; the places are those of `Reach`, or of RFC 6901 where that is enough.
 */
module PatchOutcomes {
  import opened Wrappers
  import opened Texts
  import opened Jsons
  import opened Pointers
  import opened Patches
  import opened PatchLaws

  // ---------------------------------------------------------------- an operation and its names

  /** Which operation a name stands for, and what is refused before the document is looked at. */
  lemma NamesDecide(document: Json, operation: Operation)
    ensures var r := Apply(document, operation);
            var add, remove, replace := operation.op == Some("add"), operation.op == Some("remove"), operation.op == Some("replace");
            if !add && !remove && !replace then r == Err(UnsupportedOperation)
            else if operation.path.None? then r == Err(PathNotText)
            else if Tokens(operation.path.value).Err? then r == Err(BadPointer)
            else r == ApplyTokens(if add then Add else if remove then Remove else Replace,
                                  document, Tokens(operation.path.value).value, operation.value)
  {
    if operation.path.Some? {
      TokensAreParts(operation.path.value);
    }
  }

  /** The empty path names the whole document: a set gives the value, a remove gives null. */
  lemma WholeDocument(document: Json, value: Json)
    ensures ApplyTokens(Add, document, [], value) == ApplyTokens(Replace, document, [], value) == Ok(value)
    ensures ApplyTokens(Remove, document, [], value) == Ok(Null)
  {
  }

  // ---------------------------------------------------------------- down to an existing place

  /** Where the path exists, the operation is that of the rest of the path on what is there. */
  lemma {:induction false} Descends(op: Op, document: Json, tokens: seq<string>, k: nat, value: Json)
    requires k < |tokens| && Reach(document, tokens[..k]).Some?
    ensures var done := ApplyAt(op, Reach(document, tokens[..k]).value, tokens[k..], value);
            ApplyAt(op, document, tokens, value)
            == if done.Err? then done else Ok(Exchanged(document, tokens[..k], done.value))
    decreases k
  {
    if k == 0 {
      assert tokens[0..] == tokens && tokens[..0] == [];
    } else {
      var child := Look(document, tokens[0]).value;
      assert tokens[..k][1..] == tokens[1..][..k - 1] && tokens[1..][k - 1..] == tokens[k..];
      assert Child(document, tokens[0], op != Remove) == Ok(child);
      Descends(op, child, tokens[1..], k - 1, value);
    }
  }

  /** A place by RFC 6901 is a place, and exchanging its value is the same. */
  lemma {:induction false} GetIsReach(document: Json, tokens: seq<string>, value: Json)
    requires Get(document, tokens).Some?
    ensures Reach(document, tokens) == Get(document, tokens)
    ensures Exchanged(document, tokens, value) == Put(document, tokens, value)
    decreases |tokens|
  {
    if tokens == [] {
    } else {
      if document.Arr? {
        StrictIndexParses(tokens[0]);
      }
      GetIsReach(At(document, tokens[0]).value, tokens[1..], value);
    }
  }

  // ---------------------------------------------------------------- a missing key on the way

  /** The value inside one object a token, each with that token as its only key. */
  function Nested(tokens: seq<string>, value: Json): Json {
    if tokens == [] then value else Obj(map[tokens[0] := Nested(tokens[1..], value)])
  }

  lemma {:induction false} FillsEmpty(op: Op, tokens: seq<string>, value: Json)
    requires op != Remove && tokens != []
    ensures ApplyAt(op, Obj(map[]), tokens, value) == Ok(Nested(tokens, value))
    decreases |tokens|
  {
    if |tokens| == 1 {
      assert tokens[1..] == [];
    } else {
      FillsEmpty(op, tokens[1..], value);
    }
  }

  /**
   A set makes what is missing: from the first key that is not there, one object for each
   further token with the value innermost; and everything else stays.
   */
  lemma MissingKeysAreMade(op: Op, document: Json, tokens: seq<string>, k: nat, fields: map<string, Json>, value: Json)
    requires op != Remove && k < |tokens| && Reach(document, tokens[..k]) == Some(Obj(fields)) && tokens[k] !in fields
    ensures ApplyTokens(op, document, tokens, value)
         == Ok(Exchanged(document, tokens[..k], Obj(fields[tokens[k] := Nested(tokens[k + 1..], value)])))
  {
    Descends(op, document, tokens, k, value);
    var rest := tokens[k..];
    assert rest[0] == tokens[k] && rest[1..] == tokens[k + 1..];
    if |rest| > 1 {
      FillsEmpty(op, rest[1..], value);
    } else {
      assert rest[1..] == [];
    }
  }

  /** The same in the terms of RFC 6901. */
  lemma MissingKeysAreMadeStrictly(op: Op, document: Json, tokens: seq<string>, k: nat, fields: map<string, Json>, value: Json)
    requires op != Remove && k < |tokens| && Get(document, tokens[..k]) == Some(Obj(fields)) && tokens[k] !in fields
    ensures ApplyTokens(op, document, tokens, value)
         == Ok(Put(document, tokens[..k], Obj(fields[tokens[k] := Nested(tokens[k + 1..], value)])))
  {
    GetIsReach(document, tokens[..k], Obj(fields[tokens[k] := Nested(tokens[k + 1..], value)]));
    MissingKeysAreMade(op, document, tokens, k, fields, value);
  }

  // ---------------------------------------------------------------- what stops the walk, and the target

  /** Before the last token: a missing key stops a remove only, a list needs an index of its own, the rest is no container. */
  lemma StopsOnTheWay(op: Op, document: Json, tokens: seq<string>, k: nat, value: Json)
    requires k + 1 < |tokens| && Reach(document, tokens[..k]).Some?
    requires Reach(document, tokens[..k + 1]).None?
    ensures var r := ApplyTokens(op, document, tokens, value);
            match Reach(document, tokens[..k]).value
            case Obj(_) => if op == Remove then r == Err(MissingKey) else r.Ok?
            case Arr(_) => r == Err(if ParseInt(tokens[k]).Some? then OutOfRange else BadIndex)
            case _ => r == Err(NotAContainer)
  {
    Descends(op, document, tokens, k, value);
    assert tokens[..k + 1] == tokens[..k] + [tokens[k]];
    ReachJoined(document, tokens[..k], [tokens[k]]);
    ReachOne(Reach(document, tokens[..k]).value, tokens[k]);
    var node := Reach(document, tokens[..k]).value;
    if node.Obj? && op != Remove {
      MissingKeysAreMade(op, document, tokens, k, node.fields, value);
    }
  }

  /** What becomes of a list, if the operation is let through: where the token says, one more, one less or one exchanged. */
  function ListAfter(op: Op, items: seq<Json>, last: string, value: Json): Result<seq<Json>, PatchError> {
    var n := |items|;
    var index := if last == "-" && op != Replace then Some(n) else ParseInt(last);
    if last != "-" && index.None? then Err(BadIndex)
    else if op == Remove then
      Ok(if 0 <= index.value < n then items[..index.value] + items[index.value + 1..] else items)
    else if index.None? || !(0 <= index.value <= n) then Err(OutOfRange)
    else
      var rest := if op == Add || index.value == n then items[index.value..] else items[index.value + 1..];
      Ok(items[..index.value] + [value] + rest)
  }

  /** The operation on a container that is there. */
  lemma OutcomeAtTarget(op: Op, document: Json, tokens: seq<string>, value: Json)
    requires tokens != [] && Reach(document, Front(tokens)).Some?
    ensures var r, last := ApplyTokens(op, document, tokens, value), Last(tokens);
            var container := Reach(document, Front(tokens)).value;
            if container.Obj? then
              r == Ok(Exchanged(document, Front(tokens),
                                Obj(if op == Remove then container.fields - {last} else container.fields[last := value])))
            else if container.Arr? then
              var after := ListAfter(op, container.items, last, value);
              r == if after.Err? then Err(after.error) else Ok(Exchanged(document, Front(tokens), Arr(after.value)))
            else r == Err(NotAContainer)
  {
    var k := |tokens| - 1;
    Descends(op, document, tokens, k, value);
    assert tokens[..k] == Front(tokens) && tokens[k..] == [Last(tokens)];
    var container := Reach(document, Front(tokens)).value;
    if container.Obj? {
      assert RemoveKey(container.fields, Last(tokens)) == container.fields - {Last(tokens)};
    } else if container.Arr? {
      ListAfterIsEdit(op, container.items, Last(tokens), value);
    }
  }

  lemma ListAfterIsEdit(op: Op, items: seq<Json>, last: string, value: Json)
    ensures var after := ListAfter(op, items, last, value);
            Edit(op, Arr(items), last, value) == if after.Err? then Err(after.error) else Ok(Arr(after.value))
  {
    assert ParseInt("-") == None;
    assert items[..|items|] + [value] + items[|items|..] == items + [value];
    var index := ParseInt(last);
    if op == Replace && index.Some? && 0 <= index.value < |items| {
      assert items[index.value := value] == items[..index.value] + [value] + items[index.value + 1..];
    }
  }

  /** There is no third case: the container of the target is there, or the walk has a first place that is not. */
  lemma {:induction false} EveryPathIsCovered(document: Json, tokens: seq<string>) returns (k: nat)
    requires tokens != []
    ensures k < |tokens| && Reach(document, tokens[..k]).Some?
    ensures k + 1 < |tokens| ==> Reach(document, tokens[..k + 1]).None?
  {
    k := 0;
    assert tokens[..0] == [];
    while k + 1 < |tokens| && Reach(document, tokens[..k + 1]).Some?
      invariant k < |tokens| && Reach(document, tokens[..k]).Some?
    {
      k := k + 1;
    }
  }
}
