/** What the patch operations promise: they extend RFC 6902, `replace` sets, and every operation is local. */
module PatchLaws {
  import opened Wrappers
  import opened Texts
  import opened Jsons
  import opened Pointers
  import opened Patches

  // ---------------------------------------------------------------- strict RFC 6901 and RFC 6902

  /** Section 4 of RFC 6901: `0`, or digits without a leading zero. */
  predicate StrictIndex(token: string) {
    token != "" && AllDigits(token) && (token[0] == '0' ==> |token| == 1)
  }

  function At(document: Json, token: string): Option<Json> {
    match document
    case Arr(items) => if StrictIndex(token) && NatValue(token) < |items| then Some(items[NatValue(token)]) else None
    case Obj(fields) => if token in fields then Some(fields[token]) else None
    case _ => None
  }

  function Get(document: Json, tokens: seq<string>): Option<Json> {
    if tokens == [] then Some(document)
    else if At(document, tokens[0]).None? then None
    else Get(At(document, tokens[0]).value, tokens[1..])
  }

  function Exchange(document: Json, token: string, child: Json): Json
    requires At(document, token).Some?
  {
    if document.Arr? then Arr(document.items[NatValue(token) := child]) else Obj(document.fields[token := child])
  }

  /** The document with an existing location holding another value. */
  function Put(document: Json, tokens: seq<string>, value: Json): Json
    requires Get(document, tokens).Some?
  {
    if tokens == [] then value
    else Exchange(document, tokens[0], Put(At(document, tokens[0]).value, tokens[1..], value))
  }

  function Front(tokens: seq<string>): seq<string>
    requires tokens != []
  {
    tokens[..|tokens| - 1]
  }

  function Last(tokens: seq<string>): string
    requires tokens != []
  {
    tokens[|tokens| - 1]
  }

  /** Section 4.1 of RFC 6902: the container must exist; an index may equal the length; `-` appends. */
  function StrictAdd(document: Json, tokens: seq<string>, value: Json): Option<Json> {
    if tokens == [] then Some(value)
    else
      var container, last := Get(document, Front(tokens)), Last(tokens);
      if container.None? then None
      else match container.value
        case Obj(fields) => Some(Put(document, Front(tokens), Obj(fields[last := value])))
        case Arr(items) =>
          if last == "-" then Some(Put(document, Front(tokens), Arr(items + [value])))
          else if StrictIndex(last) && NatValue(last) <= |items| then
            Some(Put(document, Front(tokens), Arr(items[..NatValue(last)] + [value] + items[NatValue(last)..])))
          else None
        case _ => None
  }

  /** Section 4.2: the target must exist. */
  function StrictRemove(document: Json, tokens: seq<string>): Option<Json> {
    if tokens == [] || Get(document, tokens).None? then None
    else
      var container, last := Get(document, Front(tokens)), Last(tokens);
      if container.None? then None
      else match container.value
        case Obj(fields) => Some(Put(document, Front(tokens), Obj(fields - {last})))
        case Arr(items) =>
          if StrictIndex(last) && NatValue(last) < |items| then
            Some(Put(document, Front(tokens), Arr(items[..NatValue(last)] + items[NatValue(last) + 1..])))
          else None
        case _ => None
  }

  /** Section 4.3: the target must exist; the whole document may be replaced. */
  function StrictReplace(document: Json, tokens: seq<string>, value: Json): Option<Json> {
    if Get(document, tokens).None? then None else Some(Put(document, tokens, value))
  }

  /** Removing the whole document is left out. */
  function StrictTokens(op: Op, document: Json, tokens: seq<string>, value: Json): Option<Json> {
    match op
    case Add => StrictAdd(document, tokens, value)
    case Remove => StrictRemove(document, tokens)
    case Replace => StrictReplace(document, tokens, value)
  }

  function UnescapeAll(parts: seq<string>): (tokens: seq<string>)
    requires forall i :: 0 <= i < |parts| ==> ValidToken(parts[i])
    ensures |tokens| == |parts| && forall i :: 0 <= i < |parts| ==> tokens[i] == Unescape(parts[i])
  {
    if parts == [] then [] else [Unescape(parts[0])] + UnescapeAll(parts[1..])
  }

  function StrictPath(path: string): Option<seq<string>> {
    if !ValidPointer(path) then None
    else if path == "" then Some([])
    else Some(UnescapeAll(Split(path[1..], '/')))
  }

  function Strict(document: Json, operation: Operation): Option<Json> {
    if operation.path.None? || StrictPath(operation.path.value).None? then None
    else
      var tokens := StrictPath(operation.path.value).value;
      if operation.op == Some("add") then StrictAdd(document, tokens, operation.value)
      else if operation.op == Some("remove") then StrictRemove(document, tokens)
      else if operation.op == Some("replace") then StrictReplace(document, tokens, operation.value)
      else None
  }

  function StrictAll(document: Json, operations: seq<Operation>): Option<Json> {
    if operations == [] then Some(document)
    else
      var before := StrictAll(document, operations[..|operations| - 1]);
      if before.None? then None else Strict(before.value, operations[|operations| - 1])
  }

  // ---------------------------------------------------------------- a conservative extension

  lemma StrictIndexParses(token: string)
    requires StrictIndex(token)
    ensures ParseInt(token) == Some(NatValue(token)) && token != "-"
  {
  }

  lemma AtIsChild(document: Json, token: string, create: bool)
    requires At(document, token).Some?
    ensures Child(document, token, create) == Ok(At(document, token).value)
    ensures forall child :: PutChild(document, token, child) == Exchange(document, token, child)
  {
    if document.Arr? {
      StrictIndexParses(token);
    }
  }

  lemma {:induction false} EditAtStrict(op: Op, document: Json, tokens: seq<string>, value: Json)
    requires tokens != [] && Get(document, Front(tokens)).Some?
    ensures var edited := Edit(op, Get(document, Front(tokens)).value, Last(tokens), value);
            ApplyAt(op, document, tokens, value)
            == if edited.Err? then edited else Ok(Put(document, Front(tokens), edited.value))
    decreases |tokens|
  {
    if |tokens| == 1 {
    } else {
      AtIsChild(document, tokens[0], op != Remove);
      assert Front(tokens)[1..] == Front(tokens[1..]);
      EditAtStrict(op, At(document, tokens[0]).value, tokens[1..], value);
    }
  }

  lemma {:induction false} GetLast(document: Json, tokens: seq<string>)
    requires tokens != [] && Get(document, tokens).Some?
    ensures Get(document, Front(tokens)).Some?
    ensures var container := Get(document, Front(tokens)).value;
            && At(container, Last(tokens)) == Get(document, tokens)
            && forall value ::
                 Put(document, tokens, value) == Put(document, Front(tokens), Exchange(container, Last(tokens), value))
    decreases |tokens|
  {
    if |tokens| == 1 {
      forall value
        ensures Put(document, tokens, value) == Exchange(document, tokens[0], value)
      {
        assert tokens[1..] == [];
      }
    } else {
      GetLast(At(document, tokens[0]).value, tokens[1..]);
      assert Front(tokens)[1..] == Front(tokens[1..]);
    }
  }

  /** Wherever strict add, remove or replace succeeds, the program's patch gives the same document. */
  lemma ConservativeTokens(op: Op, document: Json, tokens: seq<string>, value: Json)
    requires StrictTokens(op, document, tokens, value).Some?
    ensures ApplyTokens(op, document, tokens, value) == Ok(StrictTokens(op, document, tokens, value).value)
  {
    if tokens != [] {
      if op != Add {
        GetLast(document, tokens);
      }
      EditAtStrict(op, document, tokens, value);
      var container, last := Get(document, Front(tokens)).value, Last(tokens);
      if container.Arr? && StrictIndex(last) {
        StrictIndexParses(last);
      }
      if container.Obj? {
        assert RemoveKey(container.fields, last) == container.fields - {last};
      }
    }
  }

  lemma StrictPathDecodes(path: string)
    requires StrictPath(path).Some?
    ensures Tokens(path) == Ok(StrictPath(path).value)
  {
    if path != "" {
      var parts := Split(path[1..], '/');
      forall i | 0 <= i < |parts|
        ensures DecodeToken(parts[i]) == Unescape(parts[i])
      {
        DecodeIsUnescape(parts[i]);
      }
      assert DecodeAll(parts) == UnescapeAll(parts);
    }
  }

  lemma Conservative(document: Json, operation: Operation)
    requires Strict(document, operation).Some?
    ensures Apply(document, operation) == Ok(Strict(document, operation).value)
  {
    StrictPathDecodes(operation.path.value);
    ConservativeTokens(OpOf(operation.op).value, document, StrictPath(operation.path.value).value, operation.value);
  }

  /** The same for whole patches. */
  lemma {:induction false} ConservativeAll(document: Json, operations: seq<Operation>)
    requires StrictAll(document, operations).Some?
    ensures ApplyAll(document, operations) == Ok(StrictAll(document, operations).value)
  {
    if operations == [] {
    } else {
      ConservativeAll(document, operations[..|operations| - 1]);
      Conservative(StrictAll(document, operations[..|operations| - 1]).value, operations[|operations| - 1]);
    }
  }

  // ---------------------------------------------------------------- reading a document as the program walks it

  /** The value one token leads to: a list index is anything that reads as a number within the list. */
  function Look(document: Json, token: string): Option<Json> {
    match document
    case Arr(items) =>
      var index := ParseInt(token);
      if index.Some? && 0 <= index.value < |items| then Some(items[index.value]) else None
    case Obj(fields) => if token in fields then Some(fields[token]) else None
    case _ => None
  }

  /** The value at a token list, with the program's reading of list indices. */
  function Reach(document: Json, tokens: seq<string>): Option<Json> {
    if tokens == [] then Some(document)
    else if Look(document, tokens[0]).None? then None
    else Reach(Look(document, tokens[0]).value, tokens[1..])
  }

  /** The document with the value at an existing place exchanged, everything beside it as it was. */
  function Exchanged(document: Json, tokens: seq<string>, node: Json): Json
    requires Reach(document, tokens).Some?
  {
    if tokens == [] then node
    else
      var child := Exchanged(Look(document, tokens[0]).value, tokens[1..], node);
      if document.Arr? then Arr(document.items[ParseInt(tokens[0]).value := child]) else Obj(document.fields[tokens[0] := child])
  }

  lemma ChildIsLook(document: Json, token: string)
    ensures Child(document, token, false).Ok? <==> Look(document, token).Some?
    ensures Look(document, token).Some? ==> Child(document, token, false) == Ok(Look(document, token).value)
  {
  }

  /** The container an operation edits, with missing keys made on the way if it creates. */
  function Container(document: Json, tokens: seq<string>, create: bool): Result<Json, PatchError>
    decreases |tokens|
  {
    if tokens == [] then Ok(document)
    else
      var child := Child(document, tokens[0], create);
      if child.Err? then child else Container(child.value, tokens[1..], create)
  }

  lemma {:induction false} ReachIsContainer(document: Json, tokens: seq<string>)
    ensures Container(document, tokens, false).Ok? <==> Reach(document, tokens).Some?
    ensures Reach(document, tokens).Some? ==>
              Container(document, tokens, false) == Ok(Reach(document, tokens).value)
              && Container(document, tokens, true) == Ok(Reach(document, tokens).value)
    decreases |tokens|
  {
    if tokens != [] && Child(document, tokens[0], false).Ok? {
      ReachIsContainer(Child(document, tokens[0], false).value, tokens[1..]);
    }
  }

  lemma {:induction false} ReachJoined(document: Json, a: seq<string>, b: seq<string>)
    ensures Reach(document, a + b) == if Reach(document, a).None? then None else Reach(Reach(document, a).value, b)
    decreases |a|
  {
    if a == [] {
      assert a + b == b;
    } else if Child(document, a[0], false).Ok? {
      assert (a + b)[1..] == a[1..] + b;
      ReachJoined(Child(document, a[0], false).value, a[1..], b);
    }
  }

  /** What was put under a token is found under it. */
  lemma ChildAfterPut(document: Json, token: string, create: bool, child: Json)
    requires Child(document, token, create).Ok?
    ensures Child(PutChild(document, token, child), token, false) == Ok(child)
  {
  }

  /** The operation edits exactly the container its path leads to: it fails if the walk or the edit does. */
  lemma {:induction false} EditsContainer(op: Op, document: Json, tokens: seq<string>, value: Json)
    requires tokens != []
    ensures var container := Container(document, Front(tokens), op != Remove);
            var done := ApplyAt(op, document, tokens, value);
            && (container.Err? ==> done == container)
            && (container.Ok? ==>
                  var edited := Edit(op, container.value, Last(tokens), value);
                  && (edited.Err? ==> done == edited)
                  && (edited.Ok? ==> done.Ok? && Reach(done.value, Front(tokens)) == Some(edited.value)))
    decreases |tokens|
  {
    if |tokens| == 1 {
    } else {
      assert Front(tokens)[1..] == Front(tokens[1..]);
      var child := Child(document, tokens[0], op != Remove);
      if child.Ok? {
        EditsContainer(op, child.value, tokens[1..], value);
        var edited := ApplyAt(op, child.value, tokens[1..], value);
        if edited.Ok? {
          ChildAfterPut(document, tokens[0], op != Remove, edited.value);
        }
      }
    }
  }

  // ---------------------------------------------------------------- replace sets, and a missing remove does nothing

  /** Where a value lands: `-` names the place after the last item. */
  function Landing(document: Json, tokens: seq<string>): seq<string>
    requires tokens != []
  {
    var container := Container(document, Front(tokens), true);
    if container.Ok? && container.value.Arr? && Last(tokens) == "-" then Front(tokens) + [NatText(|container.value.items|)]
    else tokens
  }

  lemma NatTextParses(n: nat)
    ensures ParseInt(NatText(n)) == Some(n) && NatText(n) != "-"
  {
    IntRoundTrip(n);
    assert IsDigit(NatText(n)[0]);
  }

  lemma EditHolds(op: Op, container: Json, last: string, value: Json)
    requires op != Remove && Edit(op, container, last, value).Ok?
    ensures Look(Edit(op, container, last, value).value, Place(container, last)) == Some(value)
  {
    if container.Arr? {
      NatTextParses(|container.items|);
    }
  }

  lemma ReachOne(document: Json, token: string)
    ensures Reach(document, [token])
            == Look(document, token)
  {
  }

  /** Where a value lands in its container. */
  function Place(container: Json, last: string): string {
    if container.Arr? && last == "-" then NatText(|container.items|) else last
  }

  lemma LandsAt(document: Json, tokens: seq<string>)
    requires tokens != [] && Container(document, Front(tokens), true).Ok?
    ensures Landing(document, tokens) == Front(tokens) + [Place(Container(document, Front(tokens), true).value, Last(tokens))]
  {
  }

  lemma ReachAtEnd(document: Json, front: seq<string>, container: Json, place: string, value: Json)
    requires Reach(document, front) == Some(container) && Look(container, place) == Some(value)
    ensures Reach(document, front + [place]) == Some(value)
  {
    ReachJoined(document, front, [place]);
    ReachOne(container, place);
  }

  /** After an add or a replace the value is found where it was put. */
  lemma GetAfterSet(op: Op, document: Json, tokens: seq<string>, value: Json)
    requires op != Remove && tokens != [] && ApplyAt(op, document, tokens, value).Ok?
    ensures Reach(ApplyAt(op, document, tokens, value).value, Landing(document, tokens)) == Some(value)
  {
    EditsContainer(op, document, tokens, value);
    var container := Container(document, Front(tokens), true).value;
    LandsAt(document, tokens);
    EditHolds(op, container, Last(tokens), value);
    ReachAtEnd(ApplyAt(op, document, tokens, value).value, Front(tokens), Edit(op, container, Last(tokens), value).value,
               Place(container, Last(tokens)), value);
  }

  /** On an object `replace` is `add`: a missing key is created, and missing objects on the way are made. */
  lemma {:induction false} ReplaceIsSet(document: Json, tokens: seq<string>, value: Json)
    requires tokens != []
    requires var container := Container(document, Front(tokens), true); container.Ok? && container.value.Obj?
    ensures ApplyAt(Replace, document, tokens, value) == ApplyAt(Add, document, tokens, value)
    ensures ApplyAt(Replace, document, tokens, value).Ok?
    decreases |tokens|
  {
    if |tokens| == 1 {
    } else {
      assert Front(tokens)[1..] == Front(tokens[1..]);
      ReplaceIsSet(Child(document, tokens[0], true).value, tokens[1..], value);
    }
  }

  lemma EditTwice(parent: Json, last: string, value: Json)
    requires Edit(Replace, parent, last, value).Ok?
    ensures Edit(Replace, Edit(Replace, parent, last, value).value, last, value) == Edit(Replace, parent, last, value)
  {
    if parent.Arr? {
      var index := ParseInt(last).value;
      if index == |parent.items| {
        assert (parent.items + [value])[index := value] == parent.items + [value];
      } else {
        assert parent.items[index := value][index := value] == parent.items[index := value];
      }
    } else {
      assert parent.fields[last := value][last := value] == parent.fields[last := value];
    }
  }

  lemma PutTwice(document: Json, token: string, create: bool, child: Json)
    requires Child(document, token, create).Ok?
    ensures PutChild(PutChild(document, token, child), token, child) == PutChild(document, token, child)
  {
    if document.Arr? {
      var index := ParseInt(token).value;
      assert document.items[index := child][index := child] == document.items[index := child];
    } else {
      assert document.fields[token := child][token := child] == document.fields[token := child];
    }
  }

  /** Setting twice is setting once, for every document, path and value. */
  lemma {:induction false} ReplaceTwice(document: Json, tokens: seq<string>, value: Json)
    requires ApplyTokens(Replace, document, tokens, value).Ok?
    ensures var once := ApplyTokens(Replace, document, tokens, value);
            ApplyTokens(Replace, once.value, tokens, value) == once
    decreases |tokens|
  {
    if |tokens| == 1 {
      EditTwice(document, tokens[0], value);
    } else if tokens != [] {
      var child := Child(document, tokens[0], true).value;
      ReplaceTwice(child, tokens[1..], value);
      var edited := ApplyAt(Replace, child, tokens[1..], value).value;
      var once := PutChild(document, tokens[0], edited);
      ChildAfterPut(document, tokens[0], true, edited);
      assert Child(once, tokens[0], true) == Ok(edited);
      PutTwice(document, tokens[0], true, edited);
    }
  }

  lemma PutSame(document: Json, token: string)
    requires Child(document, token, false).Ok?
    ensures PutChild(document, token, Child(document, token, false).value) == document
  {
    if document.Arr? {
      var index := ParseInt(token).value;
      assert document.items[index := document.items[index]] == document.items;
    } else {
      assert document.fields[token := document.fields[token]] == document.fields;
    }
  }

  /** What a container must be for a remove to be let through: any object, or a list and an index or `-`. */
  predicate TakesRemove(container: Json, last: string) {
    container.Obj? || (container.Arr? && (last == "-" || ParseInt(last).Some?))
  }

  /**
   Removing what is not there changes nothing exactly when its container is there and
   takes the token. The patch's own description promises it without that condition.
   */
  lemma {:induction false} RemoveMissing(document: Json, tokens: seq<string>, value: Json)
    requires tokens != [] && Reach(document, tokens).None?
    ensures var container := Reach(document, Front(tokens));
            ApplyAt(Remove, document, tokens, value).Ok? <==> container.Some? && TakesRemove(container.value, Last(tokens))
    ensures ApplyAt(Remove, document, tokens, value).Ok? ==> ApplyAt(Remove, document, tokens, value) == Ok(document)
    decreases |tokens|
  {
    if |tokens| == 1 {
      assert tokens[1..] == [];
      if document.Obj? {
        assert tokens[0] !in document.fields;
        assert RemoveKey(document.fields, tokens[0]) == document.fields;
      }
    } else {
      assert Front(tokens)[1..] == Front(tokens[1..]);
      var child := Child(document, tokens[0], false);
      if child.Ok? {
        RemoveMissing(child.value, tokens[1..], value);
        PutSame(document, tokens[0]);
      }
    }
  }

  /** On the empty object, removing `/a` does nothing and removing `/a/b` fails. */
  lemma MissingRemoveCanFail()
    ensures Apply(Obj(map[]), Operation(Some("remove"), Some(Pointer(["a"])), Null)) == Ok(Obj(map[]))
    ensures Apply(Obj(map[]), Operation(Some("remove"), Some(Pointer(["a", "b"])), Null)) == Err(MissingKey)
  {
    TokensUndoesPointer(["a"]);
    TokensUndoesPointer(["a", "b"]);
    assert RemoveKey(map[], "a") == map[];
  }

  // ---------------------------------------------------------------- locality

  /** The path and the other pointer part at a key of an existing object. */
  predicate PartsAt(document: Json, path: seq<string>, other: seq<string>, k: nat) {
    && k < |path| && k < |other| && path[..k] == other[..k] && path[k] != other[k]
    && Reach(document, path[..k]).Some? && Reach(document, path[..k]).value.Obj?
  }

  /** An operation leaves every value alone whose pointer parts from its path at an object key. */
  lemma {:induction false} LocalAt(op: Op, document: Json, path: seq<string>, other: seq<string>, k: nat, value: Json)
    requires PartsAt(document, path, other, k) && ApplyAt(op, document, path, value).Ok?
    ensures Reach(ApplyAt(op, document, path, value).value, other) == Reach(document, other)
    decreases |path|
  {
    if k > 0 {
      assert path[..k][0] == other[..k][0];
      assert path[..k][1..] == path[1..][..k - 1] && other[..k][1..] == other[1..][..k - 1];
      var child := Child(document, path[0], op != Remove).value;
      assert child == Child(document, path[0], false).value;
      LocalAt(op, child, path[1..], other[1..], k - 1, value);
      ChildAfterPut(document, path[0], false, ApplyAt(op, child, path[1..], value).value);
    } else {
      assert path[..0] == [];
      var after := ApplyAt(op, document, path, value).value;
      assert Child(after, other[0], false) == Child(document, other[0], false);
    }
  }

  /** An object above the target stays an object. */
  lemma {:induction false} StaysObject(op: Op, document: Json, path: seq<string>, n: nat, value: Json)
    requires n < |path| && Reach(document, path[..n]).Some? && Reach(document, path[..n]).value.Obj?
    requires ApplyAt(op, document, path, value).Ok?
    ensures var now := Reach(ApplyAt(op, document, path, value).value, path[..n]);
            now.Some? && now.value.Obj?
    decreases |path|
  {
    if n > 0 {
      assert path[..n][1..] == path[1..][..n - 1];
      var child := Child(document, path[0], op != Remove).value;
      assert child == Child(document, path[0], false).value;
      StaysObject(op, child, path[1..], n - 1, value);
      ChildAfterPut(document, path[0], false, ApplyAt(op, child, path[1..], value).value);
    } else {
      assert path[..0] == [];
    }
  }

  lemma PartingStays(op: Op, document: Json, path: seq<string>, k: nat, other: seq<string>,
                     later: seq<string>, l: nat, value: Json)
    requires PartsAt(document, path, other, k) && PartsAt(document, later, other, l)
    requires ApplyAt(op, document, path, value).Ok?
    ensures PartsAt(ApplyAt(op, document, path, value).value, later, other, l)
  {
    if k < l {
      assert path[..k] == other[..l][..k];
      LocalAt(op, document, path, other[..l], k, value);
    } else {
      assert path[..l] == path[..k][..l] == other[..k][..l] == other[..l];
      StaysObject(op, document, path, l, value);
    }
  }

  ghost predicate Spares(document: Json, operation: Operation, other: seq<string>) {
    && operation.path.Some? && Tokens(operation.path.value).Ok?
    && exists k: nat :: PartsAt(document, Tokens(operation.path.value).value, other, k)
  }

  lemma SparedStep(document: Json, operation: Operation, other: seq<string>)
    requires Spares(document, operation, other) && Apply(document, operation).Ok?
    ensures Reach(Apply(document, operation).value, other) == Reach(document, other)
    ensures forall later :: Spares(document, later, other) ==> Spares(Apply(document, operation).value, later, other)
  {
    var op, path := OpOf(operation.op).value, Tokens(operation.path.value).value;
    var k: nat :| PartsAt(document, path, other, k);
    LocalAt(op, document, path, other, k, operation.value);
    forall later | Spares(document, later, other)
      ensures Spares(Apply(document, operation).value, later, other)
    {
      var tokens := Tokens(later.path.value).value;
      var l: nat :| PartsAt(document, tokens, other, l);
      PartingStays(op, document, path, k, other, tokens, l, operation.value);
    }
  }

  /** A whole patch leaves every value alone that each of its paths spares in the document it starts from. */
  lemma {:induction false} LocalAll(document: Json, operations: seq<Operation>, other: seq<string>)
    requires ApplyAll(document, operations).Ok?
    requires forall i :: 0 <= i < |operations| ==> Spares(document, operations[i], other)
    ensures Reach(ApplyAll(document, operations).value, other) == Reach(document, other)
    ensures forall later :: Spares(document, later, other) ==> Spares(ApplyAll(document, operations).value, later, other)
  {
    if operations == [] {
    } else {
      var front := operations[..|operations| - 1];
      LocalAll(document, front, other);
      SparedStep(ApplyAll(document, front).value, operations[|operations| - 1], other);
    }
  }

  // ---------------------------------------------------------------- lists shift by one

  lemma ReachThrough(document: Json, front: seq<string>, items: seq<Json>, j: nat, rest: seq<string>)
    requires Reach(document, front) == Some(Arr(items)) && j < |items|
    ensures Reach(document, front + [NatText(j)] + rest) == Reach(items[j], rest)
  {
    NatTextParses(j);
    assert front + [NatText(j)] + rest == front + ([NatText(j)] + rest);
    ReachJoined(document, front, [NatText(j)] + rest);
    assert ([NatText(j)] + rest)[1..] == rest;
  }

  /** The place in a list that a token names: `-` is the place after the last item. */
  predicate NamesPlace(token: string, items: seq<Json>, index: nat) {
    if token == "-" then index == |items| else ParseInt(token) == Some(index) && index <= |items|
  }

  lemma AddInserts(items: seq<Json>, token: string, value: Json, index: nat)
    requires NamesPlace(token, items, index)
    ensures Edit(Add, Arr(items), token, value) == Ok(Arr(items[..index] + [value] + items[index..]))
  {
    assert token == "-" ==> items[..index] + [value] + items[index..] == items + [value];
  }

  /** An operation on a list leaves its result where the list was. */
  lemma EditsList(op: Op, document: Json, tokens: seq<string>, value: Json, items: seq<Json>, after: seq<Json>)
    requires tokens != [] && Reach(document, Front(tokens)) == Some(Arr(items))
    requires Edit(op, Arr(items), Last(tokens), value) == Ok(Arr(after))
    ensures var done := ApplyAt(op, document, tokens, value);
            done.Ok? && Reach(done.value, Front(tokens)) == Some(Arr(after))
  {
    ReachIsContainer(document, Front(tokens));
    EditsContainer(op, document, tokens, value);
  }

  /** An insertion or append moves every sibling at or after its place up by one, with everything below it, and no other. */
  lemma AddShifts(document: Json, tokens: seq<string>, value: Json, items: seq<Json>, index: nat, j: nat, rest: seq<string>)
    requires tokens != [] && Reach(document, Front(tokens)) == Some(Arr(items))
    requires NamesPlace(Last(tokens), items, index) && j < |items|
    ensures var done := ApplyAt(Add, document, tokens, value);
            && done.Ok?
            && Reach(done.value, Front(tokens) + [NatText(if j < index then j else j + 1)] + rest)
               == Reach(document, Front(tokens) + [NatText(j)] + rest)
  {
    var after, j' := items[..index] + [value] + items[index..], if j < index then j else j + 1;
    AddInserts(items, Last(tokens), value, index);
    EditsList(Add, document, tokens, value, items, after);
    assert after[j'] == items[j];
    ReachThrough(document, Front(tokens), items, j, rest);
    ReachThrough(ApplyAt(Add, document, tokens, value).value, Front(tokens), after, j', rest);
  }

  /** A replacement in a list, also at the place after its end, leaves every sibling where it is, with everything below it. */
  lemma ReplaceStays(document: Json, tokens: seq<string>, value: Json, items: seq<Json>, index: nat, j: nat, rest: seq<string>)
    requires tokens != [] && Reach(document, Front(tokens)) == Some(Arr(items))
    requires Last(tokens) != "-" && NamesPlace(Last(tokens), items, index) && j < |items| && j != index
    ensures var done := ApplyAt(Replace, document, tokens, value);
            && done.Ok?
            && Reach(done.value, Front(tokens) + [NatText(j)] + rest) == Reach(document, Front(tokens) + [NatText(j)] + rest)
  {
    var after := if index == |items| then items + [value] else items[index := value];
    EditsList(Replace, document, tokens, value, items, after);
    ReachThrough(document, Front(tokens), items, j, rest);
    ReachThrough(ApplyAt(Replace, document, tokens, value).value, Front(tokens), after, j, rest);
  }

  /** A removal moves every later sibling down by one, with everything below it, and no other. */
  lemma RemoveShifts(document: Json, tokens: seq<string>, value: Json, items: seq<Json>, index: nat, j: nat, rest: seq<string>)
    requires tokens != [] && Reach(document, Front(tokens)) == Some(Arr(items))
    requires Last(tokens) != "-" && NamesPlace(Last(tokens), items, index) && index < |items| && j < |items| && j != index
    ensures var done := ApplyAt(Remove, document, tokens, value);
            && done.Ok?
            && Reach(done.value, Front(tokens) + [NatText(if j < index then j else j - 1)] + rest)
               == Reach(document, Front(tokens) + [NatText(j)] + rest)
  {
    var after := items[..index] + items[index + 1..];
    EditsList(Remove, document, tokens, value, items, after);
    ReachThrough(document, Front(tokens), items, j, rest);
    ReachThrough(ApplyAt(Remove, document, tokens, value).value, Front(tokens), after, if j < index then j else j - 1, rest);
  }
}
