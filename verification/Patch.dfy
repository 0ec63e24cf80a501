/**
 The replay's patch operations: the recursive meaning of one operation on a document, the
 loop that carries it out, and strict RFC 6902 as the definition it extends.
 */
module Patches {
  import opened Wrappers
  import opened Texts
  import opened Jsons
  import opened Pointers

  datatype Op = Add | Remove | Replace

  /** As read from the replay: the name and the path may be missing or of another type; a missing value reads as null. */
  datatype Operation = Operation(op: Option<string>, path: Option<string>, value: Json)

  function OpOf(name: Option<string>): Option<Op> {
    if name == Some("add") then Some(Add)
    else if name == Some("remove") then Some(Remove)
    else if name == Some("replace") then Some(Replace)
    else None
  }

  // ---------------------------------------------------------------- one level of a document

  function RemoveKey(fields: map<string, Json>, key: string): map<string, Json> {
    map k | k in fields && k != key :: fields[k]
  }

  /** The operation on the container that holds its target. */
  function Edit(op: Op, parent: Json, last: string, value: Json): Result<Json, PatchError> {
    match parent
    case Arr(items) =>
      if last == "-" then
        match op
        case Remove => Ok(parent)
        case Replace => Err(OutOfRange)
        case Add => Ok(Arr(items + [value]))
      else
        var index := ParseInt(last);
        if index.None? then Err(BadIndex) else EditItem(op, items, index.value, value)
    case Obj(fields) =>
      Ok(Obj(if op == Remove then RemoveKey(fields, last) else fields[last := value]))
    case _ => Err(NotAContainer)
  }

  function EditItem(op: Op, items: seq<Json>, index: int, value: Json): Result<Json, PatchError> {
    match op
    case Add => if index < 0 || index > |items| then Err(OutOfRange) else Ok(Arr(items[..index] + [value] + items[index..]))
    case Replace =>
      if index < 0 || index > |items| then Err(OutOfRange)
      else if index == |items| then Ok(Arr(items + [value]))
      else Ok(Arr(items[index := value]))
    case Remove =>
      if 0 <= index < |items| then Ok(Arr(items[..index] + items[index + 1..])) else Ok(Arr(items))
  }

  /** The child an intermediate token leads to; a missing key becomes an empty object when the operation creates. */
  function Child(current: Json, token: string, create: bool): Result<Json, PatchError> {
    match current
    case Arr(items) =>
      if token == "-" then Err(BadIndex)
      else
        var index := ParseInt(token);
        if index.None? then Err(BadIndex)
        else if index.value < 0 || index.value >= |items| then Err(OutOfRange)
        else Ok(items[index.value])
    case Obj(fields) =>
      if token in fields then Ok(fields[token]) else if create then Ok(Obj(map[])) else Err(MissingKey)
    case _ => Err(NotAContainer)
  }

  /** The container with the child that a token leads to exchanged. */
  function PutChild(current: Json, token: string, child: Json): Json {
    match current
    case Arr(items) =>
      var index := ParseInt(token);
      if index.Some? && 0 <= index.value < |items| then Arr(items[index.value := child]) else current
    case Obj(fields) => Obj(fields[token := child])
    case _ => current
  }

  // ---------------------------------------------------------------- one operation

  function ApplyAt(op: Op, document: Json, tokens: seq<string>, value: Json): Result<Json, PatchError>
    requires tokens != []
    decreases |tokens|
  {
    if |tokens| == 1 then Edit(op, document, tokens[0], value)
    else
      var child := Child(document, tokens[0], op != Remove);
      if child.Err? then child
      else
        var edited := ApplyAt(op, child.value, tokens[1..], value);
        if edited.Err? then edited else Ok(PutChild(document, tokens[0], edited.value))
  }

  function ApplyTokens(op: Op, document: Json, tokens: seq<string>, value: Json): Result<Json, PatchError> {
    if tokens == [] then Ok(if op == Remove then Null else value) else ApplyAt(op, document, tokens, value)
  }

  function Apply(document: Json, operation: Operation): Result<Json, PatchError> {
    var op := OpOf(operation.op);
    if op.None? then Err(UnsupportedOperation)
    else if operation.path.None? then Err(PathNotText)
    else
      var tokens := Tokens(operation.path.value);
      if tokens.Err? then Err(tokens.error) else ApplyTokens(op.value, document, tokens.value, operation.value)
  }

  function ApplyAll(document: Json, operations: seq<Operation>): Result<Json, PatchError> {
    if operations == [] then Ok(document)
    else
      var before := ApplyAll(document, operations[..|operations| - 1]);
      if before.Err? then before else Apply(before.value, operations[|operations| - 1])
  }

  lemma {:induction false} ApplyAllErrStays(document: Json, operations: seq<Operation>, n: nat)
    requires n <= |operations| && ApplyAll(document, operations[..n]).Err?
    ensures ApplyAll(document, operations) == ApplyAll(document, operations[..n])
  {
    if n < |operations| {
      assert operations[..|operations| - 1][..n] == operations[..n];
      ApplyAllErrStays(document, operations[..|operations| - 1], n);
    } else {
      assert operations[..n] == operations;
    }
  }

  // ---------------------------------------------------------------- the program's loop

  /** A container passed on the way down, and the token that was followed out of it. */
  datatype Passed = Passed(container: Json, token: string)

  /** The document with the node at the end of the way exchanged: what a write through a reference does. */
  function WriteBack(way: seq<Passed>, node: Json): Json {
    if way == [] then node
    else
      var last := way[|way| - 1];
      WriteBack(way[..|way| - 1], PutChild(last.container, last.token, node))
  }

  /** `_resolve_parent`: walk to the container of the target. */
  method ResolveParent(document: Json, tokens: seq<string>, create: bool)
    returns (r: Result<Json, PatchError>, way: seq<Passed>)
    requires tokens != []
    ensures forall op: Op, value: Json :: (op != Remove <==> create) ==>
              ApplyAt(op, document, tokens, value)
              == if r.Err? then r else Written(way, Edit(op, r.value, tokens[|tokens| - 1], value))
  {
    var current := document;
    way := [];
    for i := 0 to |tokens| - 1
      invariant forall op: Op, value: Json :: (op != Remove <==> create) ==>
                  ApplyAt(op, document, tokens, value) == Written(way, ApplyAt(op, current, tokens[i..], value))
    {
      var token := tokens[i];
      ghost var was, before := current, way;
      way := way + [Passed(current, token)];
      if current.Arr? {
        if token == "-" {
          return Err(BadIndex), way;
        }
        var index := ParseInt(token);
        if index.None? {
          return Err(BadIndex), way;
        }
        if index.value < 0 || index.value >= |current.items| {
          return Err(OutOfRange), way;
        }
        current := current.items[index.value];
      } else if current.Obj? {
        if token !in current.fields {
          if !create {
            return Err(MissingKey), way;
          }
          current := Obj(map[]);
        } else {
          current := current.fields[token];
        }
      } else {
        return Err(NotAContainer), way;
      }
      forall op: Op, value: Json | (op != Remove <==> create)
        ensures Written(before, ApplyAt(op, was, tokens[i..], value)) == Written(way, ApplyAt(op, current, tokens[i + 1..], value))
      {
        OneLevelDown(op, was, tokens[i..], value, before);
        assert tokens[i..][1..] == tokens[i + 1..];
      }
    }
    assert tokens[|tokens| - 1..] == [tokens[|tokens| - 1]];
    return Ok(current), way;
  }

  function Written(way: seq<Passed>, node: Result<Json, PatchError>): Result<Json, PatchError> {
    if node.Err? then node else Ok(WriteBack(way, node.value))
  }

  lemma OneLevelDown(op: Op, current: Json, tokens: seq<string>, value: Json, way: seq<Passed>)
    requires |tokens| > 1 && Child(current, tokens[0], op != Remove).Ok?
    ensures var child := Child(current, tokens[0], op != Remove).value;
            Written(way, ApplyAt(op, current, tokens, value))
            == Written(way + [Passed(current, tokens[0])], ApplyAt(op, child, tokens[1..], value))
  {
    assert (way + [Passed(current, tokens[0])])[..|way|] == way;
  }

  /** `apply_duels_patch_operation`. */
  method ApplyOperation(document: Json, operation: Operation) returns (r: Result<Json, PatchError>)
    ensures r == Apply(document, operation)
  {
    var op := OpOf(operation.op);
    if op.None? {
      return Err(UnsupportedOperation);
    }
    if operation.path.None? {
      return Err(PathNotText);
    }
    if operation.path.value == "" {
      return Ok(if op.value == Remove then Null else operation.value);
    }
    var tokens := Tokens(operation.path.value);
    if tokens.Err? {
      return Err(tokens.error);
    }
    var parent, way := ResolveParent(document, tokens.value, op.value != Remove);
    if parent.Err? {
      return parent;
    }
    return Written(way, Edit(op.value, parent.value, tokens.value[|tokens.value| - 1], operation.value));
  }

  /** The state that `parse_replay` carries from frame to frame. */
  class Reconstruction {
    var state: Json

    constructor (baseSnapshot: Json)
      ensures state == baseSnapshot
    {
      state := baseSnapshot;
    }

    /** `apply_duels_patch`: every operation of a frame in turn; the first failure aborts. */
    method ApplyPatch(operations: seq<Operation>) returns (r: Result<Json, PatchError>)
      modifies this
      ensures r == ApplyAll(old(state), operations)
      ensures r.Ok? ==> state == r.value
    {
      for i := 0 to |operations|
        invariant ApplyAll(old(state), operations[..i]) == Ok(state)
      {
        assert operations[..i + 1][..i] == operations[..i];
        var next := ApplyOperation(state, operations[i]);
        if next.Err? {
          ApplyAllErrStays(old(state), operations, i + 1);
          return next;
        }
        state := next.value;
      }
      assert operations[..|operations|] == operations;
      return Ok(state);
    }
  }
}
