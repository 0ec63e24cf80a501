/** JSON documents as the program holds them. */
module Jsons {
  datatype Json =
    | Null | Bool(b: bool) | Int(n: int) | Float(r: real) | Str(s: string)
    | Arr(items: seq<Json>)
    | Obj(fields: map<string, Json>)

  /** Whether a value counts as true. */
  predicate Truthy(j: Json) {
    match j
    case Null => false
    case Bool(b) => b
    case Int(n) => n != 0
    case Float(r) => r != 0.0
    case Str(s) => s != ""
    case Arr(items) => items != []
    case Obj(fields) => fields != map[]
  }

  /** `value or {}`. */
  function OrEmpty(j: Json): Json { if Truthy(j) then j else Obj(map[]) }

  function Fields(j: Json): map<string, Json> { if j.Obj? then j.fields else map[] }

  /** `object.get(key)`: a missing key reads as null. */
  function Field(j: Json, key: string): Json { if key in Fields(j) then Fields(j)[key] else Null }

  /** `len(value)` of a sized value. */
  function Size(j: Json): nat {
    match j
    case Str(s) => |s|
    case Arr(items) => |items|
    case Obj(fields) => |fields|
    case _ => 0
  }
}
