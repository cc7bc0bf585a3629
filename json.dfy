/** The part of the JSON library's value model the engine bridge uses: objects keyed by
    strings, arrays, strings, booleans and numbers. Numbers the game only passes
    through (komi, temperatures, ownership values) are kept as opaque reals. */
module Json {
  import opened Wrappers

  datatype Json =
    | JNull
    | JBool(b: bool)
    | JInt(i: int)
    | JNum(r: real)
    | JStr(s: string)
    | JArr(items: seq<Json>)
    | JObj(fields: map<string, Json>)

  /** `contains(key)`: only an object has keys. */
  predicate Contains(j: Json, key: string) {
    j.JObj? && key in j.fields
  }

  /** `empty()`: null is empty, an array or object is empty when it has no entry,
      every other value is not empty. */
  predicate IsEmpty(j: Json) {
    match j
    case JNull => true
    case JArr(items) => |items| == 0
    case JObj(fields) => |fields| == 0
    case _ => false
  }

  /** `size()`: 0 for null, the number of entries of an array or object, 1 otherwise. */
  function Size(j: Json): (n: nat)
    ensures n == 0 <==> IsEmpty(j)
  {
    match j
    case JNull => 0
    case JArr(items) => |items|
    case JObj(fields) => |fields|
    case _ => 1
  }

  /** `j[key] = v` on an object. */
  function Set(j: Json, key: string, v: Json): (r: Json)
    requires j.JObj?
    ensures r.JObj? && r.fields == j.fields[key := v]
  {
    JObj(j.fields[key := v])
  }

  /** The string stored under `key`, if `j` is an object holding one. */
  function StringAt(j: Json, key: string): (r: Option<string>)
    ensures r.Some? <==> Contains(j, key) && j.fields[key].JStr?
    ensures r.Some? ==> j.fields[key] == JStr(r.value)
  {
    if Contains(j, key) && j.fields[key].JStr? then Some(j.fields[key].s) else None
  }

  /** An array of strings. */
  function Strings(xs: seq<string>): (r: Json)
    ensures r.JArr? && |r.items| == |xs| && forall k :: 0 <= k < |xs| ==> r.items[k] == JStr(xs[k])
  {
    JArr(seq(|xs|, k requires 0 <= k < |xs| => JStr(xs[k])))
  }

  /** An array of arrays of strings, the shape of a move list. */
  function StringRows(rows: seq<seq<string>>): (r: Json)
    ensures r.JArr? && |r.items| == |rows| && forall k :: 0 <= k < |rows| ==> r.items[k] == Strings(rows[k])
  {
    JArr(seq(|rows|, k requires 0 <= k < |rows| => Strings(rows[k])))
  }
}
