/** JavaScript values as the chart settings editor sees them, and the few
    language operations its logic leans on: truthiness, loose `== null`,
    object spread, `toLowerCase`, `Array.prototype.findIndex` and `indexOf`. */
module JsValues {

  datatype Option<+T> = None | Some(value: T)

  /** A JSON-like value. Numbers are integers in this model. */
  datatype Value =
    | Undefined
    | Null
    | Bool(b: bool)
    | Num(n: int)
    | Str(s: string)
    | List(items: seq<Value>)
    | Obj(fields: map<string, Value>)

  /** A plain object: a settings map or a widget's props. */
  type Props = map<string, Value>

  /** `obj[key]`: a missing key reads as `undefined`. */
  function Get(obj: Props, key: string): Value
  {
    if key in obj then obj[key] else Undefined
  }

  /** What `if (v)` decides. */
  predicate Truthy(v: Value)
  {
    match v
    case Undefined => false
    case Null => false
    case Bool(b) => b
    case Num(n) => n != 0
    case Str(s) => s != ""
    case List(_) => true
    case Obj(_) => true
  }

  /** `v == null` with loose equality: true of `null` and `undefined` only. */
  predicate IsNullish(v: Value)
  {
    v == Null || v == Undefined
  }

  /** `v.length` where it is defined (arrays and strings). */
  function LengthOf(v: Value): Option<nat>
  {
    match v
    case List(items) => Some(|items|)
    case Str(s) => Some(|s|)
    case _ => None
  }

  /** `{...base, ...top}`: every key of either object; where both have a key, `top` wins. */
  function Overlay(base: Props, top: Props): (r: Props)
    ensures r.Keys == base.Keys + top.Keys
    ensures forall k :: k in top ==> r[k] == top[k]
    ensures forall k :: k in base && k !in top ==> r[k] == base[k]
  {
    base + top
  }

  /** `String.prototype.toLowerCase` on the ASCII letters. */
  function LowerChar(c: char): char
  {
    if 'A' <= c <= 'Z' then (c as int + 32) as char else c
  }

  function Lower(s: string): string
  {
    seq(|s|, i requires 0 <= i < |s| => LowerChar(s[i]))
  }

  /** `Array.prototype.findIndex`, with "not found" as `None`. */
  function FindIndex<T>(s: seq<T>, p: T -> bool): (r: Option<nat>)
    ensures r.Some? ==> r.value < |s| && p(s[r.value])
    ensures r.Some? ==> forall j :: 0 <= j < r.value ==> !p(s[j])
    ensures r.None? ==> forall j :: 0 <= j < |s| ==> !p(s[j])
  {
    if |s| == 0 then None
    else if p(s[0]) then Some(0)
    else
      match FindIndex(s[1..], p)
      case None => None
      case Some(i) => Some(i + 1)
  }

  /** `Array.prototype.indexOf`: the first position of `x`, or -1. */
  function IndexOf<T(==)>(s: seq<T>, x: T): (r: int)
    ensures -1 <= r < |s|
    ensures r >= 0 ==> s[r] == x && forall j :: 0 <= j < r ==> s[j] != x
    ensures r == -1 <==> x !in s
  {
    match FindIndex(s, y => y == x)
    case Some(i) => i
    case None => -1
  }
}
