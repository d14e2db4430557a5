/**
 The JavaScript values the helpers inspect: response bodies, rows and their
 fields. `Undefined` stands for a missing property as well as the value
 `undefined`; numbers are integers.
 */
module JsValue {

  datatype Json =
    | Undefined
    | Null
    | Bool(b: bool)
    | Num(n: int)
    | Str(s: string)
    | Arr(items: seq<Json>)
    | Obj(fields: map<string, Json>)

  /** JavaScript truthiness: `undefined`, `null`, `false`, `0` and `""` are falsy. */
  predicate Truthy(v: Json) {
    match v
    case Undefined => false
    case Null => false
    case Bool(b) => b
    case Num(n) => n != 0
    case Str(s) => s != ""
    case Arr(_) => true
    case Obj(_) => true
  }

  /** `v === null || v === undefined` */
  predicate Nullish(v: Json) {
    v.Undefined? || v.Null?
  }

  /** Property read `v[key]` on a value that is not nullish. Objects look the
      key up and arrays answer `length`; every other read is `undefined`. */
  function Get(v: Json, key: string): Json
    requires !Nullish(v)
  {
    match v
    case Obj(fields) => if key in fields then fields[key] else Undefined
    case Arr(items) => if key == "length" then Num(|items|) else Undefined
    case _ => Undefined
  }

  /** Optional chaining `v?.[key]`: `undefined` when `v` is nullish. */
  function OptGet(v: Json, key: string): Json {
    if Nullish(v) then Undefined else Get(v, key)
  }

  /** Index read `v[i]` on a value that is not nullish. */
  function At(v: Json, i: nat): Json
    requires !Nullish(v)
  {
    match v
    case Arr(items) => if i < |items| then items[i] else Undefined
    case Str(s) => if i < |s| then Str([s[i]]) else Undefined
    case Obj(fields) => Get(v, NatToString(i))
    case _ => Undefined
  }

  /** ASCII case folding used for `toLowerCase`. */
  function LowerChar(c: char): char {
    if 'A' <= c <= 'Z' then (c as int + 32) as char else c
  }

  function ToLowerAscii(s: string): (r: string)
    ensures |r| == |s|
    ensures forall i :: 0 <= i < |s| ==> r[i] == LowerChar(s[i])
  {
    seq(|s|, i requires 0 <= i < |s| => LowerChar(s[i]))
  }

  function DigitChar(d: nat): char
    requires d < 10
  {
    ('0' as int + d) as char
  }

  /** Decimal rendering of a non-negative integer, as template literals print it. */
  function NatToString(n: nat): string
    decreases n
  {
    if n < 10 then [DigitChar(n)] else NatToString(n / 10) + [DigitChar(n % 10)]
  }

  function IntToString(n: int): string {
    if n < 0 then "-" + NatToString(-n) else NatToString(n)
  }

  /** `String(v)`, the text a template literal `${v}` produces. */
  function Display(v: Json): string
    decreases v
  {
    match v
    case Undefined => "undefined"
    case Null => "null"
    case Bool(b) => if b then "true" else "false"
    case Num(n) => IntToString(n)
    case Str(s) => s
    case Arr(items) => DisplayItems(items)
    case Obj(_) => "[object Object]"
  }

  /** `Array.prototype.join(",")`, which prints nullish elements as "". */
  function DisplayItems(items: seq<Json>): string
    decreases items
  {
    if |items| == 0 then ""
    else
      var head := if Nullish(items[0]) then "" else Display(items[0]);
      if |items| == 1 then head else head + "," + DisplayItems(items[1..])
  }
}
