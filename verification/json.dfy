/**
 * JSON-like values as the plugin sees them, and the few JavaScript coercions
 * its guards depend on: truthiness, `String(v)` and loose equality with ''.
 */
module Json {

  datatype Value =
    | Str(s: string)
    | Num(n: int)
    | Bool(b: bool)
    | Null
    | Arr(items: seq<Value>)
    | Obj(fields: map<string, Value>)

  /** A document or a query object: a key that is absent stands for `undefined`. */
  type Doc = map<string, Value>

  /** `s.length` in JavaScript: UTF-16 code units, so a character outside the Basic
      Multilingual Plane counts twice. */
  function JsLength(s: string): (n: nat)
    ensures |s| <= n <= 2 * |s|
    ensures (forall i :: 0 <= i < |s| ==> s[i] as int <= 0xFFFF) ==> n == |s|
  {
    if s == [] then 0 else (if s[0] as int > 0xFFFF then 2 else 1) + JsLength(s[1..])
  }

  /** JavaScript truthiness. */
  predicate Truthy(v: Value) {
    match v
    case Str(s) => s != ""
    case Num(n) => n != 0
    case Bool(b) => b
    case Null => false
    case Arr(_) => true
    case Obj(_) => true
  }

  function DigitText(d: nat): string
    requires d < 10
  {
    ["0123456789"[d]]
  }

  /** Decimal notation of a natural number. */
  function NatText(n: nat): (r: string)
    ensures |r| > 0
  {
    if n < 10 then DigitText(n) else NatText(n / 10) + DigitText(n % 10)
  }

  function IntText(n: int): (r: string)
    ensures |r| > 0
  {
    if n < 0 then "-" + NatText(-n) else NatText(n)
  }

  /** `String(v)`: what `toString()` and the coercions of `==` produce. */
  function ToText(v: Value): string
  {
    match v
    case Str(s) => s
    case Num(n) => IntText(n)
    case Bool(b) => if b then "true" else "false"
    case Null => "null"
    case Arr(items) => JoinText(items)
    case Obj(_) => "[object Object]"
  }

  /** `Array.prototype.join(",")`: null elements print as the empty string. */
  function JoinText(items: seq<Value>): string
  {
    if |items| == 0 then ""
    else
      var head := if items[0].Null? then "" else ToText(items[0]);
      if |items| == 1 then head else head + "," + JoinText(items[1..])
  }

  /** `v == ''` under JavaScript's loose equality. */
  predicate LooseEqualsEmpty(v: Value) {
    match v
    case Str(s) => s == ""
    case Num(n) => n == 0
    case Bool(b) => !b
    case Null => false
    case Arr(_) => ToText(v) == ""
    case Obj(_) => false
  }

  /** The write-side guard `value && value != ''` of every encoder. */
  predicate ShouldEncode(v: Value) {
    Truthy(v) && !LooseEqualsEmpty(v)
  }

  /** A value the write side encrypts always has a non-empty text. */
  lemma ShouldEncodeHasText(v: Value)
    requires ShouldEncode(v)
    ensures ToText(v) != ""
  {
  }
}
