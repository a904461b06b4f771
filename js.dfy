/**
 * The few JavaScript run-time notions the catalog helpers rely on: dynamically
 * typed values and their truthiness, plain objects read as ordered key/value
 * lists, values that are supposed to be arrays but may not be, and the string
 * operations the helpers use.
 */
module Js {
  import opened Wrappers

  /** A JSON value as the helpers inspect it. Numbers are integers in this model. */
  datatype JsVal = JsUndefined | JsNull | JsBool(b: bool) | JsNum(n: int) | JsStr(s: string)

  /** JavaScript truthiness: `undefined`, `null`, `false`, `0` and `""` are falsy. */
  predicate Truthy(v: JsVal) {
    match v
    case JsUndefined => false
    case JsNull => false
    case JsBool(b) => b
    case JsNum(n) => n != 0
    case JsStr(s) => s != ""
  }

  /** JavaScript's `a || b`. */
  function Or(a: JsVal, b: JsVal): JsVal {
    if Truthy(a) then a else b
  }

  /**
   * A plain object such as `{ en: "...", ja: "..." }`, as its entries in
   * property order (the order `Object.values` reports).
   */
  type Dict = seq<(string, JsVal)>

  /** `obj[key]`: the value of the first entry with that key, `undefined` if none. */
  function Get(obj: Dict, key: string): JsVal {
    if |obj| == 0 then JsUndefined
    else if obj[0].0 == key then obj[0].1
    else Get(obj[1..], key)
  }

  /** `Object.values(obj)[0]`. */
  function FirstValue(obj: Dict): JsVal {
    if |obj| == 0 then JsUndefined else obj[0].1
  }

  /**
   * A value the TypeScript types call an array but that the service checks at
   * run time: either a real array or something else (`undefined`, `null`).
   */
  datatype Loose<+T> = Arr(items: seq<T>) | NotArray

  /** A response body: a non-null object, or anything else (`null`, `undefined`, a primitive). */
  datatype Payload<+T> = Object(value: T) | NotObject

  /** A nullable string is truthy when present and non-empty. */
  predicate Filled(s: Option<string>) {
    s.Some? && s.value != ""
  }

  /** `s.startsWith(prefix)`. */
  predicate StartsWith(s: string, prefix: string) {
    prefix <= s
  }

  /** `s.includes(part)`. */
  predicate Includes(s: string, part: string)
    decreases |s|
  {
    part <= s || (|s| > 0 && Includes(s[1..], part))
  }

  /** `xs.join(sep)`. */
  function Join(xs: seq<string>, sep: string): string {
    if |xs| == 0 then ""
    else if |xs| == 1 then xs[0]
    else xs[0] + sep + Join(xs[1..], sep)
  }

  /** The decimal digits of `n`, as `String(n)` prints it. */
  function NatToString(n: nat): (r: string)
    ensures |r| >= 1
    ensures forall i :: 0 <= i < |r| ==> '0' <= r[i] <= '9'
  {
    var d := ['0' + (n % 10) as char];
    if n < 10 then d else NatToString(n / 10) + d
  }

  /** `String(i)` for an integer. */
  function IntToString(i: int): string {
    if i < 0 then "-" + NatToString(-i) else NatToString(i)
  }
}
