/** The slice of JavaScript value semantics the handlers rely on: query-string
    and body fields arrive as loosely typed values, and the code tests them with
    `!x`, `x && y` and `x || default`. */
module Js {

  /** A JSON/query value. A finite number is a real; `NaN` (what
      `parseFloat` and `parseInt` give for text that is not a number) is a
      value of its own. */
  datatype JsValue = Undefined | Null | Num(n: real) | NaN | Str(s: string) | Bool(b: bool)

  /** JavaScript truthiness: `undefined`, `null`, `0`, `NaN`, `""` and
      `false` are falsy. */
  predicate Truthy(v: JsValue) {
    match v
    case Undefined => false
    case Null => false
    case Num(n) => n != 0.0
    case NaN => false
    case Str(s) => s != ""
    case Bool(b) => b
  }

  /** `a || b`: the left operand when it is truthy, otherwise the right one. */
  function Or(a: JsValue, b: JsValue): (r: JsValue)
    ensures Truthy(a) ==> r == a
    ensures !Truthy(a) ==> r == b
  {
    if Truthy(a) then a else b
  }

  /** A destructuring default, `{ x = d } = obj`: it applies only when the
      field is `undefined`, so `null`, `0` and `""` are kept. */
  function Default(v: JsValue, d: JsValue): (r: JsValue)
    ensures v == Undefined ==> r == d
    ensures v != Undefined ==> r == v
  {
    if v == Undefined then d else v
  }

  /** A finite number rounded toward zero, as `ToIntegerOrInfinity` does:
      the result has the number's sign and lies less than one away from it. */
  function Truncate(n: real): (k: int)
    ensures n >= 0.0 ==> 0 <= k && k as real <= n < k as real + 1.0
    ensures n < 0.0 ==> k <= 0 && k as real - 1.0 < n <= k as real
  {
    if n >= 0.0 then n.Floor else -((-n).Floor)
  }

  /** The integer an index argument such as `slice`'s converts to: numbers
      round toward zero, `true` is 1, and everything that is not a number
      (`undefined`, `null`, `NaN`, text `toNumber` does not read as a finite
      number) is 0. `toNumber` is JavaScript's string-to-number conversion. */
  function ToInteger(v: JsValue, toNumber: string -> JsValue): (k: int)
    ensures v.Num? ==> k == Truncate(v.n)
    ensures v.Str? && toNumber(v.s).Num? ==> k == Truncate(toNumber(v.s).n)
    ensures v.NaN? || v.Undefined? || v.Null? || (v.Str? && !toNumber(v.s).Num?) ==> k == 0
  {
    match v
    case Num(n) => Truncate(n)
    case Str(s) => (match toNumber(s) case Num(n) => Truncate(n) case _ => 0)
    case Bool(b) => if b then 1 else 0
    case _ => 0
  }

  /** Where `xs.slice(0, end)` stops in a sequence of length `len`: a
      negative end counts back from the length, and the index is clamped
      to the sequence. */
  function SliceEnd(len: nat, end: int): (k: nat)
    ensures k <= len
    ensures 0 <= end <= len ==> k == end
    ensures end > len ==> k == len
    ensures end < 0 && len + end >= 0 ==> k == len + end
    ensures len + end < 0 ==> k == 0
  {
    if end < 0 then (if len + end > 0 then len + end else 0)
    else if end < len then end else len
  }
}
