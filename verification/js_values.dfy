/** Values as the JavaScript code sees them: an optional value, the result of
    `Number(x)` on a value that is present, and a request field that may be
    `undefined` or `null`. */
module JsValues {

  datatype Option<+T> = None | Some(value: T)

  /** The result of `Number(x)` or `parseFloat(x)`: a number or NaN. */
  datatype JsNumber = NaN | Finite(value: real)

  /** A request field before conversion: absent, `null`, or present, in which
      case `Number(x)` has been applied to it. */
  datatype RawNumber = Undefined | Null | Given(n: JsNumber)

  /** `Number(x)` on a raw field: `Number(undefined)` is NaN, `Number(null)` is 0. */
  function ToNumber(x: RawNumber): (n: JsNumber)
    ensures x.Undefined? ==> n == NaN
    ensures x.Null? ==> n == Finite(0.0)
    ensures x.Given? ==> n == x.n
  {
    match x
    case Undefined => NaN
    case Null => Finite(0.0)
    case Given(n) => n
  }

  /** JavaScript truthiness of a number: false for 0 and NaN. */
  predicate Truthy(n: JsNumber) {
    n.Finite? && n.value != 0.0
  }

  /** JavaScript truthiness of an optional string: false when absent or empty. */
  predicate PresentString(s: Option<string>) {
    s.Some? && s.value != ""
  }

  /** `s || dflt` for an optional string. */
  function StringOr(s: Option<string>, dflt: string): (r: string)
    ensures PresentString(s) ==> r == s.value
    ensures !PresentString(s) ==> r == dflt
  {
    if PresentString(s) then s.value else dflt
  }

  function Abs(x: real): (r: real)
    ensures r >= 0.0 && (r == x || r == -x)
  {
    if x < 0.0 then -x else x
  }

  function Max(a: real, b: real): (r: real)
    ensures r >= a && r >= b && (r == a || r == b)
  {
    if a >= b then a else b
  }

  function Min(a: real, b: real): (r: real)
    ensures r <= a && r <= b && (r == a || r == b)
  {
    if a <= b then a else b
  }

  /** `Math.round(x)` for a finite x: the nearest integer, halves rounded up. */
  function Round(x: real): (n: int)
    ensures n as real <= x + 0.5 < n as real + 1.0
  {
    (x + 0.5).Floor
  }

  lemma RoundMonotone(x: real, y: real)
    requires x <= y
    ensures Round(x) <= Round(y)
  {
  }
}
