/** JavaScript values that the dashboard's logic depends on: `undefined`
    (as Option), thrown errors (as Result), numbers that may be NaN, and
    `Math.round`. Numbers are exact reals; floating-point rounding of
    sums is not modelled. */
module JsValues {

  datatype Option<+T> = None | Some(value: T) {
    function GetOr(default: T): T {
      match this
      case Some(v) => v
      case None => default
    }
  }

  datatype Result<+R, +E> = Success(value: R) | Failure(error: E)

  /** A JavaScript number: a finite value or NaN. */
  datatype JsNumber = Num(v: real) | NaN

  /** `a + b` on numbers: NaN is absorbing. */
  function Add(a: JsNumber, b: JsNumber): (r: JsNumber)
    ensures r.Num? <==> a.Num? && b.Num?
    ensures r.Num? ==> r.v == a.v + b.v
  {
    if a.Num? && b.Num? then Num(a.v + b.v) else NaN
  }

  /** `Math.round(x)` for a finite x: the nearest integer, halves rounded up. */
  function Round(x: real): (r: int)
    ensures r as real - 0.5 <= x < r as real + 0.5
  {
    (x + 0.5).Floor
  }

  /** Rounding is monotone. */
  lemma RoundMonotone(x: real, y: real)
    requires x <= y
    ensures Round(x) <= Round(y)
  {
  }

  /** Rounding an integer gives it back. */
  lemma RoundOfInt(n: int)
    ensures Round(n as real) == n
  {
  }

  /** `Math.round(n)` on a number that may be NaN. */
  function RoundNumber(n: JsNumber): (r: JsNumber)
    ensures r.Num? <==> n.Num?
    ensures r.Num? ==> r.v == Round(n.v) as real
  {
    match n
    case Num(v) => Num(Round(v) as real)
    case NaN => NaN
  }

  /** `Math.abs` on a finite value. */
  function Abs(x: real): (r: real)
    ensures r >= 0.0 && (r == x || r == -x)
  {
    if x < 0.0 then -x else x
  }
}
