/**
 * The values a JavaScript number expression can take in the derived metrics:
 * a finite number (kept exact, as a real), the two infinities and NaN.
 * Only division and `Math.min` are needed, with IEEE semantics for a zero
 * divisor; rounding of finite values is not modelled.
 */
module JsNumber {
  datatype JsNum = Num(v: real) | PosInf | NegInf | NaN

  /** `a / b`: a zero divisor gives an infinity with the sign of `a`, or NaN for `0 / 0`. */
  function Div(a: real, b: real): JsNum {
    if b != 0.0 then Num(a / b)
    else if a > 0.0 then PosInf
    else if a < 0.0 then NegInf
    else NaN
  }

  /** `Math.min(x, y)` for a finite `y`: NaN wins, an infinity gives way to `y` or wins. */
  function Min(x: JsNum, y: real): JsNum {
    match x
    case Num(v) => Num(if v <= y then v else y)
    case PosInf => Num(y)
    case NegInf => NegInf
    case NaN => NaN
  }

  /** `x++` on a field holding `x`; an absent field (`undefined`) reads as NaN. */
  function Increment(x: JsNum): JsNum {
    match x
    case Num(v) => Num(v + 1.0)
    case _ => x
  }
}
