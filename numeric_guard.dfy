/** Floating-point values as the filler sees them, and the guards that keep
    infinite or undefined values out of the stored features.

    A value is either a finite real number or one of the three non-finite
    IEEE values. Rounding, overflow to infinity and the sign of zero are not
    modelled: a finite result is the exact real result. */
module NumericGuard {

  datatype Float = Num(r: real) | PosInf | NegInf | NaN

  /** The "is finite" test the guards are built on. */
  predicate IsFinite(x: Float) {
    x.Num?
  }

  /** Division `a / b` of two floating-point values, following the IEEE
      cases that matter here: a finite value over a zero divisor is an
      infinity (0/0 is undefined), anything involving NaN is NaN, an
      infinity over an infinity is NaN and a finite value over an infinity
      is zero. A zero divisor is taken to be +0. */
  function Quotient(a: Float, b: Float): (q: Float)
    ensures IsFinite(q) <==> IsFinite(a) && (b.PosInf? || b.NegInf? || (IsFinite(b) && b.r != 0.0))
    ensures IsFinite(a) && IsFinite(b) && b.r != 0.0 ==> q == Num(a.r / b.r)
    ensures IsFinite(a) && IsFinite(b) && b.r == 0.0 ==> (q.NaN? <==> a.r == 0.0)
  {
    match (a, b)
    case (NaN, _) => NaN
    case (_, NaN) => NaN
    case (Num(x), Num(y)) =>
      if y != 0.0 then Num(x / y)
      else if x > 0.0 then PosInf
      else if x < 0.0 then NegInf
      else NaN
    case (Num(_), _) => Num(0.0)
    case (PosInf, Num(y)) => if y < 0.0 then NegInf else PosInf
    case (NegInf, Num(y)) => if y < 0.0 then PosInf else NegInf
    case (_, _) => NaN
  }

  /** Converts an integer count or code to a floating-point value. */
  function FromInt(n: int): (x: Float)
    ensures IsFinite(x) && x.r.Floor == n
  {
    Num(n as real)
  }

  /** The value of a boolean stored as a float: 1 for true, 0 for false. */
  function FromBool(b: bool): (x: Float)
    ensures IsFinite(x) && (x.r == 1.0 <==> b) && (x.r == 0.0 <==> !b)
  {
    Num(if b then 1.0 else 0.0)
  }

  /** `catchInfs(x, replace)`: a finite value passes through, an infinite or
      undefined one is replaced by the sentinel. */
  function CatchInfs(x: Float, replace: real): (r: real)
    ensures IsFinite(x) ==> r == x.r
    ensures !IsFinite(x) ==> r == replace
  {
    if IsFinite(x) then x.r else replace
  }

  /** `v` pulled into `[lower, upper]` when it lies outside. */
  function Clamp(v: real, lower: real, upper: real): (r: real)
    ensures lower <= upper ==> lower <= r <= upper
    ensures lower <= v <= upper ==> r == v
    ensures v < lower ==> r == lower
    ensures v > upper && lower <= upper ==> r == upper
  {
    if v < lower then lower
    else if v > upper then upper
    else v
  }

  /** `catchInfsAndBound(x, replace, lower, upper)`: the value after
      `CatchInfs`, pulled into `[lower, upper]` when it lies outside. */
  function CatchInfsAndBound(x: Float, replace: real, lower: real, upper: real): (r: real)
    ensures lower <= upper ==> lower <= r <= upper
    ensures IsFinite(x) && lower <= x.r <= upper ==> r == x.r
    ensures IsFinite(x) && x.r < lower ==> r == lower
    ensures IsFinite(x) && x.r > upper && lower <= upper ==> r == upper
    ensures !IsFinite(x) && lower <= replace <= upper ==> r == replace
  {
    Clamp(CatchInfs(x, replace), lower, upper)
  }
}
