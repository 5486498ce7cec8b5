/** The numerical library the wells are built on, treated as opaque.

    Every trigonometric, exponential and square-root value, numpy's trapezoidal
    integral and scipy's root finder are fields of an `Oracles` value: the model
    proves its properties for whatever those functions return. Double-precision
    results that are not finite (the `float('inf')` sentinel, division by zero)
    are made explicit by the `Float` datatype. */
module Numerics {

  datatype Option<T> = None | Some(value: T)

  /** A double as far as the wells need one: finite, one of the two
      infinities, or NaN. */
  datatype Float = Finite(v: real) | PosInf | NegInf | NaN

  function Abs(x: real): real { if x < 0.0 then -x else x }

  /** x / y on finite doubles: a zero divisor gives an infinity carrying the
      sign of the dividend, and 0 / 0 gives NaN. */
  function Divide(x: real, y: real): (r: Float)
    ensures r.Finite? <==> y != 0.0
    ensures r == NaN <==> x == 0.0 && y == 0.0
    ensures r == PosInf <==> x > 0.0 && y == 0.0
    ensures r == NegInf <==> x < 0.0 && y == 0.0
  {
    if y != 0.0 then Finite(x / y)
    else if x > 0.0 then PosInf
    else if x < 0.0 then NegInf
    else NaN
  }

  /** f - y for a finite y: the infinities and NaN absorb the subtraction. */
  function Minus(f: Float, y: real): (r: Float)
    ensures r.Finite? <==> f.Finite?
    ensures r.Finite? ==> r.v + y == f.v
    ensures !r.Finite? ==> r == f
  {
    match f
    case Finite(v) => Finite(v - y)
    case _ => f
  }

  /** `abs(f) < tol` in double arithmetic: false for both infinities and NaN. */
  predicate AbsBelow(f: Float, tol: real) {
    f.Finite? && Abs(f.v) < tol
  }

  /** The foreign numerical functions. `trapz(ys, xs)` is numpy's trapezoidal
      integral of ys over the abscissae xs; `fsolve(f, guess)` is scipy's root
      finder started at guess, `None` standing for a call that raised. */
  datatype Oracles = Oracles(
    sqrt: real -> real,
    tan: real -> real,
    sin: real -> real,
    cos: real -> real,
    exp: real -> real,
    trapz: (seq<real>, seq<real>) -> real,
    fsolve: (real -> Float, real) -> Option<real>)

  /** f(-t) == f(t) everywhere, as for cos. */
  ghost predicate EvenFunction(f: real -> real) {
    forall t, u {:trigger f(t), f(u)} :: u == -t ==> f(u) == f(t)
  }

  /** f(-t) == -f(t) everywhere, as for sin. */
  ghost predicate OddFunction(f: real -> real) {
    forall t, u {:trigger f(t), f(u)} :: u == -t ==> f(u) == -f(t)
  }

  /** The square root of a positive number is positive. */
  ghost predicate RootsPositive(num: Oracles) {
    forall y: real {:trigger num.sqrt(y)} :: y > 0.0 ==> num.sqrt(y) > 0.0
  }
}
