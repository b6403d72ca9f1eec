/** The part of JavaScript's `Math` (and GLSL's built-ins) that the renderer calls, over
    the reals. The transcendental functions are not defined here: a `MathLib` value carries
    whichever functions the caller supplies, and each proof names the laws of the real
    functions it relies on through the predicates below. */
module RealMath {

  datatype MathLib = MathLib(
    sqrt: real -> real,
    sin: real -> real,
    cos: real -> real,
    tan: real -> real,
    acos: real -> real,
    exp: real -> real,
    log: real -> real)

  /** `Math.PI`, written as the decimal expansion of the double it denotes. */
  const PI: real := 3.141592653589793

  function Abs(x: real): (r: real)
    ensures r >= 0.0
    ensures r == x || r == -x
  {
    if x < 0.0 then -x else x
  }

  /** GLSL `clamp(x, lo, hi)`. */
  function Clamp(x: real, lo: real, hi: real): (r: real)
    requires lo <= hi
    ensures lo <= r <= hi
    ensures lo <= x <= hi ==> r == x
    ensures x < lo ==> r == lo
    ensures x > hi ==> r == hi
  {
    if x < lo then lo else if x > hi then hi else x
  }

  function MinInt(a: int, b: int): (r: int)
    ensures r <= a && r <= b
    ensures r == a || r == b
  {
    if a <= b then a else b
  }

  // Laws of the real exponential and logarithm.

  ghost predicate ExpPositive(exp: real -> real)
  {
    forall x :: exp(x) > 0.0
  }

  ghost predicate ExpOfZero(exp: real -> real)
  {
    exp(0.0) == 1.0
  }

  ghost predicate ExpBelowOneOnNegatives(exp: real -> real)
  {
    forall x :: x < 0.0 ==> exp(x) < 1.0
  }

  ghost predicate ExpAboveOneOnPositives(exp: real -> real)
  {
    forall x :: x > 0.0 ==> exp(x) > 1.0
  }

  ghost predicate LogOfOne(log: real -> real)
  {
    log(1.0) == 0.0
  }

  // Laws of the real square root and trigonometric functions.

  ghost predicate SqrtOfOne(sqrt: real -> real)
  {
    sqrt(1.0) == 1.0
  }

  /** The square root of a non-negative number squares back to it and is non-negative. */
  ghost predicate SqrtSquares(sqrt: real -> real)
  {
    forall x :: x >= 0.0 ==> sqrt(x) >= 0.0 && sqrt(x) * sqrt(x) == x
  }

  ghost predicate TrigAtZero(m: MathLib)
  {
    m.sin(0.0) == 0.0 && m.cos(0.0) == 1.0
  }

  /** `cos(acos(d)) == d` on the domain of `acos`. */
  ghost predicate CosAcosInverse(m: MathLib)
  {
    forall d :: -1.0 <= d <= 1.0 ==> m.cos(m.acos(d)) == d
  }

  ghost predicate Pythagoras(m: MathLib)
  {
    forall x :: m.sin(x) * m.sin(x) + m.cos(x) * m.cos(x) == 1.0
  }
}
