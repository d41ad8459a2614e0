/**
 * Numeric vocabulary shared by every part of the animation engine: the optional
 * values that JavaScript expresses with `undefined`, the `x || default` idiom on
 * numbers, absolute values, and the transcendental functions of `Math`.
 */
module Numeric {

  datatype Option<+T> = None | Some(value: T)

  function Abs(x: real): (r: real)
    ensures 0.0 <= r
    ensures r == x || r == -x
  {
    if x < 0.0 then -x else x
  }

  /**
   * JavaScript's `x || d` on an optional number: an absent value and the value 0
   * are both falsy, so both fall back to `d`.
   */
  function OrDefault(x: Option<real>, d: real): (r: real)
    ensures x.Some? && x.value != 0.0 ==> r == x.value
    ensures x.None? || x.value == 0.0 ==> r == d
  {
    if x.Some? && x.value != 0.0 then x.value else d
  }

  /** `Math.PI`, the double nearest to pi. */
  const Pi: real := 3.141592653589793

  /**
   * The functions `Math.exp`, `Math.sin`, `Math.cos`, `Math.sqrt` and `Math.pow`,
   * left uninterpreted. Everything the model proves about them comes from Valid().
   */
  datatype Transcendental = Transcendental(
    exp: real -> real,
    sin: real -> real,
    cos: real -> real,
    sqrt: real -> real,
    pow: (real, real) -> real)
  {
    /**
     * The facts assumed of the host's Math library: the values at 0 of exp, sin and
     * cos, that sqrt is the non-negative square root on non-negative arguments, and
     * that any base raised to 0 is 1.
     */
    ghost predicate Valid() {
      && exp(0.0) == 1.0
      && sin(0.0) == 0.0
      && cos(0.0) == 1.0
      && (forall x :: 0.0 <= x ==> 0.0 <= sqrt(x) && sqrt(x) * sqrt(x) == x)
      && (forall b :: pow(b, 0.0) == 1.0)
    }
  }

  /** A square root is determined by its square: sqrt(x * x) is |x|. */
  lemma {:induction false} SqrtOfSquare(F: Transcendental, x: real)
    requires F.Valid()
    ensures F.sqrt(x * x) == Abs(x)
  {
    var s := F.sqrt(x * x);
    assert 0.0 <= x * x;
    assert 0.0 <= s && s * s == x * x;
    SquareRootUnique(s, Abs(x));
  }

  /** Two non-negative reals with the same square are equal. */
  lemma {:induction false} SquareRootUnique(s: real, u: real)
    requires 0.0 <= s && 0.0 <= u && s * s == u * u
    ensures s == u
  {
    assert (s - u) * (s + u) == s * s - u * u == 0.0;
    if s + u != 0.0 {
      assert s - u == 0.0;
    }
  }

  /** The square root of a positive number is positive. */
  lemma {:induction false} SqrtPositive(F: Transcendental, x: real)
    requires F.Valid() && 0.0 < x
    ensures 0.0 < F.sqrt(x)
  {
    assert 0.0 <= F.sqrt(x) && F.sqrt(x) * F.sqrt(x) == x;
  }
}
