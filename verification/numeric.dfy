/**
 * The numeric primitives the filter code takes from numpy and scipy.
 * Sine, cosine, square root, the modified Bessel function I0 and pi are
 * left uninterpreted: they are fields of an `Analytic` value passed to every
 * operation that needs them, and the model relies only on the few facts in `Valid`.
 */
module Numeric {

  datatype Analytic = Analytic(
    pi: real,
    sin: real -> real,
    cos: real -> real,
    sqrt: real -> real,
    i0: real -> real)

  /** The facts about the primitives the model relies on. */
  ghost predicate Valid(t: Analytic) {
    && t.pi > 0.0
    && t.sin(0.0) == 0.0
    && t.cos(0.0) == 1.0
    && (forall x :: t.i0(x) >= 1.0)
  }

  /**
   * The phase `k * dt * omega` of the k-th sample of a sinusoid with angular
   * frequency omega. Named so that the argument of an uninterpreted function
   * is one term rather than a nonlinear product.
   */
  function Phase(k: int, dt: real, omega: real): real {
    k as real * dt * omega
  }

  /** `np.abs` on a real. */
  function Abs(x: real): (r: real)
    ensures r >= 0.0
    ensures r == x || r == -x
  {
    if x < 0.0 then -x else x
  }

  /** Python's `int()` on a float: truncation toward zero. */
  function Trunc(x: real): (n: int)
    ensures 0.0 <= x ==> n as real <= x < n as real + 1.0
    ensures x < 0.0 ==> n as real - 1.0 < x <= n as real
  {
    if x >= 0.0 then x.Floor else -((-x).Floor)
  }

  lemma PositiveProduct(a: real, b: real)
    ensures a > 0.0 && b > 0.0 ==> a * b > 0.0
  {
  }

  /** Division by a non-zero real distributes over a difference. */
  lemma DivideDifference(x: real, y: real, d: real)
    requires d != 0.0
    ensures (x - y) / d == x / d - y / d
  {
    assert (x / d) * d == x;
    assert (y / d) * d == y;
    assert (x / d - y / d) * d == x - y;
  }

  /** A scalar factor can be moved out of a quotient. */
  lemma ScaleQuotient(c: real, x: real, d: real)
    requires d != 0.0
    ensures c * x / d == c * (x / d)
  {
    assert (x / d) * d == x;
    assert (c * (x / d)) * d == c * x;
  }
}
