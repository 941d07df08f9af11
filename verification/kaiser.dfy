/** The Kaiser-window part of the engine: the (d1, d2) selection and the window multipliers. */
module Kaiser {
  import opened Numeric

  /**
   * The empirical constants of the order estimate: (0.34, 1.61) for a
   * passband ripple above 0.01 and (4.41, 0.375) otherwise.
   */
  function D1D2(delta: real): (d: (real, real))
    ensures d == (0.34, 1.61) <==> delta > 0.01
    ensures d == (4.41, 0.375) <==> delta <= 0.01
  {
    if delta > 0.01 then (0.34, 1.61) else (4.41, 0.375)
  }

  /** The threshold is strict: a ripple of exactly 0.01 takes the second pair. */
  lemma ThresholdIsStrict()
    ensures D1D2(0.01) == (4.41, 0.375)
  {
  }

  /** The Bessel argument of multiplier i, `R * sqrt(1 - (i/L)^2)`. */
  function Shape(t: Analytic, R: real, L: nat, i: nat): real
    requires 1 <= i <= L
  {
    R * t.sqrt(1.0 - Square(Ratio(L, i)))
  }

  /** The relative position `i / L` of multiplier i. */
  function Ratio(L: nat, i: nat): (r: real)
    requires 1 <= i <= L
    ensures 0.0 < r <= 1.0
  {
    i as real / L as real
  }

  function Square(x: real): real {
    x * x
  }

  /** Multiplier i of the window, `I0(R * sqrt(1 - (i/L)^2)) / I0(R)`, for 1 <= i <= L. */
  function Multiplier(t: Analytic, R: real, L: nat, i: nat): real
    requires Valid(t) && 1 <= i <= L
  {
    t.i0(Shape(t, R, L, i)) / t.i0(R)
  }

  /** `_calculate_kaiser_multipliers`: L+1 multipliers headed by 1.0. */
  function Window(t: Analytic, R: real, L: nat): (win: seq<real>)
    requires Valid(t)
    ensures |win| == L + 1
    ensures win[0] == 1.0
    ensures forall i: nat :: 1 <= i <= L ==> win[i] == Multiplier(t, R, L, i)
  {
    seq(L + 1, i requires 0 <= i <= L => if i == 0 then 1.0 else Multiplier(t, R, L, i))
  }

  /** I0 is non-decreasing on the non-negative reals. */
  ghost predicate I0Monotone(t: Analytic) {
    forall x, y :: 0.0 <= x <= y ==> t.i0(x) <= t.i0(y)
  }

  /** The square root maps [0, 1] into [0, 1]. */
  ghost predicate SqrtOnUnit(t: Analytic) {
    forall u :: 0.0 <= u <= 1.0 ==> 0.0 <= t.sqrt(u) <= 1.0
  }

  lemma ShapeWithinRange(t: Analytic, R: real, L: nat, i: nat)
    requires SqrtOnUnit(t)
    requires R >= 0.0 && 1 <= i <= L
    ensures 0.0 <= Shape(t, R, L, i) <= R
  {
    var ratio := Ratio(L, i);
    var root := t.sqrt(1.0 - Square(ratio));
    assert Shape(t, R, L, i) == R * root;
    UnitSquare(ratio);
    assert 0.0 <= root <= 1.0;
    ScaleByUnit(R, root);
  }

  lemma UnitSquare(r: real)
    requires 0.0 <= r <= 1.0
    ensures 0.0 <= Square(r) <= 1.0
  {
    assert r * r <= r * 1.0;
  }

  lemma ScaleByUnit(R: real, u: real)
    requires R >= 0.0 && 0.0 <= u <= 1.0
    ensures 0.0 <= R * u <= R
  {
    assert R * u <= R * 1.0;
  }

  lemma QuotientAtMostOne(num: real, den: real)
    requires 1.0 <= num <= den
    ensures 0.0 < num / den <= 1.0
  {
    assert (num / den) * den == num;
  }

  lemma MultiplierInUnitInterval(t: Analytic, R: real, L: nat, i: nat)
    requires Valid(t) && I0Monotone(t) && SqrtOnUnit(t)
    requires R >= 0.0 && 1 <= i <= L
    ensures 0.0 < Multiplier(t, R, L, i) <= 1.0
  {
    ShapeWithinRange(t, R, L, i);
    var x := Shape(t, R, L, i);
    assert t.i0(x) <= t.i0(R);
    QuotientAtMostOne(t.i0(x), t.i0(R));
  }

  /**
   * With R >= 0, and I0 and the square root behaving as they do on the reals,
   * every window multiplier lies in (0, 1].
   */
  lemma WindowInUnitInterval(t: Analytic, R: real, L: nat)
    requires Valid(t) && I0Monotone(t) && SqrtOnUnit(t)
    requires R >= 0.0
    ensures forall i :: 0 <= i <= L ==> 0.0 < Window(t, R, L)[i] <= 1.0
  {
    forall i: nat | 1 <= i <= L {
      MultiplierInUnitInterval(t, R, L, i);
    }
  }
}
