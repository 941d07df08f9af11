/**
 * Assembly of the 2L+1 final taps from the L+1 window multipliers and the
 * L+1 ideal coefficients, mirrored about the centre index L.
 */
module Taps {
  import opened Series

  /** Even symmetry about index L. */
  ghost predicate IsSymmetric(w: seq<real>, L: nat) {
    |w| == 2 * L + 1 && forall i, j :: 0 <= i < |w| && 0 <= j < |w| && i + j == 2 * L ==> w[j] == w[i]
  }

  /** Odd symmetry about index L (the centre itself is not constrained). */
  ghost predicate IsAntisymmetric(w: seq<real>, L: nat) {
    |w| == 2 * L + 1 && forall i, j :: 0 <= i < |w| && 0 <= j < |w| && i + j == 2 * L && i != L ==> w[j] == -w[i]
  }

  /** The sum of all taps. */
  function TapSum(w: seq<real>): real {
    Sum(Entries(w), 0, |w|)
  }

  function Entries(w: seq<real>): int -> real {
    j => Padded(w, j)
  }

  /** Tap `L - k` before mirroring: half the window multiplier times the ideal coefficient. */
  function Weighted(window: seq<real>, a: seq<real>, k: nat): real
    requires k < |window| && k < |a|
  {
    0.5 * window[k] * a[k]
  }

  /** Mirror assembly used by the low-pass, high-band and band-pass variants. */
  function Symmetric(window: seq<real>, a: seq<real>, L: nat): (w: seq<real>)
    requires L < |window| && L < |a|
    ensures |w| == 2 * L + 1
    ensures forall k :: 0 <= k <= L ==> w[L - k] == Weighted(window, a, k)
    ensures forall k :: 0 <= k <= L ==> w[L + k] == Weighted(window, a, k)
    ensures IsSymmetric(w, L)
  {
    seq(2 * L + 1, i requires 0 <= i < 2 * L + 1 =>
      if i <= L then 0.5 * window[L - i] * a[L - i]
      else 0.5 * window[i - L] * a[i - L])
  }

  /** Assembly used by the differentiator: the right half is negated. */
  function Antisymmetric(window: seq<real>, a: seq<real>, L: nat): (w: seq<real>)
    requires L < |window| && L < |a|
    ensures |w| == 2 * L + 1
    ensures forall k :: 0 <= k <= L ==> w[L - k] == Weighted(window, a, k)
    ensures forall k :: 1 <= k <= L ==> w[L + k] == -Weighted(window, a, k)
    ensures IsAntisymmetric(w, L)
  {
    seq(2 * L + 1, i requires 0 <= i < 2 * L + 1 =>
      if i <= L then 0.5 * window[L - i] * a[L - i]
      else -0.5 * window[i - L] * a[i - L])
  }

  /** Tap pair k of the mirror assembly, for a known ideal coefficient `c = a[k]`. */
  lemma SymmetricAt(window: seq<real>, a: seq<real>, L: nat, k: nat, c: real)
    requires L < |window| && L < |a| && k <= L && a[k] == c
    ensures Symmetric(window, a, L)[L - k] == 0.5 * window[k] * c
    ensures Symmetric(window, a, L)[L + k] == Symmetric(window, a, L)[L - k]
  {
    assert Symmetric(window, a, L)[L - k] == Weighted(window, a, k);
  }

  /** Tap pair k of the differentiator's assembly, for a known ideal coefficient `c = a[k]`. */
  lemma AntisymmetricAt(window: seq<real>, a: seq<real>, L: nat, k: nat, c: real)
    requires L < |window| && L < |a| && k <= L && a[k] == c
    ensures Antisymmetric(window, a, L)[L - k] == 0.5 * window[k] * c
    ensures k >= 1 ==> Antisymmetric(window, a, L)[L + k] == -Antisymmetric(window, a, L)[L - k]
  {
    assert Antisymmetric(window, a, L)[L - k] == Weighted(window, a, k);
  }

  /** Ideal coefficients that are all zero give taps that are all zero. */
  lemma ZeroIdealGivesZeroTaps(window: seq<real>, a: seq<real>, L: nat)
    requires L < |window| && L < |a|
    requires forall k :: 0 <= k <= L ==> a[k] == 0.0
    ensures forall j :: 0 <= j < 2 * L + 1 ==> Symmetric(window, a, L)[j] == 0.0
  {
  }

  /** Antisymmetric taps with a zero centre sum to zero. */
  lemma {:induction false} AntisymmetricSumIsZero(w: seq<real>, L: nat)
    requires IsAntisymmetric(w, L)
    requires w[L] == 0.0
    ensures TapSum(w) == 0.0
  {
    var e := Entries(w);
    var n := 2 * L + 1;
    var mirrored := (i: int) => e(2 * L - i);
    SumSplit(e, 0, L, n);
    SumFront(e, L, n);
    assert e(L) == 0.0;
    SumReflect(e, mirrored, 0, L, 2 * L);
    var left := Sum(e, 0, L);
    forall i | 0 <= i < L
      ensures mirrored(i) == -e(i)
    {
      assert w[2 * L - i] == -w[i];
    }
    SumNegate(e, mirrored, 0, L);
    assert Sum(e, L + 1, n) == -left;
    assert TapSum(w) == Sum(e, 0, n);
  }
}
