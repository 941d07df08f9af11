/**
 * The folded convolution of `apply_filter`, which pairs tap i with the two
 * input samples k - i and k - (2L - i), and the plain convolution over all
 * 2L+1 taps that it is meant to equal.
 */
module Convolution {
  import opened Series
  import opened Taps

  /** Summand i of the folded sum for output index k. */
  function FoldTerms(w: seq<real>, L: nat, x: seq<real>, k: int): int -> real {
    i => Padded(w, i) * (Padded(x, k - i) + Padded(x, k - (2 * L - i)))
  }

  /** Output k of the folded form: `w[L] x[k-L] + sum_{i<L} w[i] (x[k-i] + x[k-(2L-i)])`. */
  function FoldAt(w: seq<real>, L: nat, x: seq<real>, k: int): real
    requires L < |w|
  {
    w[L] * Padded(x, k - L) + Sum(FoldTerms(w, L, x, k), 0, L)
  }

  /** The first n outputs of the folded form (none when n is negative). */
  function Fold(w: seq<real>, L: nat, x: seq<real>, n: int): (y: seq<real>)
    requires L < |w|
    ensures |y| == if n < 0 then 0 else n
    ensures forall k :: 0 <= k < |y| ==> y[k] == FoldAt(w, L, x, k)
  {
    seq(if n < 0 then 0 else n, k => FoldAt(w, L, x, k))
  }

  /**
   * The loops of `apply_filter`: for k in range(n), accumulate the L paired
   * taps, then add the centre tap; sample indices below 0 read as 0.
   */
  method Convolve(w: seq<real>, L: nat, x: seq<real>, n: int) returns (y: seq<real>)
    requires L < |w|
    requires n <= |x|
    ensures y == Fold(w, L, x, n)
  {
    y := [];
    var k := 0;
    while k < n
      invariant 0 <= k <= if n < 0 then 0 else n
      invariant |y| == k
      invariant forall j :: 0 <= j < k ==> y[j] == FoldAt(w, L, x, j)
    {
      var sumTerms := PairedSum(w, L, x, k);
      var third := if k - L >= 0 then x[k - L] else 0.0;
      assert third == Padded(x, k - L);
      assert w[L] * third + sumTerms == FoldAt(w, L, x, k);
      y := y + [w[L] * third + sumTerms];
      k := k + 1;
    }
    assert |y| == |Fold(w, L, x, n)|;
  }

  /** The inner loop of `apply_filter`: the paired taps i = 0 .. L-1 for output k. */
  method PairedSum(w: seq<real>, L: nat, x: seq<real>, k: int) returns (sumTerms: real)
    requires L < |w| && k < |x|
    ensures sumTerms == Sum(FoldTerms(w, L, x, k), 0, L)
  {
    sumTerms := 0.0;
    var i := 0;
    while i < L
      invariant 0 <= i <= L
      invariant sumTerms == Sum(FoldTerms(w, L, x, k), 0, i)
    {
      var first := if k - i >= 0 then x[k - i] else 0.0;
      var second := if k - (2 * L - i) >= 0 then x[k - (2 * L - i)] else 0.0;
      FoldTermAt(w, L, x, k, i);
      sumTerms := sumTerms + w[i] * (first + second);
      i := i + 1;
    }
  }

  /** Summand i of the folded sum with the sample guards of the loop. */
  lemma FoldTermAt(w: seq<real>, L: nat, x: seq<real>, k: int, i: int)
    requires 0 <= i < L < |w| && k < |x|
    ensures FoldTerms(w, L, x, k)(i)
         == w[i] * ((if k - i >= 0 then x[k - i] else 0.0) + (if k - (2 * L - i) >= 0 then x[k - (2 * L - i)] else 0.0))
  {
    assert Padded(w, i) == w[i];
    assert Padded(x, k - i) == if k - i >= 0 then x[k - i] else 0.0;
    assert Padded(x, k - (2 * L - i)) == if k - (2 * L - i) >= 0 then x[k - (2 * L - i)] else 0.0;
  }

  /** Summand j of the plain convolution for output index k. */
  function FullTerms(w: seq<real>, x: seq<real>, k: int): int -> real {
    j => Padded(w, j) * Padded(x, k - j)
  }

  /** Output k of the plain convolution `sum_{j=0}^{2L} w[j] x[k-j]`. */
  function FullAt(w: seq<real>, L: nat, x: seq<real>, k: int): real {
    Sum(FullTerms(w, x, k), 0, 2 * L + 1)
  }

  /** The first n outputs of the plain convolution. */
  function Full(w: seq<real>, L: nat, x: seq<real>, n: int): (y: seq<real>)
    ensures |y| == if n < 0 then 0 else n
    ensures forall k :: 0 <= k < |y| ==> y[k] == FullAt(w, L, x, k)
  {
    seq(if n < 0 then 0 else n, k => FullAt(w, L, x, k))
  }

  /** The taps the folded form actually applies: the left half and its mirror image. */
  function Mirror(w: seq<real>, L: nat): (m: seq<real>)
    requires L < |w|
    ensures IsSymmetric(m, L)
    ensures forall j :: 0 <= j <= L ==> m[j] == w[j]
  {
    seq(2 * L + 1, j requires 0 <= j < 2 * L + 1 => if j <= L then w[j] else w[2 * L - j])
  }

  /** A unit impulse of n samples. */
  function Impulse(n: nat): (x: seq<real>)
    requires n >= 1
    ensures |x| == n && x[0] == 1.0
    ensures forall i :: 0 < i < n ==> x[i] == 0.0
  {
    seq(n, i => if i == 0 then 1.0 else 0.0)
  }

  /** `a * x1 + b * x2`, sample by sample. */
  function Mix(a: real, x1: seq<real>, b: real, x2: seq<real>): (x: seq<real>)
    requires |x1| == |x2|
    ensures |x| == |x1|
    ensures forall i :: 0 <= i < |x| ==> x[i] == a * x1[i] + b * x2[i]
  {
    seq(|x1|, i requires 0 <= i < |x1| => a * x1[i] + b * x2[i])
  }

  /** The taps left of the centre meet the samples k - i, as in the plain convolution. */
  lemma {:induction false} MirroredHead(w: seq<real>, L: nat, x: seq<real>, k: int)
    requires L < |w|
    ensures Sum(FullTerms(Mirror(w, L), x, k), 0, L) == Sum(FullTerms(w, x, k), 0, L)
  {
    var m := Mirror(w, L);
    forall i | 0 <= i < L
      ensures FullTerms(m, x, k)(i) == FullTerms(w, x, k)(i)
    {
      assert Padded(m, i) == Padded(w, i);
    }
    SumCongruent(FullTerms(m, x, k), FullTerms(w, x, k), 0, L);
  }

  /** The mirrored taps right of the centre meet the samples k - (2L - i). */
  lemma {:induction false} MirroredTail(w: seq<real>, L: nat, x: seq<real>, k: int)
    requires L < |w|
    ensures Sum(FullTerms(Mirror(w, L), x, k), L + 1, 2 * L + 1)
         == Sum(i => Padded(w, i) * Padded(x, k - (2 * L - i)), 0, L)
  {
    var m := Mirror(w, L);
    var f := FullTerms(m, x, k);
    var tail := (i: int) => Padded(w, i) * Padded(x, k - (2 * L - i));
    forall i | 0 <= i < L
      ensures tail(i) == f(2 * L - i)
    {
      assert Padded(m, 2 * L - i) == m[2 * L - i] == w[i];
    }
    SumReflect(f, tail, 0, L, 2 * L);
  }

  /** Each folded summand is the sum of its two halves. */
  lemma {:induction false} FoldTermsSplit(w: seq<real>, L: nat, x: seq<real>, k: int)
    ensures Sum(FoldTerms(w, L, x, k), 0, L)
         == Sum(FullTerms(w, x, k), 0, L) + Sum(i => Padded(w, i) * Padded(x, k - (2 * L - i)), 0, L)
  {
    var head := FullTerms(w, x, k);
    var tail := (i: int) => Padded(w, i) * Padded(x, k - (2 * L - i));
    var g := FoldTerms(w, L, x, k);
    forall i | 0 <= i < L
      ensures g(i) == head(i) + tail(i)
    {
      var c := Padded(w, i);
      var p := Padded(x, k - i);
      var q := Padded(x, k - (2 * L - i));
      assert g(i) == c * (p + q);
      assert c * (p + q) == c * p + c * q;
    }
    SumAdd(head, tail, g, 0, L);
  }

  /** The folded form is the plain convolution with the mirrored taps. */
  lemma {:induction false} FoldIsMirroredFull(w: seq<real>, L: nat, x: seq<real>, k: int)
    requires L < |w|
    ensures FoldAt(w, L, x, k) == FullAt(Mirror(w, L), L, x, k)
  {
    var f := FullTerms(Mirror(w, L), x, k);
    SumSplit(f, 0, L, 2 * L + 1);
    SumFront(f, L, 2 * L + 1);
    assert f(L) == w[L] * Padded(x, k - L);
    MirroredHead(w, L, x, k);
    MirroredTail(w, L, x, k);
    FoldTermsSplit(w, L, x, k);
  }

  /** For symmetric taps the folded form equals the plain convolution. */
  lemma FoldOfSymmetricIsFull(w: seq<real>, L: nat, x: seq<real>, n: int)
    requires IsSymmetric(w, L)
    ensures Fold(w, L, x, n) == Full(w, L, x, n)
  {
    assert Mirror(w, L) == w;
    forall k | 0 <= k < n {
      FoldIsMirroredFull(w, L, x, k);
    }
  }

  /** Output k of the plain convolution of an impulse is tap k (0 beyond the taps). */
  lemma {:induction false} FullAtImpulse(w: seq<real>, L: nat, n: nat, k: int)
    requires n >= 1 && 0 <= k < n
    ensures FullAt(w, L, Impulse(n), k) == if k < 2 * L + 1 then Padded(w, k) else 0.0
  {
    var x := Impulse(n);
    var f := FullTerms(w, x, k);
    forall i | 0 <= i < 2 * L + 1 && i != k
      ensures f(i) == 0.0
    {
      assert Padded(x, k - i) == 0.0;
    }
    if k < 2 * L + 1 {
      assert f(k) == Padded(w, k) * 1.0;
      SumSingle(f, 0, 2 * L + 1, k);
    } else {
      SumVanishes(f, 0, 2 * L + 1);
    }
  }

  /** The plain convolution of an impulse reproduces the taps, then zeros. */
  lemma FullImpulseIsTaps(w: seq<real>, L: nat, n: nat)
    requires n >= 1
    ensures forall k :: 0 <= k < n ==> Full(w, L, Impulse(n), n)[k] == if k < 2 * L + 1 then Padded(w, k) else 0.0
  {
    forall k | 0 <= k < n
      ensures Full(w, L, Impulse(n), n)[k] == if k < 2 * L + 1 then Padded(w, k) else 0.0
    {
      FullAtImpulse(w, L, n, k);
    }
  }

  /**
   * The impulse response of the folded form: `w[k]` up to the centre, then
   * the left half again in reverse (`w[2L-k]`), then zeros.
   */
  lemma ImpulseResponse(w: seq<real>, L: nat, n: nat)
    requires L < |w| && n >= 1
    ensures forall k :: 0 <= k < n && k <= L ==> Fold(w, L, Impulse(n), n)[k] == w[k]
    ensures forall k :: 0 <= k < n && L < k <= 2 * L ==> Fold(w, L, Impulse(n), n)[k] == w[2 * L - k]
    ensures forall k :: 0 <= k < n && 2 * L < k ==> Fold(w, L, Impulse(n), n)[k] == 0.0
  {
    forall k | 0 <= k < n && k <= L
      ensures Fold(w, L, Impulse(n), n)[k] == w[k]
    {
      FoldAtImpulse(w, L, n, k);
    }
    forall k | 0 <= k < n && L < k <= 2 * L
      ensures Fold(w, L, Impulse(n), n)[k] == w[2 * L - k]
    {
      FoldAtImpulse(w, L, n, k);
    }
    forall k | 0 <= k < n && 2 * L < k
      ensures Fold(w, L, Impulse(n), n)[k] == 0.0
    {
      FoldAtImpulse(w, L, n, k);
    }
  }

  /** Output k of the folded form for an impulse input. */
  lemma FoldAtImpulse(w: seq<real>, L: nat, n: nat, k: int)
    requires L < |w| && n >= 1 && 0 <= k < n
    ensures FoldAt(w, L, Impulse(n), k) == if k <= L then w[k] else if k <= 2 * L then w[2 * L - k] else 0.0
  {
    var m := Mirror(w, L);
    FoldIsMirroredFull(w, L, Impulse(n), k);
    FullAtImpulse(m, L, n, k);
    if k < 2 * L + 1 {
      assert Padded(m, k) == m[k];
    }
  }

  /**
   * The folded form does not apply antisymmetric taps: right of the centre
   * an impulse comes out as the negation of the tap it should reproduce.
   */
  lemma FoldedImpulseNegatesRightHalf(w: seq<real>, L: nat, n: nat)
    requires IsAntisymmetric(w, L) && n >= 1
    ensures forall k :: 0 <= k < n && L < k <= 2 * L ==> Fold(w, L, Impulse(n), n)[k] == -w[k]
  {
    ImpulseResponse(w, L, n);
    forall k | 0 <= k < n && L < k <= 2 * L
      ensures w[2 * L - k] == -w[k]
    {
      assert w[2 * L - (2 * L - k)] == -w[2 * L - k];
    }
  }

  /** Output k depends on the samples 0..k only. */
  lemma {:induction false} FoldIsCausal(w: seq<real>, L: nat, x1: seq<real>, x2: seq<real>, n: int, k: int)
    requires L < |w|
    requires 0 <= k < n && n <= |x1| && n <= |x2|
    requires x1[..k + 1] == x2[..k + 1]
    ensures Fold(w, L, x1, n)[k] == Fold(w, L, x2, n)[k]
  {
    forall j | j <= k
      ensures Padded(x1, j) == Padded(x2, j)
    {
      if 0 <= j {
        assert x1[j] == x1[..k + 1][j];
        assert x2[j] == x2[..k + 1][j];
      }
    }
    SumCongruent(FoldTerms(w, L, x1, k), FoldTerms(w, L, x2, k), 0, L);
  }

  /** Summand i of the folded sum, with the centre tap as summand L. */
  function CentredTerms(w: seq<real>, L: nat, x: seq<real>, k: int): int -> real {
    i => if i == L then Padded(w, L) * Padded(x, k - L) else FoldTerms(w, L, x, k)(i)
  }

  /** The folded output as one sum over the L+1 distinct taps. */
  lemma {:induction false} FoldAtIsCentredSum(w: seq<real>, L: nat, x: seq<real>, k: int)
    requires L < |w|
    ensures FoldAt(w, L, x, k) == Sum(CentredTerms(w, L, x, k), 0, L + 1)
  {
    SumCongruent(FoldTerms(w, L, x, k), CentredTerms(w, L, x, k), 0, L);
  }

  lemma CentredTermsAreLinear(w: seq<real>, L: nat, a: real, x1: seq<real>, b: real, x2: seq<real>, k: int)
    requires |x1| == |x2|
    ensures forall i :: CentredTerms(w, L, Mix(a, x1, b, x2), k)(i) == a * CentredTerms(w, L, x1, k)(i) + b * CentredTerms(w, L, x2, k)(i)
  {
    forall i
      ensures CentredTerms(w, L, Mix(a, x1, b, x2), k)(i) == a * CentredTerms(w, L, x1, k)(i) + b * CentredTerms(w, L, x2, k)(i)
    {
      if i == L {
        MixedSample(a, x1, b, x2, k - L);
        var c, p1, p2 := Padded(w, L), Padded(x1, k - L), Padded(x2, k - L);
        assert c * (a * p1 + b * p2) == a * (c * p1) + b * (c * p2);
      } else {
        MixedTerm(w, L, a, x1, b, x2, k, i);
      }
    }
  }

  lemma CentredSumIsLinear(w: seq<real>, L: nat, a: real, x1: seq<real>, b: real, x2: seq<real>, k: int)
    requires |x1| == |x2|
    ensures Sum(CentredTerms(w, L, Mix(a, x1, b, x2), k), 0, L + 1)
         == a * Sum(CentredTerms(w, L, x1, k), 0, L + 1) + b * Sum(CentredTerms(w, L, x2, k), 0, L + 1)
  {
    CentredTermsAreLinear(w, L, a, x1, b, x2, k);
    SumLinear(CentredTerms(w, L, x1, k), CentredTerms(w, L, x2, k), CentredTerms(w, L, Mix(a, x1, b, x2), k), a, b, 0, L + 1);
  }

  /** One output of the folded form is linear in the input samples. */
  lemma FoldAtIsLinear(w: seq<real>, L: nat, a: real, x1: seq<real>, b: real, x2: seq<real>, k: int)
    requires L < |w| && |x1| == |x2|
    ensures FoldAt(w, L, Mix(a, x1, b, x2), k) == a * FoldAt(w, L, x1, k) + b * FoldAt(w, L, x2, k)
  {
    FoldAtIsCentredSum(w, L, Mix(a, x1, b, x2), k);
    FoldAtIsCentredSum(w, L, x1, k);
    FoldAtIsCentredSum(w, L, x2, k);
    CentredSumIsLinear(w, L, a, x1, b, x2, k);
  }

  lemma MixedSample(a: real, x1: seq<real>, b: real, x2: seq<real>, j: int)
    requires |x1| == |x2|
    ensures Padded(Mix(a, x1, b, x2), j) == a * Padded(x1, j) + b * Padded(x2, j)
  {
  }

  lemma MixedTerm(w: seq<real>, L: nat, a: real, x1: seq<real>, b: real, x2: seq<real>, k: int, i: int)
    requires |x1| == |x2|
    ensures FoldTerms(w, L, Mix(a, x1, b, x2), k)(i) == a * FoldTerms(w, L, x1, k)(i) + b * FoldTerms(w, L, x2, k)(i)
  {
    MixedSample(a, x1, b, x2, k - i);
    MixedSample(a, x1, b, x2, k - (2 * L - i));
    var c := Padded(w, i);
    var p1 := Padded(x1, k - i);
    var q1 := Padded(x1, k - (2 * L - i));
    var p2 := Padded(x2, k - i);
    var q2 := Padded(x2, k - (2 * L - i));
    assert c * ((a * p1 + b * p2) + (a * q1 + b * q2)) == a * (c * (p1 + q1)) + b * (c * (p2 + q2));
  }

  /** The folded form is linear in the input samples. */
  lemma FoldIsLinear(w: seq<real>, L: nat, a: real, x1: seq<real>, b: real, x2: seq<real>, n: int)
    requires L < |w| && |x1| == |x2|
    ensures forall k :: 0 <= k < n ==>
      Fold(w, L, Mix(a, x1, b, x2), n)[k] == a * Fold(w, L, x1, n)[k] + b * Fold(w, L, x2, n)[k]
  {
    forall k | 0 <= k < n
      ensures Fold(w, L, Mix(a, x1, b, x2), n)[k] == a * Fold(w, L, x1, n)[k] + b * Fold(w, L, x2, n)[k]
    {
      FoldIsLinearAt(w, L, a, x1, b, x2, n, k);
    }
  }

  lemma FoldIsLinearAt(w: seq<real>, L: nat, a: real, x1: seq<real>, b: real, x2: seq<real>, n: int, k: int)
    requires L < |w| && |x1| == |x2| && 0 <= k < n
    ensures Fold(w, L, Mix(a, x1, b, x2), n)[k] == a * Fold(w, L, x1, n)[k] + b * Fold(w, L, x2, n)[k]
  {
    var y, y1, y2 := Fold(w, L, Mix(a, x1, b, x2), n)[k], Fold(w, L, x1, n)[k], Fold(w, L, x2, n)[k];
    assert y == FoldAt(w, L, Mix(a, x1, b, x2), k);
    assert y1 == FoldAt(w, L, x1, k);
    assert y2 == FoldAt(w, L, x2, k);
    FoldAtIsLinear(w, L, a, x1, b, x2, k);
  }

  /** A silent input gives a silent output of the requested length. */
  lemma {:induction false} FoldOfZeroIsZero(w: seq<real>, L: nat, x: seq<real>, n: int)
    requires L < |w|
    requires forall i :: 0 <= i < |x| ==> x[i] == 0.0
    ensures |Fold(w, L, x, n)| == if n < 0 then 0 else n
    ensures forall k :: 0 <= k < n ==> Fold(w, L, x, n)[k] == 0.0
  {
    forall k | 0 <= k < n
      ensures FoldAt(w, L, x, k) == 0.0
    {
      var f := FoldTerms(w, L, x, k);
      forall i | 0 <= i < L
        ensures f(i) == 0.0
      {
        assert Padded(x, k - i) == 0.0 && Padded(x, k - (2 * L - i)) == 0.0;
      }
      SumVanishes(f, 0, L);
      assert Padded(x, k - L) == 0.0;
    }
  }
}
