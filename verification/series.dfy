/** Finite sums over integer index ranges, and zero-padded sequence access. */
module Series {

  /** `s[i]` inside the sequence and 0 outside it. */
  function Padded(s: seq<real>, i: int): real {
    if 0 <= i < |s| then s[i] else 0.0
  }

  /** The sum of `f(i)` for `lo <= i < hi`, accumulated from the left. */
  function Sum(f: int -> real, lo: int, hi: int): real
    decreases hi - lo
  {
    if hi <= lo then 0.0 else Sum(f, lo, hi - 1) + f(hi - 1)
  }

  lemma {:induction false} SumCongruent(f: int -> real, g: int -> real, lo: int, hi: int)
    requires forall i :: lo <= i < hi ==> f(i) == g(i)
    ensures Sum(f, lo, hi) == Sum(g, lo, hi)
    decreases hi - lo
  {
    if lo < hi {
      SumCongruent(f, g, lo, hi - 1);
    }
  }

  lemma {:induction false} SumVanishes(f: int -> real, lo: int, hi: int)
    requires forall i :: lo <= i < hi ==> f(i) == 0.0
    ensures Sum(f, lo, hi) == 0.0
    decreases hi - lo
  {
    if lo < hi {
      SumVanishes(f, lo, hi - 1);
    }
  }

  lemma {:induction false} SumSplit(f: int -> real, lo: int, mid: int, hi: int)
    requires lo <= mid <= hi
    ensures Sum(f, lo, hi) == Sum(f, lo, mid) + Sum(f, mid, hi)
    decreases hi - mid
  {
    if mid < hi {
      SumSplit(f, lo, mid, hi - 1);
    }
  }

  lemma {:induction false} SumFront(f: int -> real, lo: int, hi: int)
    requires lo < hi
    ensures Sum(f, lo, hi) == f(lo) + Sum(f, lo + 1, hi)
  {
    SumSplit(f, lo, lo + 1, hi);
  }

  lemma {:induction false} SumLinear(f: int -> real, g: int -> real, h: int -> real, a: real, b: real, lo: int, hi: int)
    requires forall i :: lo <= i < hi ==> h(i) == a * f(i) + b * g(i)
    ensures Sum(h, lo, hi) == a * Sum(f, lo, hi) + b * Sum(g, lo, hi)
    decreases hi - lo
  {
    if lo < hi {
      SumLinear(f, g, h, a, b, lo, hi - 1);
    }
  }

  lemma {:induction false} SumAdd(f: int -> real, g: int -> real, h: int -> real, lo: int, hi: int)
    requires forall i :: lo <= i < hi ==> h(i) == f(i) + g(i)
    ensures Sum(h, lo, hi) == Sum(f, lo, hi) + Sum(g, lo, hi)
    decreases hi - lo
  {
    if lo < hi {
      SumAdd(f, g, h, lo, hi - 1);
    }
  }

  lemma {:induction false} SumNegate(f: int -> real, g: int -> real, lo: int, hi: int)
    requires forall i :: lo <= i < hi ==> g(i) == -f(i)
    ensures Sum(g, lo, hi) == -Sum(f, lo, hi)
    decreases hi - lo
  {
    if lo < hi {
      SumNegate(f, g, lo, hi - 1);
    }
  }

  /** A sum with a single non-zero term is that term. */
  lemma {:induction false} SumSingle(f: int -> real, lo: int, hi: int, j: int)
    requires lo <= j < hi
    requires forall i :: lo <= i < hi && i != j ==> f(i) == 0.0
    ensures Sum(f, lo, hi) == f(j)
  {
    SumSplit(f, lo, j, hi);
    SumVanishes(f, lo, j);
    SumFront(f, j, hi);
    SumVanishes(f, j + 1, hi);
  }

  /** Re-indexing by `i |-> i + d`. */
  lemma {:induction false} SumShift(f: int -> real, g: int -> real, lo: int, hi: int, d: int)
    requires forall i :: lo <= i < hi ==> g(i) == f(i + d)
    ensures Sum(g, lo, hi) == Sum(f, lo + d, hi + d)
    decreases hi - lo
  {
    if lo < hi {
      SumShift(f, g, lo, hi - 1, d);
    }
  }

  /** Re-indexing by `i |-> c - i`, which reverses the range. */
  lemma {:induction false} SumReflect(f: int -> real, g: int -> real, lo: int, hi: int, c: int)
    requires forall i :: lo <= i < hi ==> g(i) == f(c - i)
    ensures Sum(g, lo, hi) == Sum(f, c - hi + 1, c - lo + 1)
    decreases hi - lo
  {
    if lo < hi {
      SumReflect(f, g, lo, hi - 1, c);
      SumFront(f, c - hi + 1, c - lo + 1);
    }
  }
}
