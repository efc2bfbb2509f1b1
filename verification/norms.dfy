/** The two vector norms of src/utils.rs (and their copies in src/poly.rs):
    the largest absolute value, and the inner product over the zipped
    prefix of two vectors. Entries are unbounded integers here; the i32
    arithmetic of the callers is modelled where it matters, in the
    verification step. */
module Norms {
  import opened Arith

  /** `vecabsmax`: a left fold of `max(acc, |x|)` starting from 0. */
  function VecAbsMax(v: seq<int>): (r: nat)
    ensures forall i | 0 <= i < |v| :: Abs(v[i]) <= r
    ensures |v| == 0 ==> r == 0
    ensures |v| > 0 ==> exists i | 0 <= i < |v| :: r == Abs(v[i])
  {
    if |v| == 0 then 0
    else
      var acc := VecAbsMax(v[..|v| - 1]);
      var last := Abs(v[|v| - 1]);
      if acc < last then last else acc
  }

  /** The sum of a[m] * b[m] for lo <= m < hi, accumulated from lo upward. */
  function Dot(a: seq<int>, b: seq<int>, lo: nat, hi: nat): int
    requires lo <= hi <= |a| && hi <= |b|
    decreases hi - lo
  {
    if lo == hi then 0 else Dot(a, b, lo, hi - 1) + a[hi - 1] * b[hi - 1]
  }

  /** `vecscalar`: the inner product over the common prefix (`zip` stops at
      the shorter operand). */
  function VecScalar(t: seq<int>, u: seq<int>): int
  {
    Dot(t, u, 0, if |t| < |u| then |t| else |u|)
  }

  /** A sum over [lo, hi) splits at any point in between. */
  lemma {:induction false} DotSplit(a: seq<int>, b: seq<int>, lo: nat, mid: nat, hi: nat)
    requires lo <= mid <= hi <= |a| && hi <= |b|
    ensures Dot(a, b, lo, hi) == Dot(a, b, lo, mid) + Dot(a, b, mid, hi)
    decreases hi - mid
  {
    if mid < hi {
      DotSplit(a, b, lo, mid, hi - 1);
    }
  }

  /** The sum reads only the entries in [lo, hi). */
  lemma {:induction false} DotFrame(a: seq<int>, b: seq<int>, a': seq<int>, b': seq<int>, lo: nat, hi: nat)
    requires lo <= hi <= |a| && hi <= |b| && hi <= |a'| && hi <= |b'|
    requires forall m | lo <= m < hi :: a[m] == a'[m] && b[m] == b'[m]
    ensures Dot(a, b, lo, hi) == Dot(a', b', lo, hi)
    decreases hi - lo
  {
    if lo < hi {
      DotFrame(a, b, a', b', lo, hi - 1);
    }
  }

  lemma {:induction false} DotSymmetric(a: seq<int>, b: seq<int>, lo: nat, hi: nat)
    requires lo <= hi <= |a| && hi <= |b|
    ensures Dot(a, b, lo, hi) == Dot(b, a, lo, hi)
    decreases hi - lo
  {
    if lo < hi {
      DotSymmetric(a, b, lo, hi - 1);
    }
  }

  /** A sum of squares is nonnegative. */
  lemma {:induction false} DotSelfNonnegative(a: seq<int>, lo: nat, hi: nat)
    requires lo <= hi <= |a|
    ensures Dot(a, a, lo, hi) >= 0
    decreases hi - lo
  {
    if lo < hi {
      DotSelfNonnegative(a, lo, hi - 1);
    }
  }

  /** The inner product is symmetric, and a vector's square is nonnegative. */
  lemma VecScalarSymmetric(t: seq<int>, u: seq<int>)
    ensures VecScalar(t, u) == VecScalar(u, t)
    ensures VecScalar(t, t) >= 0
  {
    DotSymmetric(t, u, 0, if |t| < |u| then |t| else |u|);
    DotSelfNonnegative(t, 0, |t|);
  }

  /** The product over the zipped prefix only: trailing entries of the longer
      operand are ignored. */
  lemma VecScalarZippedPrefix(t: seq<int>, u: seq<int>)
    ensures var m := if |t| < |u| then |t| else |u|;
      VecScalar(t, u) == VecScalar(t[..m], u[..m])
  {
    var m := if |t| < |u| then |t| else |u|;
    DotFrame(t, u, t[..m], u[..m], 0, m);
  }

  /** Every term of a square is at most the square of the largest entry. */
  lemma {:induction false} DotSelfBound(a: seq<int>, lo: nat, hi: nat, B: nat)
    requires lo <= hi <= |a|
    requires forall m | lo <= m < hi :: Abs(a[m]) <= B
    ensures Dot(a, a, lo, hi) <= (hi - lo) * (B * B)
    decreases hi - lo
  {
    if lo < hi {
      DotSelfBound(a, lo, hi - 1, B);
      MulLe(Abs(a[hi - 1]), Abs(a[hi - 1]), B, B);
      assert a[hi - 1] * a[hi - 1] == Abs(a[hi - 1]) * Abs(a[hi - 1]);
    }
  }

  /** The square norm is at most the length times the square of the largest
      absolute entry. */
  lemma VecScalarSelfBound(v: seq<int>)
    ensures VecScalar(v, v) <= |v| * (VecAbsMax(v) * VecAbsMax(v))
  {
    DotSelfBound(v, 0, |v|, VecAbsMax(v));
  }

  /** The square of a constant vector. */
  lemma {:induction false} DotConstant(a: seq<int>, c: int, lo: nat, hi: nat)
    requires lo <= hi <= |a|
    requires forall m | lo <= m < hi :: a[m] == c
    ensures Dot(a, a, lo, hi) == (hi - lo) * (c * c)
    decreases hi - lo
  {
    if lo < hi {
      DotConstant(a, c, lo, hi - 1);
    }
  }

  /** The norms of a nonempty constant vector. */
  lemma ConstantNorms(v: seq<int>, c: int)
    requires |v| >= 1 && forall m | 0 <= m < |v| :: v[m] == c
    ensures VecScalar(v, v) == |v| * (c * c)
    ensures VecAbsMax(v) == Abs(c)
  {
    DotConstant(v, c, 0, |v|);
  }

  /** x + s * a, pointwise, for vectors of equal length. */
  function Axpy(x: seq<int>, s: int, a: seq<int>): (r: seq<int>)
    requires |x| == |a|
    ensures |r| == |x|
  {
    seq(|x|, m requires 0 <= m < |x| => x[m] + s * a[m])
  }

  /** |x + s a|^2 = |x|^2 + 2 s <x, a> + s^2 |a|^2, over a range. */
  lemma {:induction false} DotExpand(x: seq<int>, s: int, a: seq<int>, lo: nat, hi: nat)
    requires |x| == |a| && lo <= hi <= |x|
    ensures Dot(Axpy(x, s, a), Axpy(x, s, a), lo, hi)
      == Dot(x, x, lo, hi) + 2 * s * Dot(x, a, lo, hi) + s * s * Dot(a, a, lo, hi)
    decreases hi - lo
  {
    if lo < hi {
      var y := Axpy(x, s, a);
      DotExpand(x, s, a, lo, hi - 1);
      var u, b := x[hi - 1], a[hi - 1];
      assert y[hi - 1] == u + s * b;
      SquareExpand(u, s, b);
      Distribute(2 * s, Dot(x, a, lo, hi - 1), u * b);
      Distribute(s * s, Dot(a, a, lo, hi - 1), b * b);
    }
  }

  lemma SquareExpand(u: int, s: int, b: int)
    ensures (u + s * b) * (u + s * b) == u * u + 2 * s * (u * b) + s * s * (b * b)
  {
  }

  lemma Distribute(c: int, p: int, q: int)
    ensures c * (p + q) == c * p + c * q
  {
  }

  /** Two ranges whose entries have the same squares, in the same order,
      have the same square norm. */
  lemma {:induction false} DotSquaresShift(a: seq<int>, f: seq<int>, lo: nat, hi: nat, lo2: nat)
    requires lo <= hi <= |a| && lo2 + (hi - lo) <= |f|
    requires forall m | lo <= m < hi :: a[m] * a[m] == f[m - lo + lo2] * f[m - lo + lo2]
    ensures Dot(a, a, lo, hi) == Dot(f, f, lo2, lo2 + (hi - lo))
    decreases hi - lo
  {
    if lo < hi {
      DotSquaresShift(a, f, lo, hi - 1, lo2);
    }
  }
}
