/** `greedy_sc` of src/utils.rs: for each challenge index i, in order, add or
    subtract the rotation X^i * (f, g) of the secret key, in the ring
    Z[X]/(X^n + 1), to the accumulator (x, y), whichever does not increase
    its norm: subtract when the correlation with the accumulator is positive,
    add otherwise. The source updates x twice and y not at all on the
    wrapped part of the rotation; `GreedyScAsWritten` models that, and the signing step uses
    it, while `GreedySc` models the evident intent. */
module Combiner {
  import opened Arith
  import opened Norms

  /** X^i * f in Z[X]/(X^n + 1), for 0 <= i <= n: entry m is f[m - i], and
      the coefficients that wrap around are negated. */
  function NegRot(f: seq<int>, i: nat): (r: seq<int>)
    requires i <= |f|
    ensures |r| == |f|
  {
    seq(|f|, m requires 0 <= m < |f| => if m >= i then f[m - i] else -f[m - i + |f|])
  }

  /** The part of a below index i, and the part from i on. */
  function Below(a: seq<int>, i: nat): (r: seq<int>)
    ensures |r| == |a|
  {
    seq(|a|, m requires 0 <= m < |a| => if m < i then a[m] else 0)
  }

  function From(a: seq<int>, i: nat): (r: seq<int>)
    ensures |r| == |a|
  {
    seq(|a|, m requires 0 <= m < |a| => if m >= i then a[m] else 0)
  }

  /** The direction of one greedy step: -1 (subtract) when the correlation
      is positive, +1 (add) otherwise. */
  function Direction(sgn: int): int
  {
    if sgn > 0 then -1 else 1
  }

  /** The correlation of the rotated key with the accumulator. */
  function Correlation(f: seq<int>, g: seq<int>, i: nat, x: seq<int>, y: seq<int>): int
    requires |f| == |g| == |x| == |y| && i <= |f|
  {
    VecScalar(NegRot(f, i), x) + VecScalar(NegRot(g, i), y)
  }

  /** One step of the combiner as intended. */
  function Step(f: seq<int>, g: seq<int>, i: nat, x: seq<int>, y: seq<int>): (r: (seq<int>, seq<int>))
    requires |f| == |g| == |x| == |y| && i <= |f|
    ensures |r.0| == |x| && |r.1| == |y|
  {
    var s := Direction(Correlation(f, g, i, x, y));
    (Axpy(x, s, NegRot(f, i)), Axpy(y, s, NegRot(g, i)))
  }

  /** One step of the combiner as the source writes it: the wrapped part of
      the rotation of g lands in x, and y keeps its entries below i. */
  function StepAsWritten(f: seq<int>, g: seq<int>, i: nat, x: seq<int>, y: seq<int>): (r: (seq<int>, seq<int>))
    requires |f| == |g| == |x| == |y| && i <= |f|
    ensures |r.0| == |x| && |r.1| == |y|
  {
    var s := Direction(Correlation(f, g, i, x, y));
    var b := NegRot(g, i);
    (Axpy(Axpy(x, s, NegRot(f, i)), s, Below(b, i)), Axpy(y, s, From(b, i)))
  }

  /** The square norm |x|^2 + |y|^2 of a pair of vectors. */
  function SquareNorm(p: (seq<int>, seq<int>)): int
  {
    VecScalar(p.0, p.0) + VecScalar(p.1, p.1)
  }

  predicate IndicesInRange(idx: seq<nat>, n: nat)
  {
    forall k | 0 <= k < |idx| :: idx[k] <= n
  }

  /** The combiner over a list of indices, one step per index in order.
      Each step raises the square norm of the accumulator by at most that of
      the key, so k steps raise it by at most k times that. */
  function Greedy(f: seq<int>, g: seq<int>, idx: seq<nat>, x: seq<int>, y: seq<int>): (r: (seq<int>, seq<int>))
    requires |f| == |g| == |x| == |y| && IndicesInRange(idx, |f|)
    ensures |r.0| == |x| && |r.1| == |y|
    ensures SquareNorm(r) <= SquareNorm((x, y)) + |idx| * (VecScalar(f, f) + VecScalar(g, g))
    decreases |idx|
  {
    if |idx| == 0 then (x, y)
    else
      var pre := idx[..|idx| - 1];
      var p := Greedy(f, g, pre, x, y);
      StepNorm(f, g, idx[|idx| - 1], p.0, p.1);
      MulSucc(|pre|, VecScalar(f, f) + VecScalar(g, g));
      Step(f, g, idx[|idx| - 1], p.0, p.1)
  }

  /** The coefficients of g that the rotation by i wraps around are zero. */
  predicate WrapFree(g: seq<int>, i: nat)
  {
    forall m | 0 <= m < |g| && |g| - i <= m :: g[m] == 0
  }

  /** The combiner as the source writes it. It departs from the intended one
      only through the wrapped coefficients of g: when every index leaves
      them zero, the two agree. */
  function GreedyAsWritten(f: seq<int>, g: seq<int>, idx: seq<nat>, x: seq<int>, y: seq<int>): (r: (seq<int>, seq<int>))
    requires |f| == |g| == |x| == |y| && IndicesInRange(idx, |f|)
    ensures |r.0| == |x| && |r.1| == |y|
    ensures (forall k | 0 <= k < |idx| :: WrapFree(g, idx[k])) ==> r == Greedy(f, g, idx, x, y)
    decreases |idx|
  {
    if |idx| == 0 then (x, y)
    else
      var p := GreedyAsWritten(f, g, idx[..|idx| - 1], x, y);
      StepAgrees(f, g, idx[|idx| - 1], p.0, p.1);
      StepAsWritten(f, g, idx[|idx| - 1], p.0, p.1)
  }

  /** A step as written equals the intended step when the rotation wraps
      only zero coefficients of g. */
  lemma StepAgrees(f: seq<int>, g: seq<int>, i: nat, x: seq<int>, y: seq<int>)
    requires |f| == |g| == |x| == |y| && i <= |f|
    ensures WrapFree(g, i) ==> StepAsWritten(f, g, i, x, y) == Step(f, g, i, x, y)
  {
    if WrapFree(g, i) {
      var n := |f|;
      var s := Direction(Correlation(f, g, i, x, y));
      var a, b := NegRot(f, i), NegRot(g, i);
      assert forall m | 0 <= m < i :: b[m] == -g[m - i + n] == 0;
      var xa := Axpy(x, s, a);
      assert Axpy(xa, s, Below(b, i)) == xa;
      assert From(b, i) == b;
    }
  }

  /** The two `sgn` loops: the products over the unwrapped part, then minus
      those over the wrapped part. */
  method Correlate(f: seq<int>, g: seq<int>, i: nat, x: seq<int>, y: seq<int>) returns (sgn: int)
    requires |f| == |g| == |x| == |y| && i <= |f|
    ensures sgn == Correlation(f, g, i, x, y)
  {
    var n := |f|;
    ghost var a, b := NegRot(f, i), NegRot(g, i);
    sgn := 0;
    var j := 0;
    while j < n - i
      invariant j <= n - i
      invariant sgn == Dot(a, x, i, i + j) + Dot(b, y, i, i + j)
    {
      sgn := sgn + (f[j] * x[i + j] + g[j] * y[i + j]);
      j := j + 1;
    }
    while j < n
      invariant n - i <= j <= n
      invariant sgn == Dot(a, x, i, n) + Dot(b, y, i, n) + Dot(a, x, 0, j - (n - i)) + Dot(b, y, 0, j - (n - i))
    {
      sgn := sgn - (f[j] * x[i + j - n] + g[j] * y[i + j - n]);
      j := j + 1;
    }
    DotSplit(a, x, 0, i, n);
    DotSplit(b, y, 0, i, n);
  }

  /** The first update loop of either branch: entries i .. n - 1 move by
      s times the rotation, the rest stay. */
  method UpdateHead(f: seq<int>, g: seq<int>, i: nat, s: int, x0: seq<int>, y0: seq<int>)
    returns (x: seq<int>, y: seq<int>)
    requires |f| == |g| == |x0| == |y0| && i <= |f|
    ensures x == Axpy(x0, s, From(NegRot(f, i), i))
    ensures y == Axpy(y0, s, From(NegRot(g, i), i))
  {
    var n := |f|;
    x, y := x0, y0;
    var j := 0;
    while j < n - i
      invariant j <= n - i && |x| == n && |y| == n
      invariant forall m | 0 <= m < n :: x[m] == if i <= m < i + j then x0[m] + s * f[m - i] else x0[m]
      invariant forall m | 0 <= m < n :: y[m] == if i <= m < i + j then y0[m] + s * g[m - i] else y0[m]
    {
      x := x[i + j := x[i + j] + s * f[j]];
      y := y[i + j := y[i + j] + s * g[j]];
      j := j + 1;
    }
  }

  /** The wrap-around loop as intended: entries 0 .. i - 1 of x move by the
      wrapped rotation of f, those of y by that of g. */
  method UpdateWrap(f: seq<int>, g: seq<int>, i: nat, s: int, x0: seq<int>, y0: seq<int>)
    returns (x: seq<int>, y: seq<int>)
    requires |f| == |g| == |x0| == |y0| && i <= |f|
    ensures x == Axpy(x0, s, Below(NegRot(f, i), i))
    ensures y == Axpy(y0, s, Below(NegRot(g, i), i))
  {
    var n := |f|;
    x, y := x0, y0;
    var j := n - i;
    while j < n
      invariant n - i <= j <= n && |x| == n && |y| == n
      invariant forall m | 0 <= m < n :: x[m] == if m < j - (n - i) then x0[m] - s * f[m - i + n] else x0[m]
      invariant forall m | 0 <= m < n :: y[m] == if m < j - (n - i) then y0[m] - s * g[m - i + n] else y0[m]
    {
      x := x[i + j - n := x[i + j - n] - s * f[j]];
      y := y[i + j - n := y[i + j - n] - s * g[j]];
      j := j + 1;
    }
  }

  /** The wrap-around loop as the source writes it: both the f and the g
      terms go to x; y is not touched. */
  method UpdateWrapAsWritten(f: seq<int>, g: seq<int>, i: nat, s: int, x0: seq<int>, y0: seq<int>)
    returns (x: seq<int>, y: seq<int>)
    requires |f| == |g| == |x0| == |y0| && i <= |f|
    ensures x == Axpy(Axpy(x0, s, Below(NegRot(f, i), i)), s, Below(NegRot(g, i), i))
    ensures y == y0
  {
    var n := |f|;
    x, y := x0, y0;
    var j := n - i;
    while j < n
      invariant n - i <= j <= n && |x| == n
      invariant forall m | 0 <= m < n :: x[m] == if m < j - (n - i) then x0[m] - s * f[m - i + n] - s * g[m - i + n] else x0[m]
    {
      x := x[i + j - n := x[i + j - n] - s * f[j]];
      x := x[i + j - n := x[i + j - n] - s * g[j]];
      j := j + 1;
    }
  }

  /** Moving by the part from i and then by the part below i is moving by
      the whole vector. */
  lemma AxpySplit(x: seq<int>, s: int, a: seq<int>, i: nat)
    requires |x| == |a|
    ensures Axpy(Axpy(x, s, From(a, i)), s, Below(a, i)) == Axpy(x, s, a)
  {
  }

  lemma AxpyAsWrittenSplit(x: seq<int>, s: int, a: seq<int>, b: seq<int>, i: nat)
    requires |x| == |a| == |b|
    ensures Axpy(Axpy(Axpy(x, s, From(a, i)), s, Below(a, i)), s, Below(b, i))
      == Axpy(Axpy(x, s, a), s, Below(b, i))
  {
  }

  /** `greedy_sc` as intended. Every index must be at most n (`N - i`
      underflows otherwise). */
  method GreedySc(f: seq<int>, g: seq<int>, idx: seq<nat>, x0: seq<int>, y0: seq<int>)
    returns (x: seq<int>, y: seq<int>)
    requires |f| == |g| == |x0| == |y0| && IndicesInRange(idx, |f|)
    ensures (x, y) == Greedy(f, g, idx, x0, y0)
  {
    x, y := x0, y0;
    var k := 0;
    while k < |idx|
      invariant k <= |idx|
      invariant (x, y) == Greedy(f, g, idx[..k], x0, y0)
    {
      assert idx[..k + 1][..k] == idx[..k];
      var i := idx[k];
      var sgn := Correlate(f, g, i, x, y);
      var s := Direction(sgn);
      ghost var xp, yp := x, y;
      x, y := UpdateHead(f, g, i, s, x, y);
      x, y := UpdateWrap(f, g, i, s, x, y);
      AxpySplit(xp, s, NegRot(f, i), i);
      AxpySplit(yp, s, NegRot(g, i), i);
      k := k + 1;
    }
    assert idx[..|idx|] == idx;
  }

  /** `greedy_sc` as the source writes it. */
  method GreedyScAsWritten(f: seq<int>, g: seq<int>, idx: seq<nat>, x0: seq<int>, y0: seq<int>)
    returns (x: seq<int>, y: seq<int>)
    requires |f| == |g| == |x0| == |y0| && IndicesInRange(idx, |f|)
    ensures (x, y) == GreedyAsWritten(f, g, idx, x0, y0)
  {
    x, y := x0, y0;
    var k := 0;
    while k < |idx|
      invariant k <= |idx|
      invariant (x, y) == GreedyAsWritten(f, g, idx[..k], x0, y0)
    {
      assert idx[..k + 1][..k] == idx[..k];
      var i := idx[k];
      var sgn := Correlate(f, g, i, x, y);
      var s := Direction(sgn);
      ghost var xp, yp := x, y;
      x, y := UpdateHead(f, g, i, s, x, y);
      x, y := UpdateWrapAsWritten(f, g, i, s, x, y);
      AxpyAsWrittenSplit(xp, s, NegRot(f, i), NegRot(g, i), i);
      k := k + 1;
    }
    assert idx[..|idx|] == idx;
  }

  /** Rotating in Z[X]/(X^n + 1) keeps the square norm. */
  lemma NegRotNorm(f: seq<int>, i: nat)
    requires i <= |f|
    ensures VecScalar(NegRot(f, i), NegRot(f, i)) == VecScalar(f, f)
  {
    var n := |f|;
    var a := NegRot(f, i);
    DotSplit(a, a, 0, i, n);
    DotSquaresShift(a, f, 0, i, n - i);
    DotSquaresShift(a, f, i, n, 0);
    DotSplit(f, f, 0, n - i, n);
  }

  /** One greedy step raises the square norm of (x, y) by at most that of
      (f, g): the chosen direction makes the cross term nonpositive. */
  lemma StepNorm(f: seq<int>, g: seq<int>, i: nat, x: seq<int>, y: seq<int>)
    requires |f| == |g| == |x| == |y| && i <= |f|
    ensures SquareNorm(Step(f, g, i, x, y)) <= SquareNorm((x, y)) + VecScalar(f, f) + VecScalar(g, g)
  {
    var n := |f|;
    var a, b := NegRot(f, i), NegRot(g, i);
    var sgn := Correlation(f, g, i, x, y);
    var s := Direction(sgn);
    DotExpand(x, s, a, 0, n);
    DotExpand(y, s, b, 0, n);
    NegRotNorm(f, i);
    NegRotNorm(g, i);
    DotSymmetric(a, x, 0, n);
    DotSymmetric(b, y, 0, n);
    assert s * s == 1;
    assert s * sgn <= 0;
    assert 2 * s * Dot(x, a, 0, n) + 2 * s * Dot(y, b, 0, n) == 2 * (s * sgn);
  }

  /** From a zero accumulator the correlation is 0, so the first step adds
      the rotated key: as intended, (x, y) becomes X^i * (f, g); as written,
      the wrapped part of X^i * g lands in x and y keeps only the rest. */
  lemma FirstStepAdds(f: seq<int>, g: seq<int>, i: nat, x: seq<int>, y: seq<int>)
    requires |f| == |g| == |x| == |y| && i <= |f|
    requires forall m | 0 <= m < |x| :: x[m] == 0 && y[m] == 0
    ensures Correlation(f, g, i, x, y) == 0
    ensures Step(f, g, i, x, y) == (NegRot(f, i), NegRot(g, i))
    ensures StepAsWritten(f, g, i, x, y) == (Axpy(NegRot(f, i), 1, Below(NegRot(g, i), i)), From(NegRot(g, i), i))
  {
    var n := |f|;
    var a, b := NegRot(f, i), NegRot(g, i);
    assert x == seq(n, _ => 0) && y == seq(n, _ => 0);
    ZeroDot(a, 0, n);
    ZeroDot(b, 0, n);
    assert Correlation(f, g, i, x, y) == 0;
    assert Axpy(x, 1, a) == a;
    assert Axpy(y, 1, b) == b;
    assert Axpy(y, 1, From(b, i)) == From(b, i);
  }

  lemma {:induction false} ZeroDot(a: seq<int>, lo: nat, hi: nat)
    requires lo <= hi <= |a|
    ensures Dot(a, seq(|a|, _ => 0), lo, hi) == 0
    decreases hi - lo
  {
    if lo < hi {
      ZeroDot(a, lo, hi - 1);
    }
  }

  /** As written, a step leaves y unchanged below the index. */
  lemma AsWrittenKeepsLowY(f: seq<int>, g: seq<int>, i: nat, x: seq<int>, y: seq<int>)
    requires |f| == |g| == |x| == |y| && i <= |f|
    ensures forall m | 0 <= m < i :: StepAsWritten(f, g, i, x, y).1[m] == y[m]
  {
  }

  /** With n = 2, f = g = [0, 1], the single index 1 and a zero accumulator,
      the source yields x = [-2, 0], y = [0, 0], where the intended step
      yields x = y = [-1, 0]. */
  lemma AsWrittenDiffers()
    ensures GreedyAsWritten([0, 1], [0, 1], [1], [0, 0], [0, 0]) == ([-2, 0], [0, 0])
    ensures Greedy([0, 1], [0, 1], [1], [0, 0], [0, 0]) == ([-1, 0], [-1, 0])
  {
    var f := [0, 1];
    var z := [0, 0];
    var a := NegRot(f, 1);
    assert a == [-1, 0];
    assert Dot(a, z, 0, 1) == 0;
    assert Dot(a, z, 0, 2) == 0;
    assert Correlation(f, f, 1, z, z) == 0;
    assert Axpy(z, 1, a) == [-1, 0];
    assert Below(a, 1) == [-1, 0];
    assert From(a, 1) == [0, 0];
    assert Axpy([-1, 0], 1, [-1, 0]) == [-2, 0];
    assert Axpy(z, 1, [0, 0]) == [0, 0];
    assert [1][..0] == [];
    assert Greedy(f, f, [], z, z) == (z, z);
    assert GreedyAsWritten(f, f, [], z, z) == (z, z);
  }
}
