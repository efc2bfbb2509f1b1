/** The arithmetic kernel of src/ntt.rs: modular multiplication with Rust's
    truncating remainder, exponentiation, the in-place radix-2 transform
    (bit-reversal permutation followed by butterfly stages), pointwise and
    scalar multiplication, and the reverse/negate/normalise finisher.
    Arrays are modelled as sequences updated in place. */
module Ntt {
  import opened Arith
  import opened BitRev

  /** `r` is what Rust's `a % m` yields: congruent to `a`, smaller than `m`
      in magnitude, and of the sign of `a`. */
  predicate IsTruncRem(r: int, a: int, m: int)
    requires m != 0
  {
    && Cong(r, a, m)
    && Abs(r) < Abs(m)
    && (a >= 0 ==> r >= 0)
    && (a <= 0 ==> r <= 0)
  }

  /** The truncating remainder is unique, so `IsTruncRem` pins a value down. */
  lemma TruncRemUnique(r1: int, r2: int, a: int, m: int)
    requires m != 0 && IsTruncRem(r1, a, m) && IsTruncRem(r2, a, m)
    ensures r1 == r2
  {
    CongSym(r2, a, m);
    CongTrans(r1, a, r2, m);
    CongWitness(r1, r2, m);
    var k := (r1 - r2) / m;
    if k != 0 {
      MulAbsGe(m, k);
    }
  }

  /** `muln`: the product, taken in i64, reduced with `%`. */
  function MulN(x: int, y: int, n: int): (r: int)
    requires n != 0
    ensures IsTruncRem(r, x * y, n)
  {
    var r := RemT(x * y, n);
    CongSym(x * y, r, n);
    r
  }

  /** The i64 product inside `muln` cannot overflow for i32 operands, and
      the result fits back into i32. */
  lemma MulNInRange(x: int, y: int, n: int)
    requires IsI32(x) && IsI32(y) && IsI32(n) && n != 0
    ensures IsI64(x * y)
    ensures IsI32(MulN(x, y, n))
  {
    MulLe(Abs(x), Abs(y), 0x8000_0000, 0x8000_0000);
    assert Abs(x * y) == Abs(x) * Abs(y);
  }

  /** `sqrn`: squaring gives a nonnegative reduced square. */
  function SqrN(x: int, n: int): (r: int)
    requires n != 0
    ensures Cong(r, x * x, n)
    ensures 0 <= r < Abs(n)
  {
    MulN(x, x, n)
  }

  /** `pwr` with the exponent halved on every iteration, as square-and-multiply
      requires. The result is congruent to x^e; for e = 0 it is 1 and for
      e = 1 it is x itself, unreduced. A negative exponent skips the loop. */
  method Pwr(x0: int, e0: int, n: int) returns (y: int)
    requires n != 0
    ensures e0 >= 0 ==> Cong(y, Pow(x0, e0), n)
    ensures e0 == 0 ==> y == 1
    ensures e0 == 1 ==> y == x0
    ensures e0 < 0 ==> y == if Odd(e0) then x0 else 1
  {
    var x := x0;
    var e := e0;
    y := if Odd(e) then x else 1;
    if e0 >= 0 {
      PowSplit(x0, e0);
      assert Pow(x0, e0 % 2) == y;
    }
    e := Shr(e, 1);
    assert Pow2(1) == 2;
    while e > 0
      invariant e0 >= 0 ==> e >= 0 && Cong(y * Pow(x * x, e), Pow(x0, e0), n)
      invariant e0 < 0 ==> e < 0
      invariant e0 <= 1 ==> e <= 0 && y == if Odd(e0) then x0 else 1
      decreases e
    {
      var x1 := SqrN(x, n);
      var y1 := if Odd(e) then MulN(x1, y, n) else y;
      PwrStep(x, y, e, n, x1, y1);
      CongTrans(y1 * Pow(x1 * x1, e / 2), y * Pow(x * x, e), Pow(x0, e0), n);
      x, y := x1, y1;
      e := Shr(e, 1);
    }
    assert e0 >= 0 ==> Pow(x * x, e) == 1;
  }

  /** One iteration of the corrected loop keeps y * (x^2)^e invariant
      modulo n. */
  lemma PwrStep(x: int, y: int, e: int, n: int, x1: int, y1: int)
    requires n != 0 && e >= 1
    requires Cong(x1, x * x, n)
    requires y1 == if Odd(e) then MulN(x1, y, n) else y
    ensures Cong(y1 * Pow(x1 * x1, e / 2), y * Pow(x * x, e), n)
  {
    var xx := x * x;
    PwrStepFactors(xx, y, e, n, x1, y1);
    PowSplit(xx, e);
    MulAssoc(y, Pow(xx, e % 2), Pow(xx * xx, e / 2));
  }

  lemma MulAssoc(a: int, b: int, c: int)
    ensures a * b * c == a * (b * c)
  {
  }

  lemma PwrStepFactors(xx: int, y: int, e: int, n: int, x1: int, y1: int)
    requires n != 0 && e >= 1
    requires Cong(x1, xx, n)
    requires y1 == if Odd(e) then MulN(x1, y, n) else y
    ensures Cong(y1 * Pow(x1 * x1, e / 2), y * Pow(xx, e % 2) * Pow(xx * xx, e / 2), n)
  {
    PwrStepOdd(xx, y, e, n, x1, y1);
    CongMul(x1, xx, x1, xx, n);
    CongPow(x1 * x1, xx * xx, e / 2, n);
    CongMul(y1, y * Pow(xx, e % 2), Pow(x1 * x1, e / 2), Pow(xx * xx, e / 2), n);
  }

  lemma PwrStepOdd(xx: int, y: int, e: int, n: int, x1: int, y1: int)
    requires n != 0
    requires Cong(x1, xx, n)
    requires y1 == if Odd(e) then MulN(x1, y, n) else y
    ensures Cong(y1, y * Pow(xx, e % 2), n)
  {
    if Odd(e) {
      PowOne(xx);
      CongMul(x1, xx, y, y, n);
      CongTrans(y1, x1 * y, xx * y, n);
    } else {
      assert y1 - y * Pow(xx, 0) == 0;
    }
  }

  lemma PowOne(b: int)
    ensures Pow(b, 1) == b
  {
  }

  /** The loop of `pwr` as written in src/ntt.rs: the exponent is shifted
      once before the loop and never inside it. At most `fuel` iterations
      are run; None means the loop had not exited by then. */
  function PwrLoopAsWritten(x: int, y: int, e: int, n: int, fuel: nat): Option<int>
    requires n != 0
    decreases fuel
  {
    if e <= 0 then Some(y)
    else if fuel == 0 then None
    else
      var x1 := SqrN(x, n);
      PwrLoopAsWritten(x1, if Odd(e) then MulN(x1, y, n) else y, e, n, fuel - 1)
  }

  /** `pwr` as written. For an exponent of 2 or more the loop never exits,
      however many iterations are allowed, while the corrected `Pwr`
      returns x^e; below 2 the loop is skipped and the result is x for 1
      and 1 for 0. */
  function PwrAsWritten(x: int, e: int, n: int, fuel: nat): (r: Option<int>)
    requires n != 0
    ensures e >= 2 ==> r.None?
    ensures e <= 1 ==> r == Some(if Odd(e) then x else 1)
  {
    var y := if Odd(e) then x else 1;
    if e >= 2 then
      PwrLoopAsWrittenNeverExits(x, y, Shr(e, 1), n, fuel);
      PwrLoopAsWritten(x, y, Shr(e, 1), n, fuel)
    else PwrLoopAsWritten(x, y, Shr(e, 1), n, fuel)
  }

  lemma {:induction false} PwrLoopAsWrittenNeverExits(x: int, y: int, e: int, n: int, fuel: nat)
    requires n != 0 && e > 0
    ensures PwrLoopAsWritten(x, y, e, n, fuel) == None
    decreases fuel
  {
    if fuel > 0 {
      var x1 := SqrN(x, n);
      var y1 := if Odd(e) then MulN(x1, y, n) else y;
      PwrLoopAsWrittenNeverExits(x1, y1, e, n, fuel - 1);
    }
  }

  // ---------------------------------------------------------------------
  // Index arithmetic of the butterfly stages. At half-width h, blocks of
  // 2h entries pair index p (offset p % 2h below h) with p + h.

  /** An upper entry of a pair lies h above its partner, at the same offset. */
  lemma UpperPartner(m: nat, h: nat)
    requires h >= 1 && m % (2 * h) >= h
    ensures m >= h && (m - h) % (2 * h) == m % (2 * h) - h
  {
    var M := 2 * h;
    if m < h {
      DivModUnique(m, M, 0, m);
    }
    DivModUnique(m - h, M, m / M, m % M - h);
  }

  /** A lower entry of a pair has its partner in range, at offset + h. */
  lemma PairInRange(p: nat, h: nat, n: nat)
    requires h >= 1 && n % (2 * h) == 0 && p < n && p % (2 * h) < h
    ensures p + h < n
    ensures (p + h) % (2 * h) == p % (2 * h) + h
  {
    var M := 2 * h;
    var a := p / M;
    var c := n / M;
    DivModUnique(p + h, M, a, p % M + h);
    if a >= c {
      MulLe(c, M, a, M);
      assert false;
    }
    MulLe(a + 1, M, c, M);
    assert (a + 1) * M == a * M + M;
  }

  /** The twiddle index `j * (n / i)` of `fft` stays below n. */
  lemma TwiddleIndexInRange(o: nat, h: nat, n: nat)
    requires h >= 1 && o < h && n > 0 && n % (2 * h) == 0
    ensures n % h == 0
    ensures o * (n / h) < n
  {
    var c := n / (2 * h);
    assert n == h * (2 * c);
    DivModUnique(n, h, 2 * c, 0);
    MulLe(o, 2 * c, h - 1, 2 * c);
    assert (h - 1) * (2 * c) == n - 2 * c;
    assert c >= 1;
  }

  /** The partner value the butterfly with lower index p adds and
      subtracts: the raw upper entry at offset 0, otherwise the upper entry
      times the twiddle factor `w[offset * (n / h)]`, reduced with `muln`. */
  function Twiddled(v: seq<int>, p: nat, h: nat, q: int, w: seq<int>): int
    requires h >= 1 && q != 0 && |v| % (2 * h) == 0 && |w| >= |v|
    requires p < |v| && p % (2 * h) < h
  {
    PairInRange(p, h, |v|);
    var o := p % (2 * h);
    if o == 0 then v[p + h]
    else
      TwiddleIndexInRange(o, h, |v|);
      MulN(v[p + h], w[o * (|v| / h)], q)
  }

  /** One butterfly stage at half-width h: every pair (p, p + h) becomes
      (v[p] + x, v[p] - x) with x = Twiddled(v, p). */
  function Stage(v: seq<int>, h: nat, q: int, w: seq<int>): (r: seq<int>)
    requires h >= 1 && q != 0 && |v| % (2 * h) == 0 && |w| >= |v|
    ensures |r| == |v|
  {
    seq(|v|, m requires 0 <= m < |v| =>
      if m % (2 * h) < h then v[m] + Twiddled(v, m, h, q, w)
      else
        UpperPartner(m, h);
        v[m - h] - Twiddled(v, m - h, h, q, w))
  }

  /** The stages at half-widths 2^s, 2^(s+1), ..., 2^(L-1), in order. */
  function StagesFrom(v: seq<int>, L: nat, s: nat, q: int, w: seq<int>): (r: seq<int>)
    requires |v| == Pow2(L) && s <= L && q != 0 && |w| >= |v|
    ensures |r| == |v|
    decreases L - s
  {
    if s == L then v
    else
      Pow2Divides(s + 1, L);
      StagesFrom(Stage(v, Pow2(s), q, w), L, s + 1, q, w)
  }

  /** What `fft` computes: the bit-reversal permutation followed by all
      butterfly stages, smallest half-width first. */
  function FftSpec(v: seq<int>, L: nat, q: int, w: seq<int>): seq<int>
    requires |v| == Pow2(L) && q != 0 && |w| >= |v|
  {
    StagesFrom(BitRevPerm(v, L), L, 0, q, w)
  }

  /** A stage at most doubles a bound B >= q on the magnitudes. */
  lemma StageBound(v: seq<int>, h: nat, q: int, w: seq<int>, B: int)
    requires h >= 1 && q > 0 && |v| % (2 * h) == 0 && |w| >= |v| && B >= q
    requires forall m | 0 <= m < |v| :: Abs(v[m]) < B
    ensures forall m | 0 <= m < |v| :: Abs(Stage(v, h, q, w)[m]) < 2 * B
  {
    forall m | 0 <= m < |v|
      ensures Abs(Stage(v, h, q, w)[m]) < 2 * B
    {
      if m % (2 * h) < h {
        PairInRange(m, h, |v|);
      } else {
        UpperPartner(m, h);
      }
    }
  }

  /** Started from entries below q in magnitude, the full transform keeps
      every entry below n * q, so with n * q <= i32::MAX nothing overflows. */
  lemma {:induction false} StagesBound(v: seq<int>, L: nat, s: nat, q: int, w: seq<int>)
    requires |v| == Pow2(L) && s <= L && q > 0 && |w| >= |v|
    requires forall m | 0 <= m < |v| :: Abs(v[m]) < Pow2(s) * q
    ensures forall m | 0 <= m < |v| :: Abs(StagesFrom(v, L, s, q, w)[m]) < Pow2(L) * q
    decreases L - s
  {
    if s < L {
      Pow2Divides(s + 1, L);
      MulMonotone(q, Pow2(s));
      StageBound(v, Pow2(s), q, w, Pow2(s) * q);
      var v1 := Stage(v, Pow2(s), q, w);
      assert Pow2(s + 1) * q == 2 * (Pow2(s) * q);
      assert forall m | 0 <= m < |v1| :: Abs(v1[m]) < Pow2(s + 1) * q;
      StagesBound(v1, L, s + 1, q, w);
      assert StagesFrom(v, L, s, q, w) == StagesFrom(v1, L, s + 1, q, w);
    }
  }

  /** Which pairs the stage loops of `fft` have handled when they stand at
      offset j and index k: offsets are swept in increasing order and, for
      one offset, blocks from left to right. */
  function PairLow(m: nat, h: nat): nat
    requires h >= 1
  {
    if m % (2 * h) < h then m else (UpperPartner(m, h); m - h)
  }

  predicate Processed(m: nat, h: nat, j: nat, k: nat)
    requires h >= 1
  {
    var o := PairLow(m, h) % (2 * h);
    o < j || (o == j && PairLow(m, h) < k)
  }

  /** Handling the pair at k adds exactly k and k + h to the handled set. */
  lemma ButterflyStep(n: nat, h: nat, j: nat, k: nat)
    requires h >= 1 && n % (2 * h) == 0 && k < n && k % (2 * h) == j && j < h
    ensures k + h < n
    ensures forall m | 0 <= m < n ::
      Processed(m, h, j, k + 2 * h) <==> (Processed(m, h, j, k) || m == k || m == k + h)
    ensures (k + 2 * h) % (2 * h) == j
    ensures !Processed(k, h, j, k) && !Processed(k + h, h, j, k)
  {
    PairInRange(k, h, n);
    assert PairLow(k + h, h) == k;
    DivModUnique(k + 2 * h, 2 * h, k / (2 * h) + 1, j);
    forall m | 0 <= m < n
      ensures Processed(m, h, j, k + 2 * h) <==> (Processed(m, h, j, k) || m == k || m == k + h)
    {
      var p := PairLow(m, h);
      if p % (2 * h) == j && k <= p < k + 2 * h {
        SameResidueClose(p, k, 2 * h);
        if m % (2 * h) >= h {
          UpperPartner(m, h);
        }
      }
    }
  }

  lemma SameResidueClose(a: nat, b: nat, M: nat)
    requires M >= 1 && a % M == b % M && b <= a < b + M
    ensures a == b
  {
    var d := a / M - b / M;
    assert a - b == M * d;
    if d != 0 {
      MulAbsGe(M, d);
    }
  }

  /** Once the blocks of offset j are exhausted, the handled set is that of
      the start of offset j + 1. */
  lemma OffsetDone(n: nat, h: nat, j: nat, k: nat)
    requires h >= 1 && k >= n && j < h
    ensures forall m | 0 <= m < n :: Processed(m, h, j, k) <==> Processed(m, h, j + 1, j + 1)
  {
    forall m | 0 <= m < n
      ensures Processed(m, h, j, k) <==> Processed(m, h, j + 1, j + 1)
    {
      ModAtMost(PairLow(m, h), 2 * h);
    }
  }

  lemma ModAtMost(a: nat, M: nat)
    requires M >= 1
    ensures a % M <= a
  {
    if a < M {
      DivModUnique(a, M, 0, a);
    }
  }

  /** After all h offsets, every pair has been handled. */
  lemma StageDone(n: nat, h: nat)
    requires h >= 1
    ensures forall m | 0 <= m < n :: Processed(m, h, h, h)
  {
    forall m | 0 <= m < n
      ensures Processed(m, h, h, h)
    {
      if m % (2 * h) >= h {
        UpperPartner(m, h);
      }
    }
  }

  /** The bookkeeping of the bit-reversal phase after the step at index i:
      v[m] already holds v0[Rev(m)] for every m whose smaller partner
      (m or Rev(m)) is below i + 1. */
  lemma SwapStep(v: seq<int>, v0: seq<int>, L: nat, i: nat, j: nat, v1: seq<int>)
    requires |v| == |v0| == Pow2(L) && i < |v| && j == Rev(L, i)
    requires forall m {:trigger v[m]} | 0 <= m < |v| :: v[m] == if Min(m, Rev(L, m)) < i then v0[Rev(L, m)] else v0[m]
    requires v1 == if i < j then v[i := v[j]][j := v[i]] else v
    ensures forall m {:trigger v1[m]} | 0 <= m < |v| :: v1[m] == if Min(m, Rev(L, m)) < i + 1 then v0[Rev(L, m)] else v0[m]
  {
    RevInvolution(L, i);
    forall m | 0 <= m < |v|
      ensures v1[m] == if Min(m, Rev(L, m)) < i + 1 then v0[Rev(L, m)] else v0[m]
    {
      RevInvolution(L, m);
    }
  }

  /** The inner `loop` of the first phase of `fft`: starting from k = n it
      halves k, flips that bit of j, and stops once the flipped bit is set.
      On the mirrored counter j = Rev(i) this yields Rev(i + 1). */
  method RevIncrement(n: nat, j0: nat, ghost L: nat, ghost i: nat) returns (j: nat)
    requires n == Pow2(L) && i + 1 < n && j0 == Rev(L, i)
    ensures j == Rev(L, i + 1)
  {
    RevIncCorrect(L, i);
    RevAllOnes(L, i);
    j := j0;
    var k := n;
    ghost var s := L;
    while true
      invariant s >= 1 && k == Pow2(s) && j < k && j != k - 1
      invariant RevInc(s, j) == Rev(L, i + 1)
      decreases k
    {
      k := k / 2;
      s := s - 1;
      HasBitBelowDouble(j, k);
      j := FlipBit(j, k);
      HasBitBelowDouble(j, k);
      if HasBit(j, k) {
        break;
      }
    }
  }

  /** The first phase of `fft`: swap v[i] and v[j] whenever i < j, with j
      the bit reversal of i, giving the bit-reversal permutation. */
  method BitReverse(v0: seq<int>, n: nat) returns (v: seq<int>)
    requires n >= 1 && n == Pow2(Log2(n)) && |v0| == n
    ensures v == BitRevPerm(v0, Log2(n))
  {
    ghost var L := Log2(n);
    v := v0;
    var j := n / 2;
    if n >= 2 {
      RevOfOne(L);
    }
    var i := 1;
    BitReverseStart(v0, L);
    while i < n - 1
      invariant 1 <= i && |v| == n
      invariant n >= 2 ==> i <= n - 1 && j == Rev(L, i)
      invariant forall m {:trigger v[m]} | 0 <= m < n :: v[m] == if Min(m, Rev(L, m)) < i then v0[Rev(L, m)] else v0[m]
    {
      ghost var vPrev := v;
      if i < j {
        v := v[i := v[j]][j := v[i]];
      }
      SwapStep(vPrev, v0, L, i, j, v);
      j := RevIncrement(n, j, L, i);
      i := i + 1;
    }
    BitReverseDone(v, v0, L, i);
  }

  lemma BitReverseStart(v0: seq<int>, L: nat)
    requires |v0| == Pow2(L)
    ensures forall m {:trigger v0[m]} | 0 <= m < |v0| :: v0[m] == if Min(m, Rev(L, m)) < 1 then v0[Rev(L, m)] else v0[m]
  {
    forall m | 0 <= m < |v0|
      ensures v0[m] == if Min(m, Rev(L, m)) < 1 then v0[Rev(L, m)] else v0[m]
    {
      RevOfZero(L);
      RevInvolution(L, m);
    }
  }

  lemma BitReverseDone(v: seq<int>, v0: seq<int>, L: nat, i: nat)
    requires |v| == |v0| == Pow2(L) && i >= |v| - 1
    requires forall m {:trigger v[m]} | 0 <= m < |v| :: v[m] == if Min(m, Rev(L, m)) < i then v0[Rev(L, m)] else v0[m]
    ensures v == BitRevPerm(v0, L)
  {
    RevAllOnes(L, |v| - 1);
  }

  /** The `for k in (0..n).step_by(i + i)` loop of `fft`: the butterflies
      at offset 0 add and subtract the raw upper entry. */
  method ButterflyOffsetZero(v0: seq<int>, ghost u: seq<int>, n: nat, q: int, w: seq<int>, h: nat)
    returns (v: seq<int>)
    requires h >= 1 && n % (2 * h) == 0 && |v0| == |u| == n && |w| >= n && q != 0
    requires forall m | 0 <= m < n :: v0[m] == if Processed(m, h, 0, 0) then Stage(u, h, q, w)[m] else u[m]
    ensures |v| == n
    ensures forall m | 0 <= m < n :: v[m] == if Processed(m, h, 1, 1) then Stage(u, h, q, w)[m] else u[m]
  {
    ghost var S := Stage(u, h, q, w);
    v := v0;
    var k := 0;
    while k < n
      invariant k % (2 * h) == 0 && |v| == n
      invariant forall m | 0 <= m < n :: v[m] == if Processed(m, h, 0, k) then S[m] else u[m]
    {
      ButterflyStep(n, h, 0, k);
      StageAt(u, h, q, w, k);
      assert !Processed(k + h, h, 0, k) && !Processed(k, h, 0, k);
      ghost var vPrev := v;
      var x := v[k + h];
      v := v[k + h := v[k] - x];
      v := v[k := v[k] + x];
      ButterflyUpdate(vPrev, u, S, n, h, 0, k, x, v);
      k := k + 2 * h;
    }
    OffsetDone(n, h, 0, k);
  }

  /** The `for k in (j..n).step_by(i + i)` loop of `fft` for one offset
      j >= 1: the upper entry is multiplied by the twiddle factor y. */
  method ButterflyOffset(v0: seq<int>, ghost u: seq<int>, n: nat, q: int, w: seq<int>, h: nat, j: nat, y: int)
    returns (v: seq<int>)
    requires h >= 1 && n % (2 * h) == 0 && |v0| == |u| == n && |w| >= n && q != 0
    requires 1 <= j < h && j * (n / h) < |w| && y == w[j * (n / h)]
    requires forall m | 0 <= m < n :: v0[m] == if Processed(m, h, j, j) then Stage(u, h, q, w)[m] else u[m]
    ensures |v| == n
    ensures forall m | 0 <= m < n :: v[m] == if Processed(m, h, j + 1, j + 1) then Stage(u, h, q, w)[m] else u[m]
  {
    ghost var S := Stage(u, h, q, w);
    v := v0;
    var k := j;
    DivModUnique(j, 2 * h, 0, j);
    while k < n
      invariant k % (2 * h) == j && |v| == n
      invariant forall m | 0 <= m < n :: v[m] == if Processed(m, h, j, k) then S[m] else u[m]
    {
      ButterflyStep(n, h, j, k);
      StageAt(u, h, q, w, k);
      assert !Processed(k + h, h, j, k) && !Processed(k, h, j, k);
      ghost var vPrev := v;
      assert v[k + h] == u[k + h];
      var x := MulN(v[k + h], y, q);
      assert x == Twiddled(u, k, h, q, w) by {
        assert k % (2 * h) == j && |u| == n;
      }
      v := v[k + h := v[k] - x];
      v := v[k := v[k] + x];
      ButterflyUpdate(vPrev, u, S, n, h, j, k, x, v);
      k := k + 2 * h;
    }
    OffsetDone(n, h, j, k);
  }

  /** The two entries of the pair at lower index k after a stage. */
  lemma StageAt(u: seq<int>, h: nat, q: int, w: seq<int>, k: nat)
    requires h >= 1 && q != 0 && |u| % (2 * h) == 0 && |w| >= |u|
    requires k < |u| && k % (2 * h) < h
    ensures k + h < |u|
    ensures Stage(u, h, q, w)[k] == u[k] + Twiddled(u, k, h, q, w)
    ensures Stage(u, h, q, w)[k + h] == u[k] - Twiddled(u, k, h, q, w)
  {
    PairInRange(k, h, |u|);
  }

  /** Writing the butterfly at k extends the handled set by its pair. */
  lemma ButterflyUpdate(v: seq<int>, u: seq<int>, S: seq<int>, n: nat, h: nat, j: nat, k: nat, x: int, v1: seq<int>)
    requires h >= 1 && n % (2 * h) == 0 && k < n && k % (2 * h) == j && j < h
    requires |v| == |u| == |S| == n && k + h < n
    requires S[k] == u[k] + x && S[k + h] == u[k] - x
    requires forall m | 0 <= m < n :: v[m] == if Processed(m, h, j, k) then S[m] else u[m]
    requires !Processed(k, h, j, k)
    requires v1 == v[k + h := v[k] - x][k := v[k] + x]
    ensures forall m | 0 <= m < n :: v1[m] == if Processed(m, h, j, k + 2 * h) then S[m] else u[m]
  {
    ButterflyStep(n, h, j, k);
  }

  /** One pass of the `while i < n` loop of `fft` (h is the source's i):
      offset 0 first, then offsets 1 .. h - 1 with twiddle w[j * (n / h)]. */
  method FftStage(v0: seq<int>, n: nat, q: int, w: seq<int>, h: nat) returns (v: seq<int>)
    requires h >= 1 && n >= 1 && n % (2 * h) == 0 && |v0| == n && |w| >= n && q != 0
    ensures v == Stage(v0, h, q, w)
  {
    v := ButterflyOffsetZero(v0, v0, n, q, w, h);
    var l := n / h;
    var j := 1;
    while j < h
      invariant 1 <= j && (j <= h || h == 1) && |v| == n
      invariant forall m | 0 <= m < n :: v[m] == if Processed(m, h, j, j) then Stage(v0, h, q, w)[m] else v0[m]
    {
      TwiddleIndexInRange(j, h, n);
      v := ButterflyOffset(v, v0, n, q, w, h, j, w[j * l]);
      j := j + 1;
    }
    StageDone(n, h);
  }

  /** `fft` of src/ntt.rs: the in-place bit-reversal permutation followed
      by the butterfly stages at half-widths 1, 2, 4, ..., n / 2. It
      computes `FftSpec`, and from entries below q in magnitude every
      output lies below n * q. */
  method Fft(v0: seq<int>, n: nat, q: int, w: seq<int>) returns (v: seq<int>)
    requires n >= 1 && n == Pow2(Log2(n)) && |v0| == n && |w| >= n && q > 0
    ensures |v| == n
    ensures v == FftSpec(v0, Log2(n), q, w)
    ensures (forall m | 0 <= m < n :: Abs(v0[m]) < q) ==>
      forall m | 0 <= m < n :: Abs(v[m]) < n * q
  {
    ghost var L := Log2(n);
    v := BitReverse(v0, n);
    ghost var bounded := forall m | 0 <= m < n :: Abs(v0[m]) < q;
    assert bounded ==> forall m | 0 <= m < n :: Abs(v[m]) < Pow2(0) * q;
    ghost var s := 0;
    var h := 1;
    while h < n
      invariant s <= L && h == Pow2(s) && |v| == n
      invariant StagesFrom(v, L, s, q, w) == FftSpec(v0, L, q, w)
      invariant bounded ==> forall m | 0 <= m < n :: Abs(v[m]) < Pow2(s) * q
    {
      if s == L {
        assert false;
      }
      Pow2Divides(s + 1, L);
      ghost var u := v;
      v := FftStage(v, n, q, w, h);
      StagesStep(u, L, s, q, w);
      h := 2 * h;
      s := s + 1;
    }
    if s < L {
      Pow2StrictMonotone(s, L);
    }
  }

  /** One pass of the stage loop advances `StagesFrom` by one stage and
      doubles the magnitude bound. */
  lemma StagesStep(u: seq<int>, L: nat, s: nat, q: int, w: seq<int>)
    requires |u| == Pow2(L) && s < L && q > 0 && |w| >= |u|
    ensures |u| % (2 * Pow2(s)) == 0
    ensures StagesFrom(Stage(u, Pow2(s), q, w), L, s + 1, q, w) == StagesFrom(u, L, s, q, w)
    ensures (forall m | 0 <= m < |u| :: Abs(u[m]) < Pow2(s) * q) ==>
      forall m | 0 <= m < |u| :: Abs(Stage(u, Pow2(s), q, w)[m]) < Pow2(s + 1) * q
  {
    Pow2Divides(s + 1, L);
    if forall m | 0 <= m < |u| :: Abs(u[m]) < Pow2(s) * q {
      MulMonotone(q, Pow2(s));
      StageBound(u, Pow2(s), q, w, Pow2(s) * q);
      assert Pow2(s + 1) * q == 2 * (Pow2(s) * q);
    }
  }

  /** `xmu`: the first n entries of v become muln(t[i], u[i], q); the rest
      of v is unchanged. */
  function Xmu(v: seq<int>, n: nat, q: int, t: seq<int>, u: seq<int>): (r: seq<int>)
    requires q != 0 && |v| >= n && |t| >= n && |u| >= n
    ensures |r| == |v|
    ensures forall i | 0 <= i < n :: IsTruncRem(r[i], t[i] * u[i], q)
    ensures forall i | n <= i < |v| :: r[i] == v[i]
  {
    seq(|v|, i requires 0 <= i < |v| => if i < n then MulN(t[i], u[i], q) else v[i])
  }

  /** `cmu`: the first n entries of v become the least nonnegative residue
      of c * t[i]; the rest of v is unchanged. */
  function Cmu(v: seq<int>, n: nat, q: int, t: seq<int>, c: int): (r: seq<int>)
    requires q > 0 && |v| >= n && |t| >= n
    ensures |r| == |v|
    ensures forall i | 0 <= i < n :: r[i] == (c * t[i]) % q
    ensures forall i | n <= i < |v| :: r[i] == v[i]
  {
    seq(|v|, i requires 0 <= i < |v| => if i < n then CmuEntry(t[i], c, q) else v[i])
  }

  function CmuEntry(t: int, c: int, q: int): (r: int)
    requires q > 0
    ensures r == (c * t) % q
  {
    var x := MulN(t, c, q);
    CongShift(x, 1, q);
    CongTrans(x + 1 * q, x, t * c, q);
    assert t * c == c * t;
    var r := if x < 0 then x + q else x;
    CongUnique(c * t, r, q);
    r
  }

  /** The final fix-up of `flp` for one entry: one addition or subtraction
      of q. */
  function Reduce1(x: int, q: int): int
  {
    var y := if x < 0 then x + q else x;
    if y >= q then y - q else y
  }

  lemma Reduce1Props(x: int, q: int)
    requires q > 0
    ensures Cong(Reduce1(x, q), x, q)
    ensures -q <= x < 2 * q ==> Reduce1(x, q) == x % q
  {
    if x < 0 {
      CongShift(x, 1, q);
      if -q <= x {
        CongUnique(x, x + q, q);
      }
    } else if x >= q {
      CongShift(x, -1, q);
      if x < 2 * q {
        CongUnique(x, x - q, q);
      }
    } else {
      CongUnique(x, x, q);
    }
  }

  /** The value `flp` leaves at index i: the entry that index i - 1 of the
      reversal brings there (negated at index 0), after one step of q. */
  function FlpSpec(v: seq<int>, n: nat, q: int): (r: seq<int>)
    requires n >= 1 && |v| == n
    ensures |r| == n
  {
    seq(n, i requires 0 <= i < n => Reduce1(if i == 0 then -v[0] else v[n - i], q))
  }

  /** `flp`: reverse v[1..n), negate v[0], and bring every entry into [0, q)
      by one step of q. The result is congruent to v(-X) read as a
      negacyclic polynomial: r[0] = -v[0] and r[i] = v[n - i]. From entries
      in (-q, q) it is exactly the least nonnegative residue. */
  method Flp(v0: seq<int>, n: nat, q: int) returns (v: seq<int>)
    requires n >= 1 && |v0| == n && q > 0
    ensures v == FlpSpec(v0, n, q)
    ensures Cong(v[0], -v0[0], q)
    ensures forall i | 1 <= i < n :: Cong(v[i], v0[n - i], q)
    ensures (forall i | 0 <= i < n :: -q < v0[i] < q) ==>
      v[0] == (-v0[0]) % q && forall i | 1 <= i < n :: v[i] == v0[n - i] % q
  {
    v := v0;
    var i, j := 1, n - 1;
    while i < j
      invariant 1 <= i <= j + 1 && i + j == n && |v| == n
      invariant forall m {:trigger v[m]} | 0 <= m < n :: v[m] == if 1 <= m < i || j < m then v0[n - m] else v0[m]
    {
      v := v[i := v[j]][j := v[i]];
      i, j := i + 1, j - 1;
    }
    assert forall m | 1 <= m < n :: v[m] == v0[n - m];
    v := v[0 := -v[0]];
    ghost var pre := v;
    var k := 0;
    while k < n
      invariant k <= n && |v| == n
      invariant forall m | 0 <= m < k :: v[m] == Reduce1(pre[m], q)
      invariant forall m | k <= m < n :: v[m] == pre[m]
    {
      var x := v[k];
      if x < 0 {
        x := x + q;
      }
      if x >= q {
        x := x - q;
      }
      v := v[k := x];
      k := k + 1;
    }
    forall m | 0 <= m < n
      ensures Cong(v[m], pre[m], q)
      ensures -q <= pre[m] < 2 * q ==> v[m] == pre[m] % q
    {
      Reduce1Props(pre[m], q);
    }
  }

  // ---------------------------------------------------------------------
  // Congruence: every step of the transform pipeline maps entrywise
  // congruent inputs to entrywise congruent outputs, so results reduced
  // modulo q depend only on the inputs modulo q.

  /** Equal length and entrywise congruent modulo q. */
  predicate CongVec(a: seq<int>, b: seq<int>, q: int)
    requires q != 0
  {
    |a| == |b| && forall i | 0 <= i < |a| :: Cong(a[i], b[i], q)
  }

  lemma MulNCong(x1: int, x2: int, y1: int, y2: int, q: int)
    requires q != 0 && Cong(x1, x2, q) && Cong(y1, y2, q)
    ensures Cong(MulN(x1, y1, q), MulN(x2, y2, q), q)
  {
    CongMul(x1, x2, y1, y2, q);
    CongTrans(MulN(x1, y1, q), x1 * y1, x2 * y2, q);
    CongSym(MulN(x2, y2, q), x2 * y2, q);
    CongTrans(MulN(x1, y1, q), x2 * y2, MulN(x2, y2, q), q);
  }

  lemma XmuCong(v: seq<int>, n: nat, q: int, t1: seq<int>, t2: seq<int>, u1: seq<int>, u2: seq<int>)
    requires q != 0 && |v| == n && CongVec(t1, t2, q) && CongVec(u1, u2, q) && |t1| >= n && |u1| >= n
    ensures CongVec(Xmu(v, n, q, t1, u1), Xmu(v, n, q, t2, u2), q)
  {
    forall i | 0 <= i < n
      ensures Cong(Xmu(v, n, q, t1, u1)[i], Xmu(v, n, q, t2, u2)[i], q)
    {
      MulNCong(t1[i], t2[i], u1[i], u2[i], q);
    }
  }

  lemma CmuCong(v: seq<int>, n: nat, q: int, t1: seq<int>, t2: seq<int>, c: int)
    requires q > 0 && |v| == n && CongVec(t1, t2, q) && |t1| >= n
    ensures CongVec(Cmu(v, n, q, t1, c), Cmu(v, n, q, t2, c), q)
  {
    forall i | 0 <= i < n
      ensures Cong(Cmu(v, n, q, t1, c)[i], Cmu(v, n, q, t2, c)[i], q)
    {
      CongMul(c, c, t1[i], t2[i], q);
      CongMod(c * t1[i], q);
      CongMod(c * t2[i], q);
      CongTrans((c * t1[i]) % q, c * t1[i], c * t2[i], q);
      CongSym((c * t2[i]) % q, c * t2[i], q);
      CongTrans((c * t1[i]) % q, c * t2[i], (c * t2[i]) % q, q);
    }
  }

  lemma FlpCong(v1: seq<int>, v2: seq<int>, n: nat, q: int)
    requires q > 0 && n >= 1 && |v1| == n && CongVec(v1, v2, q)
    ensures CongVec(FlpSpec(v1, n, q), FlpSpec(v2, n, q), q)
  {
    forall i | 0 <= i < n
      ensures Cong(FlpSpec(v1, n, q)[i], FlpSpec(v2, n, q)[i], q)
    {
      var x1 := if i == 0 then -v1[0] else v1[n - i];
      var x2 := if i == 0 then -v2[0] else v2[n - i];
      if i == 0 {
        CongNeg(v1[0], v2[0], q);
      }
      Reduce1Props(x1, q);
      Reduce1Props(x2, q);
      CongTrans(Reduce1(x1, q), x1, x2, q);
      CongSym(Reduce1(x2, q), x2, q);
      CongTrans(Reduce1(x1, q), x2, Reduce1(x2, q), q);
    }
  }

  lemma BitRevPermCong(v1: seq<int>, v2: seq<int>, L: nat, q: int)
    requires q != 0 && |v1| == Pow2(L) && CongVec(v1, v2, q)
    ensures CongVec(BitRevPerm(v1, L), BitRevPerm(v2, L), q)
  {
  }

  lemma TwiddledCong(v1: seq<int>, v2: seq<int>, p: nat, h: nat, q: int, w: seq<int>)
    requires h >= 1 && q != 0 && |v1| % (2 * h) == 0 && |w| >= |v1| && CongVec(v1, v2, q)
    requires p < |v1| && p % (2 * h) < h
    ensures Cong(Twiddled(v1, p, h, q, w), Twiddled(v2, p, h, q, w), q)
  {
    PairInRange(p, h, |v1|);
    var o := p % (2 * h);
    if o != 0 {
      TwiddleIndexInRange(o, h, |v1|);
      var y := w[o * (|v1| / h)];
      MulNCong(v1[p + h], v2[p + h], y, y, q);
    }
  }

  lemma StageCong(v1: seq<int>, v2: seq<int>, h: nat, q: int, w: seq<int>)
    requires h >= 1 && q != 0 && |v1| % (2 * h) == 0 && |w| >= |v1| && CongVec(v1, v2, q)
    ensures CongVec(Stage(v1, h, q, w), Stage(v2, h, q, w), q)
  {
    forall m | 0 <= m < |v1|
      ensures Cong(Stage(v1, h, q, w)[m], Stage(v2, h, q, w)[m], q)
    {
      if m % (2 * h) < h {
        TwiddledCong(v1, v2, m, h, q, w);
        CongAdd(v1[m], v2[m], Twiddled(v1, m, h, q, w), Twiddled(v2, m, h, q, w), q);
      } else {
        UpperPartner(m, h);
        TwiddledCong(v1, v2, m - h, h, q, w);
        CongNeg(Twiddled(v1, m - h, h, q, w), Twiddled(v2, m - h, h, q, w), q);
        CongAdd(v1[m - h], v2[m - h], -Twiddled(v1, m - h, h, q, w), -Twiddled(v2, m - h, h, q, w), q);
      }
    }
  }

  lemma {:induction false} StagesFromCong(v1: seq<int>, v2: seq<int>, L: nat, s: nat, q: int, w: seq<int>)
    requires |v1| == Pow2(L) && s <= L && q != 0 && |w| >= |v1| && CongVec(v1, v2, q)
    ensures CongVec(StagesFrom(v1, L, s, q, w), StagesFrom(v2, L, s, q, w), q)
    decreases L - s
  {
    if s < L {
      Pow2Divides(s + 1, L);
      StageCong(v1, v2, Pow2(s), q, w);
      StagesFromCong(Stage(v1, Pow2(s), q, w), Stage(v2, Pow2(s), q, w), L, s + 1, q, w);
    }
  }

  /** The transform maps entrywise congruent inputs to entrywise congruent
      outputs. */
  lemma FftCong(v1: seq<int>, v2: seq<int>, L: nat, q: int, w: seq<int>)
    requires |v1| == Pow2(L) && q != 0 && |w| >= |v1| && CongVec(v1, v2, q)
    ensures CongVec(FftSpec(v1, L, q, w), FftSpec(v2, L, q, w), q)
  {
    BitRevPermCong(v1, v2, L, q);
    StagesFromCong(BitRevPerm(v1, L), BitRevPerm(v2, L), L, 0, q, w);
  }
}
