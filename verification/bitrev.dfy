/** Bit reversal of array indices, as used by the first phase of `fft` in
    src/ntt.rs. Indices are natural numbers below 2^L; `Bit` reads one bit,
    `Rev` mirrors the low L bits, and `RevInc` is the "reverse increment"
    that the inner loop of `fft` performs on the mirrored counter. */
module BitRev {
  import opened Arith

  /** Bit `b` of `x`, counted from the least significant end. */
  predicate Bit(x: nat, b: nat)
  {
    if b == 0 then x % 2 == 1 else Bit(x / 2, b - 1)
  }

  /** The low `L` bits of `x`, in reverse order. */
  function Rev(L: nat, x: nat): (r: nat)
    ensures r < Pow2(L)
  {
    if L == 0 then 0 else (x % 2) * Pow2(L - 1) + Rev(L - 1, x / 2)
  }

  /** Whether the single-bit mask `k` is set in `j`: Rust's `j & k != 0`. */
  predicate HasBit(j: nat, k: nat)
    requires k >= 1
  {
    (j / k) % 2 == 1
  }

  /** Rust's `j ^ k` for a single-bit mask `k`. */
  function FlipBit(j: nat, k: nat): (r: nat)
    requires k >= 1
    ensures HasBit(j, k) ==> r + k == j
    ensures !HasBit(j, k) ==> r == j + k
  {
    if HasBit(j, k) then (DivAtLeastOne(j, k); j - k) else j + k
  }

  lemma DivAtLeastOne(j: nat, k: nat)
    requires k >= 1 && j / k >= 1
    ensures j >= k
  {
    MulMonotone(k, j / k);
  }

  /** Below 2k, the bit with mask k is set exactly from k on. */
  lemma HasBitBelowDouble(j: nat, k: nat)
    requires k >= 1 && j < 2 * k
    ensures HasBit(j, k) <==> j >= k
  {
    if j >= k {
      assert j == k * 1 + (j - k);
    } else {
      assert j == k * 0 + j;
    }
  }

  /** Add 1 to the reversed counter `j < 2^L`: clear set bits from the top
      down until a clear bit is reached, then set it. */
  function RevInc(L: nat, j: nat): nat
  {
    if L == 0 then j
    else if j < Pow2(L - 1) then j + Pow2(L - 1)
    else RevInc(L - 1, j - Pow2(L - 1))
  }

  /** A number with `c` in bit position m and a smaller remainder below it
      has bit m equal to c and the lower bits of the remainder. */
  lemma {:induction false} BitOfTopAndRest(m: nat, c: nat, r: nat, b: nat)
    requires c <= 1 && r < Pow2(m) && b <= m
    ensures Bit(c * Pow2(m) + r, b) == if b == m then c == 1 else Bit(r, b)
  {
    if m == 0 {
      assert r == 0;
    } else if b == 0 {
      assert (c * Pow2(m) + r) % 2 == r % 2 by {
        assert c * Pow2(m) + r == 2 * (c * Pow2(m - 1)) + r;
      }
    } else {
      assert (c * Pow2(m) + r) / 2 == c * Pow2(m - 1) + r / 2 by {
        assert c * Pow2(m) + r == 2 * (c * Pow2(m - 1)) + r;
      }
      BitOfTopAndRest(m - 1, c, r / 2, b - 1);
    }
  }

  /** Bit b of the reversal is bit L-1-b of the input. */
  lemma {:induction false} RevBit(L: nat, x: nat, b: nat)
    requires b < L
    ensures Bit(Rev(L, x), b) == Bit(x, L - 1 - b)
  {
    BitOfTopAndRest(L - 1, x % 2, Rev(L - 1, x / 2), b);
    if b < L - 1 {
      RevBit(L - 1, x / 2, b);
    }
  }

  /** Two numbers below 2^L with the same low L bits are equal. */
  lemma {:induction false} BitsDetermine(L: nat, x: nat, y: nat)
    requires x < Pow2(L) && y < Pow2(L)
    requires forall b | 0 <= b < L :: Bit(x, b) == Bit(y, b)
    ensures x == y
  {
    if L > 0 {
      assert Bit(x, 0) == Bit(y, 0);
      forall b | 0 <= b < L - 1
        ensures Bit(x / 2, b) == Bit(y / 2, b)
      {
        assert Bit(x, b + 1) == Bit(y, b + 1);
      }
      BitsDetermine(L - 1, x / 2, y / 2);
    }
  }

  /** Reversal is an involution on [0, 2^L), hence a bijection. */
  lemma RevInvolution(L: nat, x: nat)
    requires x < Pow2(L)
    ensures Rev(L, Rev(L, x)) == x
  {
    forall b | 0 <= b < L
      ensures Bit(Rev(L, Rev(L, x)), b) == Bit(x, b)
    {
      RevBit(L, Rev(L, x), b);
      RevBit(L, x, L - 1 - b);
    }
    BitsDetermine(L, Rev(L, Rev(L, x)), x);
  }

  lemma {:induction false} RevAllOnesFixed(L: nat)
    ensures Rev(L, Pow2(L) - 1) == Pow2(L) - 1
  {
    if L > 0 {
      assert (Pow2(L) - 1) % 2 == 1 && (Pow2(L) - 1) / 2 == Pow2(L - 1) - 1;
      RevAllOnesFixed(L - 1);
    }
  }

  /** Only the all-ones index reverses to all ones. */
  lemma RevAllOnes(L: nat, x: nat)
    requires x < Pow2(L)
    ensures Rev(L, x) == Pow2(L) - 1 <==> x == Pow2(L) - 1
  {
    RevAllOnesFixed(L);
    RevInvolution(L, x);
  }

  lemma {:induction false} RevOfZero(L: nat)
    ensures Rev(L, 0) == 0
  {
    if L > 0 {
      RevOfZero(L - 1);
    }
  }

  /** The starting value `n >> 1` of the mirrored counter is Rev(1). */
  lemma RevOfOne(L: nat)
    requires L >= 1
    ensures Rev(L, 1) == Pow2(L) / 2
  {
    RevOfZero(L - 1);
  }

  /** Rev at L >= 1 in terms of the lowest bit and Rev of the rest. */
  lemma RevSplit(L: nat, x: nat)
    requires L >= 1
    ensures x % 2 == 0 ==> Rev(L, x) == Rev(L - 1, x / 2)
    ensures x % 2 == 1 ==> Rev(L, x) == Pow2(L - 1) + Rev(L - 1, x / 2)
  {
  }

  /** The reverse increment of Rev(x) is Rev(x + 1). */
  lemma {:induction false} RevIncCorrect(L: nat, x: nat)
    requires x + 1 < Pow2(L)
    ensures RevInc(L, Rev(L, x)) == Rev(L, x + 1)
  {
    assert L >= 1;
    var h := Pow2(L - 1);
    assert Pow2(L) == 2 * h;
    var j := Rev(L - 1, x / 2);
    assert j < h;
    RevSplit(L, x);
    RevSplit(L, x + 1);
    if x % 2 == 0 {
      assert (x + 1) / 2 == x / 2;
    } else {
      assert (x + 1) / 2 == x / 2 + 1 < h;
      RevIncCorrect(L - 1, x / 2);
    }
  }

  /** The bit-reversal permutation of a vector of length 2^L. */
  function BitRevPerm(v: seq<int>, L: nat): (r: seq<int>)
    requires |v| == Pow2(L)
    ensures |r| == |v|
  {
    seq(|v|, m requires 0 <= m < |v| => v[Rev(L, m)])
  }

  /** Applying the permutation twice gives back the input. */
  lemma BitRevPermInvolution(v: seq<int>, L: nat)
    requires |v| == Pow2(L)
    ensures BitRevPerm(BitRevPerm(v, L), L) == v
  {
    forall m | 0 <= m < |v|
      ensures BitRevPerm(BitRevPerm(v, L), L)[m] == v[m]
    {
      RevInvolution(L, m);
    }
  }
}
