/** `PublicKey::verify` of src/bliss.rs: the two norm tests, the
    commitment of t, the parity fold, the flip of the challenged entries,
    the recombination with z, the oracle, and the comparison of the two
    index lists through an XOR/OR accumulator. A panic (an index of the
    signature that is not below N) is the verdict `IndexOutOfRange`. */
module Verifying {
  import opened Arith
  import opened Params
  import opened Ntt
  import opened Norms
  import opened Oracle
  import opened Scheme

  datatype Verdict = Accept | Reject | IndexOutOfRange

  predicate SigOk(prm: Params, sig: Signature)
  {
    |sig.t| == prm.n && |sig.z| == prm.n && |sig.cIdx| == prm.kappa
  }

  /** The infinity-norm test. The shift by D is an i32 shift; it cannot
      wrap for the z values a signature can encode. */
  predicate InfRejects(prm: Params, sig: Signature)
  {
    VecAbsMax(sig.t) > prm.bInf || WrapI32(VecAbsMax(sig.z) * Pow2(prm.d)) > prm.bInf
  }

  /** The L2 test as the source computes it: the shift by 2D and the sum
      are i32 operations and wrap. */
  predicate L2RejectsAsWritten(prm: Params, sig: Signature)
  {
    WrapI32(VecScalar(sig.t, sig.t) + WrapI32(VecScalar(sig.z, sig.z) * Pow2(2 * prm.d))) > prm.bL2
  }

  /** The L2 test on exact integers: |t|^2 + 2^(2D) |z|^2 > B_L2. */
  predicate L2Rejects(prm: Params, sig: Signature)
  {
    VecScalar(sig.t, sig.t) + VecScalar(sig.z, sig.z) * Pow2(2 * prm.d) > prm.bL2
  }

  /** A signature that passes the exact L2 test has both parts of its norm
      within the bound. */
  lemma L2Sound(prm: Params, sig: Signature)
    requires !L2Rejects(prm, sig)
    ensures VecScalar(sig.t, sig.t) <= prm.bL2
    ensures VecScalar(sig.z, sig.z) * Pow2(2 * prm.d) <= prm.bL2
  {
    VecScalarSymmetric(sig.t, sig.t);
    VecScalarSymmetric(sig.z, sig.z);
  }

  /** When the shifted maximum of z fits in i32, the infinity test as
      written is the exact test. */
  lemma InfRejectsExact(prm: Params, sig: Signature)
    requires VecAbsMax(sig.z) * Pow2(prm.d) <= I32Max
    ensures InfRejects(prm, sig) <==>
      VecAbsMax(sig.t) > prm.bInf || VecAbsMax(sig.z) * Pow2(prm.d) > prm.bInf
  {
  }

  /** When the exact L2 sum fits in i32, neither the shift nor the sum
      wraps, and the test as written is the exact test. */
  lemma L2AsWrittenExact(prm: Params, sig: Signature)
    requires VecScalar(sig.t, sig.t) + VecScalar(sig.z, sig.z) * Pow2(2 * prm.d) <= I32Max
    ensures L2RejectsAsWritten(prm, sig) <==> L2Rejects(prm, sig)
  {
    VecScalarSymmetric(sig.t, sig.t);
    VecScalarSymmetric(sig.z, sig.z);
  }

  /** With preset I, t = 0 and every z entry 2 pass the infinity test
      (2 << 10 = 2048 <= 2100); |z|^2 = 2048 and 2048 << 20 = 2^31, which
      the i32 shift turns into i32::MIN, so the test as written lets the
      signature through although its exact norm 2^31 exceeds
      B_L2 = 12872^2. */
  lemma L2WrapAccepts()
    ensures var sig := Signature(Zeros(512), seq(512, _ => 2), []);
      && !InfRejects(Get(I), sig)
      && !L2RejectsAsWritten(Get(I), sig)
      && L2Rejects(Get(I), sig)
  {
    var z: seq<int> := seq(512, _ => 2);
    ConstantNorms(Zeros(512), 0);
    ConstantNorms(z, 2);
    WrapAtTwoToThe31(Get(I));
  }

  /** The z-part of the L2 sum for 512 entries of 2 at D = 10 is 2^31. */
  lemma WrapAtTwoToThe31(prm: Params)
    requires prm.d == 10
    ensures 512 * (2 * 2) * Pow2(2 * prm.d) == 0x8000_0000
    ensures WrapI32(0x8000_0000) == I32Min
    ensures WrapI32(0 + I32Min) == I32Min
  {
    Pow2Add(10, 10);
    assert Pow2(10) == 1024;
  }

  /** The parity loop: odd entries of the commitment get Q added. */
  function Parity(prm: Params, v: seq<int>): (r: seq<int>)
    requires Valid(prm) && |v| == prm.n
    requires forall i | 0 <= i < prm.n :: 0 <= v[i] < prm.q
    ensures |r| == prm.n
    ensures forall i | 0 <= i < prm.n :: r[i] % 2 == 0 && Cong(r[i], v[i], prm.q) && 0 <= r[i] < 2 * prm.q
  {
    seq(prm.n, i requires 0 <= i < prm.n => FoldEven(v[i], prm.q))
  }

  /** `v[c] = (v[c] + Q) % (2Q)`. */
  function Flip(q: int, v: seq<int>, c: nat): (r: seq<int>)
    requires q > 0 && c < |v|
    ensures |r| == |v|
  {
    v[c := RemT(v[c] + q, 2 * q)]
  }

  predicate InRange(v: seq<int>, q: int)
  {
    forall i | 0 <= i < |v| :: 0 <= v[i] < 2 * q
  }

  /** One flip keeps every entry in [0, 2Q) and moves the flipped entry to
      its value plus Q modulo 2Q. */
  lemma FlipProps(q: int, v: seq<int>, c: nat)
    requires q > 0 && c < |v| && InRange(v, q)
    ensures InRange(Flip(q, v, c), q)
    ensures Flip(q, v, c)[c] == (v[c] + q) % (2 * q)
  {
  }

  /** The flips of the challenge indices, in order. */
  function FlipAll(q: int, v: seq<int>, c: seq<nat>): (r: seq<int>)
    requires q > 0
    requires forall k | 0 <= k < |c| :: c[k] < |v|
    ensures |r| == |v|
  {
    if |c| == 0 then v else Flip(q, FlipAll(q, v, c[..|c| - 1]), c[|c| - 1])
  }

  /** With pairwise distinct indices, every challenged entry gets Q added
      modulo 2Q once and every other entry is unchanged. */
  lemma {:induction false} FlipDistinct(q: int, v: seq<int>, c: seq<nat>)
    requires q > 0 && InRange(v, q)
    requires forall k | 0 <= k < |c| :: c[k] < |v|
    requires forall j, k | 0 <= j < k < |c| :: c[j] != c[k]
    ensures InRange(FlipAll(q, v, c), q)
    ensures forall i | 0 <= i < |v| :: FlipAll(q, v, c)[i] == if i in c then (v[i] + q) % (2 * q) else v[i]
  {
    if |c| > 0 {
      var pre := c[..|c| - 1];
      var last := c[|c| - 1];
      FlipDistinct(q, v, pre);
      var p := FlipAll(q, v, pre);
      FlipProps(q, p, last);
      assert last !in pre;
      forall i | 0 <= i < |v|
        ensures FlipAll(q, v, c)[i] == if i in c then (v[i] + q) % (2 * q) else v[i]
      {
        assert (i in c) == (i in pre || i == last);
      }
    }
  }

  /** The recombination loop: every entry in [0, P). */
  function Recombined(prm: Params, v: seq<int>, z: seq<int>): (r: seq<int>)
    requires Valid(prm) && |v| == prm.n && |z| == prm.n
    ensures |r| == prm.n
    ensures forall i | 0 <= i < prm.n :: 0 <= r[i] < prm.p && Cong(r[i], RoundD(v[i], prm.d) + z[i], prm.p)
  {
    seq(prm.n, i requires 0 <= i < prm.n => Recombine(prm, v[i], z[i]))
  }

  /** Bitwise exclusive or of two unsigned integers, bit by bit from the
      lowest. */
  function Xor(a: nat, b: nat): nat
    decreases a + b
  {
    if a == 0 then b
    else if b == 0 then a
    else 2 * Xor(a / 2, b / 2) + (if a % 2 != b % 2 then 1 else 0)
  }

  /** Bitwise or of two unsigned integers. */
  function Or(a: nat, b: nat): nat
    decreases a + b
  {
    if a == 0 then b
    else if b == 0 then a
    else 2 * Or(a / 2, b / 2) + (if a % 2 == 1 || b % 2 == 1 then 1 else 0)
  }

  lemma {:induction false} XorZero(a: nat, b: nat)
    ensures Xor(a, b) == 0 <==> a == b
    decreases a + b
  {
    if a != 0 && b != 0 {
      XorZero(a / 2, b / 2);
    }
  }

  lemma {:induction false} OrZero(a: nat, b: nat)
    ensures Or(a, b) == 0 <==> a == 0 && b == 0
    decreases a + b
  {
    if a != 0 && b != 0 {
      OrZero(a / 2, b / 2);
    }
  }

  /** `d |= my_idx[i] ^ c_idx[i]` over both lists, from d = 0. */
  function XorOr(a: seq<nat>, b: seq<nat>): nat
    requires |a| == |b|
  {
    if |a| == 0 then 0
    else Or(XorOr(a[..|a| - 1], b[..|b| - 1]), Xor(a[|a| - 1], b[|b| - 1]))
  }

  /** The accumulator is zero exactly when the lists agree entry by entry. */
  lemma {:induction false} XorOrZero(a: seq<nat>, b: seq<nat>)
    requires |a| == |b|
    ensures XorOr(a, b) == 0 <==> a == b
  {
    if |a| > 0 {
      var n := |a| - 1;
      XorOrZero(a[..n], b[..n]);
      OrZero(XorOr(a[..n], b[..n]), Xor(a[n], b[n]));
      XorZero(a[n], b[n]);
      assert a == a[..n] + [a[n]] && b == b[..n] + [b[n]];
    }
  }

  /** The value whose oracle must reproduce the challenge: the commitment
      of t, folded to even, flipped at the challenge, recombined with z. */
  function Reconstructed(prm: Params, pk: PublicKey, sig: Signature): (w: seq<int>)
    requires Valid(prm) && |pk.a| == prm.n && SigOk(prm, sig)
    requires forall k | 0 <= k < prm.kappa :: sig.cIdx[k] < prm.n
    ensures |w| == prm.n && forall i | 0 <= i < prm.n :: 0 <= w[i] < prm.p
  {
    CommitRange(prm, sig.t, pk.a);
    var v := Parity(prm, Commit(prm, sig.t, pk.a));
    Recombined(prm, FlipAll(prm.q, v, sig.cIdx), sig.z)
  }

  /** What `verify` decides. */
  function VerifySpec(prm: Params, pk: PublicKey, sig: Signature, H: seq<byte> -> Digest, hash: seq<byte>): Verdict
    requires Valid(prm) && |pk.a| == prm.n && SigOk(prm, sig)
  {
    if InfRejects(prm, sig) || L2Rejects(prm, sig) then Reject
    else if exists k | 0 <= k < prm.kappa :: sig.cIdx[k] >= prm.n then IndexOutOfRange
    else
      match OracleSpec(H, hash, Reconstructed(prm, pk, sig), prm.n, prm.kappa)
      case None => Reject
      case Some(idx) =>
        OracleSpecIndices(H, hash, Reconstructed(prm, pk, sig), prm.n, prm.kappa);
        if XorOr(idx, sig.cIdx) == 0 then Accept else Reject
  }

  /** A signature is accepted exactly when it passes both norm tests, all
      its indices are below N, and the oracle of the reconstructed value
      returns its own index list. */
  lemma AcceptIff(prm: Params, pk: PublicKey, sig: Signature, H: seq<byte> -> Digest, hash: seq<byte>)
    requires Valid(prm) && |pk.a| == prm.n && SigOk(prm, sig)
    ensures VerifySpec(prm, pk, sig, H, hash) == Accept <==>
      && !InfRejects(prm, sig) && !L2Rejects(prm, sig)
      && (forall k | 0 <= k < prm.kappa :: sig.cIdx[k] < prm.n)
      && OracleSpec(H, hash, Reconstructed(prm, pk, sig), prm.n, prm.kappa) == Some(sig.cIdx)
  {
    if !InfRejects(prm, sig) && !L2Rejects(prm, sig) && forall k | 0 <= k < prm.kappa :: sig.cIdx[k] < prm.n {
      var o := OracleSpec(H, hash, Reconstructed(prm, pk, sig), prm.n, prm.kappa);
      OracleSpecIndices(H, hash, Reconstructed(prm, pk, sig), prm.n, prm.kappa);
      if o.Some? {
        XorOrZero(o.value, sig.cIdx);
      }
    }
  }

  /** Preset O has 9-bit index fields but N = 256: a signature with the
      index 256 passes both norm tests and makes `verify` index past the
      end of v. In the other presets every encodable index is below N. */
  lemma PresetOIndexPanics(pk: PublicKey, H: seq<byte> -> Digest, hash: seq<byte>)
    requires |pk.a| == 256
    ensures Valid(Get(O)) && Pow2(Get(O).cidxBits) > Get(O).n
    ensures var sig := Signature(Zeros(256), Zeros(256), [256] + seq(11, _ => 0));
      && SigOk(Get(O), sig)
      && VerifySpec(Get(O), pk, sig, H, hash) == IndexOutOfRange
    ensures forall pr | pr != O :: Pow2(Get(pr).cidxBits) == Get(pr).n
  {
    AllPresetsValid(O);
    var prm := Get(O);
    var sig := Signature(Zeros(256), Zeros(256), [256] + seq(11, _ => 0));
    ConstantNorms(Zeros(256), 0);
    IndexPanics(prm, pk, sig, H, hash, 0);
    IndexWidths();
  }

  /** A signature that passes both norm tests and holds an index not
      below N is a panic, whatever the key and the hash. */
  lemma IndexPanics(prm: Params, pk: PublicKey, sig: Signature, H: seq<byte> -> Digest, hash: seq<byte>, k: nat)
    requires Valid(prm) && |pk.a| == prm.n && SigOk(prm, sig)
    requires !InfRejects(prm, sig) && !L2Rejects(prm, sig)
    requires k < prm.kappa && sig.cIdx[k] >= prm.n
    ensures VerifySpec(prm, pk, sig, H, hash) == IndexOutOfRange
  {
  }

  /** The index field width against N, preset by preset. */
  lemma IndexWidths()
    ensures Pow2(Get(O).cidxBits) == 2 * Get(O).n
    ensures forall pr | pr != O :: Pow2(Get(pr).cidxBits) == Get(pr).n
  {
    assert Pow2(9) == 512;
  }

  /** The flip loop. An index not below N is a panic. */
  method FlipLoop(q: int, v0: seq<int>, c: seq<nat>) returns (res: Option<seq<int>>)
    requires q > 0
    ensures res.None? <==> exists k | 0 <= k < |c| :: c[k] >= |v0|
    ensures res.Some? ==> res.value == FlipAll(q, v0, c)
  {
    var v := v0;
    var k := 0;
    while k < |c|
      invariant k <= |c| && |v| == |v0|
      invariant forall m | 0 <= m < k :: c[m] < |v0|
      invariant v == FlipAll(q, v0, c[..k])
    {
      if c[k] >= |v| {
        return None;
      }
      assert c[..k + 1][..k] == c[..k];
      v := v[c[k] := RemT(v[c[k]] + q, 2 * q)];
      k := k + 1;
    }
    assert c[..k] == c;
    res := Some(v);
  }

  /** The comparison loop. */
  method Compare(a: seq<nat>, b: seq<nat>) returns (d: nat)
    requires |a| == |b|
    ensures d == XorOr(a, b)
  {
    d := 0;
    var i := 0;
    while i < |a|
      invariant i <= |a|
      invariant d == XorOr(a[..i], b[..i])
    {
      assert a[..i + 1][..i] == a[..i] && b[..i + 1][..i] == b[..i];
      d := Or(d, Xor(a[i], b[i]));
      i := i + 1;
    }
    assert a[..i] == a && b[..i] == b;
  }

  /** `verify`. It rejects every signature that fails a norm test, whatever
      its challenge, and otherwise decides as `VerifySpec`. */
  method Verify(prm: Params, pk: PublicKey, sig: Signature, H: seq<byte> -> Digest, hash: seq<byte>)
    returns (verdict: Verdict)
    requires Valid(prm) && |pk.a| == prm.n && SigOk(prm, sig)
    ensures verdict == VerifySpec(prm, pk, sig, H, hash)
    ensures InfRejects(prm, sig) || L2Rejects(prm, sig) ==> verdict == Reject
  {
    var n, q := prm.n, prm.q;
    if VecAbsMax(sig.t) > prm.bInf || WrapI32(VecAbsMax(sig.z) * Pow2(prm.d)) > prm.bInf {
      return Reject;
    }
    if VecScalar(sig.t, sig.t) + VecScalar(sig.z, sig.z) * Pow2(2 * prm.d) > prm.bL2 {
      return Reject;
    }
    var v := CommitSteps(prm, sig.t, pk.a);
    v := Parity(prm, v);
    var flipped := FlipLoop(q, v, sig.cIdx);
    if flipped.None? {
      return IndexOutOfRange;
    }
    var w := Recombined(prm, flipped.value, sig.z);
    assert w == Reconstructed(prm, pk, sig);
    var myIdx := COracle(H, hash, w, n, prm.kappa);
    if myIdx.None? {
      return Reject;
    }
    var d := Compare(myIdx.value, sig.cIdx);
    verdict := if d == 0 then Accept else Reject;
  }
}
