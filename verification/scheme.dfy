/** The objects of src/bliss.rs and the integer steps shared by key
    generation, signing and verification: the product of a vector with the
    public key through the twisted transform, the fold of a residue to an
    even representative, the rounding `(x + 2^(D-1)) >> D`, and the
    symmetric reduction modulo P. Arrays of length N are sequences; the
    preset is a `Params` value. */
module Scheme {
  import opened Arith
  import opened Params
  import opened Ntt

  datatype PrivateKey = PrivateKey(f: seq<int>, g: seq<int>, a: seq<int>)

  datatype PublicKey = PublicKey(a: seq<int>)

  datatype Signature = Signature(t: seq<int>, z: seq<int>, cIdx: seq<nat>)

  function Zeros(n: nat): (r: seq<int>)
    ensures |r| == n && forall i | 0 <= i < n :: r[i] == 0
  {
    seq(n, _ => 0)
  }

  /** The product of t with a in the ring, as both signing and verification
      compute it: multiply by W, transform, multiply by a, transform,
      multiply by R, then `flp`. */
  function Commit(prm: Params, t: seq<int>, a: seq<int>): (v: seq<int>)
    requires Valid(prm) && |t| == prm.n && |a| == prm.n
    ensures |v| == prm.n
  {
    var n, q, L := prm.n, prm.q, Log2(prm.n);
    var v1 := FftSpec(Xmu(Zeros(n), n, q, t, prm.w), L, q, prm.w);
    var v2 := FftSpec(Xmu(Zeros(n), n, q, v1, a), L, q, prm.w);
    FlpSpec(Xmu(Zeros(n), n, q, v2, prm.r), n, q)
  }

  /** Every entry of the commitment is a reduced residue in [0, Q): the
      entries `flp` receives are remainders of products, so one step of Q
      suffices. */
  lemma CommitRange(prm: Params, t: seq<int>, a: seq<int>)
    requires Valid(prm) && |t| == prm.n && |a| == prm.n
    ensures forall i | 0 <= i < prm.n :: 0 <= Commit(prm, t, a)[i] < prm.q
  {
    var n, q, L := prm.n, prm.q, Log2(prm.n);
    var v1 := FftSpec(Xmu(Zeros(n), n, q, t, prm.w), L, q, prm.w);
    var v2 := FftSpec(Xmu(Zeros(n), n, q, v1, a), L, q, prm.w);
    var x := Xmu(Zeros(n), n, q, v2, prm.r);
    forall i | 0 <= i < n
      ensures 0 <= Commit(prm, t, a)[i] < q
    {
      var e := if i == 0 then -x[0] else x[n - i];
      Reduce1Props(e, q);
    }
  }

  /** The six kernel calls behind `Commit`. Every entry of the result is a
      reduced residue in [0, Q). */
  method CommitSteps(prm: Params, t: seq<int>, a: seq<int>) returns (v: seq<int>)
    requires Valid(prm) && |t| == prm.n && |a| == prm.n
    ensures v == Commit(prm, t, a)
    ensures forall i | 0 <= i < prm.n :: 0 <= v[i] < prm.q
  {
    var n, q := prm.n, prm.q;
    v := Xmu(Zeros(n), n, q, t, prm.w);
    v := Fft(v, n, q, prm.w);
    var vv := Xmu(Zeros(n), n, q, v, a);
    vv := Fft(vv, n, q, prm.w);
    v := Xmu(Zeros(n), n, q, vv, prm.r);
    assert forall i | 0 <= i < n :: -q < v[i] < q;
    v := Flp(v, n, q);
  }

  /** An odd residue in [0, Q) is moved to the even representative v + Q;
      Q is odd, so the result is even, congruent to v modulo Q, and below
      2Q. */
  function FoldEven(v: int, q: int): (r: int)
    requires q > 0 && q % 2 == 1 && 0 <= v < q
    ensures r % 2 == 0 && Cong(r, v, q) && 0 <= r < 2 * q
  {
    if v % 2 == 1 then (CongShift(v, 1, q); v + q) else (CongShift(v, 0, q); v)
  }

  /** `(x + 2^(D-1)) >> D`: x divided by 2^D, rounded to the nearest
      integer, halves upward. */
  function RoundD(x: int, d: nat): (z: int)
    requires d >= 1
    ensures z * Pow2(d) - Pow2(d - 1) <= x < z * Pow2(d) + Pow2(d - 1)
    ensures x >= 0 ==> z >= 0
  {
    var k := Pow2(d);
    assert k == 2 * Pow2(d - 1);
    Shr(x + Pow2(d - 1), d)
  }

  /** The rounded value reduced with `% P`. For nonnegative x it lies in
      [0, P). */
  function RoundP(x: int, d: nat, p: int): (z: int)
    requires d >= 1 && p > 0
    ensures Cong(z, RoundD(x, d), p)
    ensures x >= 0 ==> 0 <= z < p
  {
    var r := RemT(RoundD(x, d), p);
    CongSym(RoundD(x, d), r, p);
    r
  }

  /** The symmetric reduction of the last signing step: one addition or
      subtraction of P brings a difference in (-P, P) into [-P/2, P/2]. */
  function Center(x: int, p: int): (r: int)
    requires p > 0 && p % 2 == 0
    ensures Cong(r, x, p)
    ensures -p < x < p ==> -(p / 2) <= r <= p / 2
  {
    if x < -(p / 2) then (CongShift(x, 1, p); x + p)
    else if x > p / 2 then (CongShift(x, -1, p); x - p)
    else (CongShift(x, 0, p); x)
  }

  /** What the last signing step promises of a coefficient z computed
      from the folded commitment zc, the commitment entry v and the entry
      u of the combined vector: z is congruent modulo P to zc minus the
      rounding of v - u brought into [0, 2Q), and lies in [-P/2, P/2]
      whenever zc lies in [0, P) and v - u >= -2Q. */
  predicate Centred(prm: Params, zc: int, v: int, u: int, z: int)
    requires Valid(prm)
  {
    && Cong(z, zc - RoundP(Reduce1(v - u, 2 * prm.q), prm.d, prm.p), prm.p)
    && (0 <= zc < prm.p && v - u >= -2 * prm.q ==> -(prm.p / 2) <= z <= prm.p / 2)
  }

  /** The final value of one signature coefficient: the rounding of the
      folded commitment minus the rounding of v - u brought into [0, 2Q),
      centred modulo P. */
  function FinalZ(prm: Params, zc: int, v: int, u: int): (z: int)
    requires Valid(prm)
    ensures Centred(prm, zc, v, u, z)
  {
    Center(zc - RoundP(Reduce1(v - u, 2 * prm.q), prm.d, prm.p), prm.p)
  }

  /** `x % q`, then q added to a negative remainder: the least residue. */
  function LeastResidue(x: int, q: int): (r: int)
    requires q > 0
    ensures r == x % q
  {
    var m := RemT(x, q);
    CongSym(x, m, q);
    if m < 0 then
      CongShift(m, 1, q);
      CongTrans(m + 1 * q, m, x, q);
      CongUnique(x, m + q, q);
      m + q
    else
      CongUnique(x, m, q);
      m
  }

  /** Recombination in verification: the rounded entry plus z, reduced
      into [0, P). */
  function Recombine(prm: Params, v: int, z: int): (r: int)
    requires Valid(prm)
    ensures 0 <= r < prm.p
    ensures Cong(r, RoundD(v, prm.d) + z, prm.p)
  {
    var tmp := RemT(RoundD(v, prm.d) + z, prm.p);
    CongSym(RoundD(v, prm.d) + z, tmp, prm.p);
    if tmp < 0 then
      CongShift(tmp, 1, prm.p);
      CongTrans(tmp + 1 * prm.p, tmp, RoundD(v, prm.d) + z, prm.p);
      tmp + prm.p
    else tmp
  }

  /** `public()`: the public key is a copy of the key's last vector. */
  function Public(sk: PrivateKey): PublicKey
  {
    PublicKey(sk.a)
  }
}
