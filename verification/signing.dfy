/** The integer steps of `PrivateKey::signature` in src/bliss.rs. Each of
    up to 1024 attempts takes Gaussian vectors t and u, commits to t, folds
    and rounds the commitment into the oracle input, asks the oracle for
    the challenge, adds the greedy combination of the challenge, as
    `greedy_sc` computes it, into the accumulators x and y (which are
    never cleared between attempts), moves
    t and u by -(x, y) or +(x, y) as a coin says, and, if the attempt is
    accepted, replaces z by the centred difference of two roundings.

    The Gaussian samples, the coin and the floating-point acceptance test
    are inputs: one `Draw` per attempt. The SHA3-512 digest is the
    uninterpreted function H. */
module Signing {
  import opened Arith
  import opened Params
  import opened Ntt
  import opened Norms
  import opened Oracle
  import opened Combiner
  import opened Scheme

  /** What one attempt takes from the generator: t and u as sampled and
      truncated to integers, the coin `rng.gen()` (true subtracts), and the
      outcome of `rng.gen::<f64>() > d` negated (true accepts). */
  datatype Draw = Draw(t: seq<int>, u: seq<int>, coin: bool, accept: bool)

  datatype Outcome =
    | Signed(sig: Signature, attempt: nat)
    /** Fewer than 1024 draws were given and none was accepted. */
    | OutOfDraws
    /** The error after 1024 attempts. */
    | GaveUp

  predicate DrawOk(prm: Params, dr: Draw)
  {
    |dr.t| == prm.n && |dr.u| == prm.n
  }

  predicate KeyOk(prm: Params, sk: PrivateKey)
  {
    |sk.f| == prm.n && |sk.g| == prm.n && |sk.a| == prm.n
  }

  /** One entry of the fold: an odd residue v in [0, Q) is made even by
      adding Q, then u is added modulo 2Q. By the Chinese remainder theorem
      the result is the unique value in [0, 2Q) congruent to v + u modulo Q
      and to u modulo 2 (see `FoldUnique`). */
  function FoldEntry(q: int, v: int, u: int): (r: int)
    requires q > 0 && q % 2 == 1 && 0 <= v < q
    ensures 0 <= r < 2 * q
    ensures Cong(r, v + u, q)
    ensures Cong(r, u, 2)
  {
    var e := FoldEven(v, q);
    var r := LeastResidue(e + u, 2 * q);
    CongMod(e + u, 2 * q);
    assert 2 * q == q * 2;
    CongFactor(r, e + u, q, 2);
    CongAdd(e, v, u, u, q);
    CongTrans(r, e + u, v + u, q);
    CongShift(u, e / 2, 2);
    assert e + u == u + (e / 2) * 2;
    CongTrans(r, e + u, u, 2);
    r
  }

  /** The fold is characterised by its two congruences and its range. */
  lemma FoldUnique(q: int, v: int, u: int, r: int)
    requires q > 0 && q % 2 == 1 && 0 <= v < q
    requires 0 <= r < 2 * q && Cong(r, v + u, q) && Cong(r, u, 2)
    ensures r == FoldEntry(q, v, u)
  {
    var f := FoldEntry(q, v, u);
    CongSym(f, v + u, q);
    CongTrans(r, v + u, f, q);
    CongSym(f, u, 2);
    CongTrans(r, u, f, 2);
    CongCombine(r, f, q);
    CongUnique(f, r, 2 * q);
    CongMod(f, 2 * q);
    CongUnique(f, f, 2 * q);
  }

  /** The folded commitment, entry by entry. */
  function Folded(prm: Params, v: seq<int>, u: seq<int>): (r: seq<int>)
    requires Valid(prm) && |v| == prm.n && |u| == prm.n
    requires forall i | 0 <= i < prm.n :: 0 <= v[i] < prm.q
    ensures |r| == prm.n
    ensures forall i | 0 <= i < prm.n :: 0 <= r[i] < 2 * prm.q && Cong(r[i], v[i] + u[i], prm.q) && Cong(r[i], u[i], 2)
  {
    seq(prm.n, i requires 0 <= i < prm.n => FoldEntry(prm.q, v[i], u[i]))
  }

  /** The oracle input: every folded entry rounded by 2^D and reduced
      modulo P. */
  function Rounded(prm: Params, vf: seq<int>): (z: seq<int>)
    requires Valid(prm) && forall i | 0 <= i < |vf| :: vf[i] >= 0
    ensures |z| == |vf|
    ensures forall i | 0 <= i < |vf| :: 0 <= z[i] < prm.p && Cong(z[i], RoundD(vf[i], prm.d), prm.p)
  {
    seq(|vf|, i requires 0 <= i < |vf| => RoundP(vf[i], prm.d, prm.p))
  }

  /** The folded commitment of an attempt. */
  function FoldedCommit(prm: Params, a: seq<int>, dr: Draw): (vf: seq<int>)
    requires Valid(prm) && |a| == prm.n && DrawOk(prm, dr)
    ensures |vf| == prm.n
    ensures forall i | 0 <= i < prm.n :: 0 <= vf[i] < 2 * prm.q
  {
    CommitRange(prm, dr.t, a);
    Folded(prm, Commit(prm, dr.t, a), dr.u)
  }

  /** The challenge of an attempt: the oracle applied to the rounded,
      folded commitment of its t and u. */
  function Challenge(prm: Params, a: seq<int>, H: seq<byte> -> Digest, hash: seq<byte>, dr: Draw): (c: Option<seq<nat>>)
    requires Valid(prm) && |a| == prm.n && DrawOk(prm, dr)
    ensures c.Some? ==> |c.value| == prm.kappa && IndicesInRange(c.value, prm.n)
    ensures c.Some? ==> forall k | 0 <= k < prm.kappa :: c.value[k] < prm.n
    ensures c.Some? ==> forall j, k | 0 <= j < k < prm.kappa :: c.value[j] != c.value[k]
  {
    var z := Rounded(prm, FoldedCommit(prm, a, dr));
    OracleSpecIndices(H, hash, z, prm.n, prm.kappa);
    OracleSpec(H, hash, z, prm.n, prm.kappa)
  }

  /** An attempt is kept when its oracle call succeeded and the acceptance
      test passed. */
  predicate Kept(c: Option<seq<nat>>, dr: Draw)
  {
    c.Some? && dr.accept
  }

  /** The challenges of a list of attempts, one per attempt. */
  function ChallengesOf(prm: Params, a: seq<int>, H: seq<byte> -> Digest, hash: seq<byte>, draws: seq<Draw>): (cs: seq<Option<seq<nat>>>)
    requires Valid(prm) && |a| == prm.n
    requires forall j | 0 <= j < |draws| :: DrawOk(prm, draws[j])
    ensures |cs| == |draws|
    ensures forall j | 0 <= j < |draws| :: cs[j] == Challenge(prm, a, H, hash, draws[j])
    ensures ChallengesOk(cs, prm.n)
  {
    seq(|draws|, j requires 0 <= j < |draws| => Challenge(prm, a, H, hash, draws[j]))
  }

  /** Every challenge of the list names indices the combiner accepts. */
  predicate ChallengesOk(cs: seq<Option<seq<nat>>>, n: nat)
  {
    forall j | 0 <= j < |cs| :: cs[j].Some? ==> IndicesInRange(cs[j].value, n)
  }

  /** The accumulators after one attempt: the combination of its challenge,
      as the source computes it, added onto them, or unchanged when the
      oracle failed. Where no index of the challenge wraps a nonzero
      coefficient of g, this is the intended combination, and the square
      norm grows by at most the challenge size times that of the key. */
  function Carry(f: seq<int>, g: seq<int>, c: Option<seq<nat>>, x: seq<int>, y: seq<int>): (r: (seq<int>, seq<int>))
    requires |f| == |g| == |x| == |y|
    requires c.Some? ==> IndicesInRange(c.value, |f|)
    ensures |r.0| == |x| && |r.1| == |y|
    ensures c.None? ==> r == (x, y)
    ensures c.Some? && (forall k | 0 <= k < |c.value| :: WrapFree(g, c.value[k])) ==>
      && r == Greedy(f, g, c.value, x, y)
      && SquareNorm(r) <= SquareNorm((x, y)) + |c.value| * (VecScalar(f, f) + VecScalar(g, g))
  {
    match c
    case None => (x, y)
    case Some(idx) => GreedyAsWritten(f, g, idx, x, y)
  }

  /** The accumulators after the first k attempts, starting from zero. They
      stay zero until an oracle call succeeds. */
  function CarryAfter(f: seq<int>, g: seq<int>, cs: seq<Option<seq<nat>>>, k: nat): (r: (seq<int>, seq<int>))
    requires |f| == |g| && k <= |cs| && ChallengesOk(cs, |f|)
    ensures |r.0| == |f| && |r.1| == |f|
    ensures (forall j | 0 <= j < k :: cs[j].None?) ==> r == (Zeros(|f|), Zeros(|f|))
  {
    if k == 0 then (Zeros(|f|), Zeros(|f|))
    else
      var p := CarryAfter(f, g, cs, k - 1);
      Carry(f, g, cs[k - 1], p.0, p.1)
  }

  /** The accumulators after k attempts depend only on the challenges of
      those k attempts. */
  lemma {:induction false} CarryPrefix(f: seq<int>, g: seq<int>, cs: seq<Option<seq<nat>>>, cs2: seq<Option<seq<nat>>>, k: nat)
    requires |f| == |g| && k <= |cs| && k <= |cs2| && ChallengesOk(cs, |f|) && ChallengesOk(cs2, |f|)
    requires cs[..k] == cs2[..k]
    ensures CarryAfter(f, g, cs, k) == CarryAfter(f, g, cs2, k)
  {
    if k > 0 {
      assert cs[..k - 1] == cs[..k][..k - 1];
      assert cs2[..k - 1] == cs2[..k][..k - 1];
      CarryPrefix(f, g, cs, cs2, k - 1);
      assert cs[k - 1] == cs[..k][k - 1];
      assert cs2[k - 1] == cs2[..k][k - 1];
    }
  }

  /** `t -= x; u -= y` when the coin is set, `t += x; u += y` otherwise. */
  function CoinSign(coin: bool): int
  {
    if coin then -1 else 1
  }

  /** The last loop of an accepted attempt: each z entry becomes the
      centred difference of its rounding and the rounding of v - u brought
      into [0, 2Q). Each result is congruent modulo P to that difference
      and, when u is at most 2Q (so that v - u >= -2Q), lies in
      [-P/2, P/2]. */
  function Finalised(prm: Params, vf: seq<int>, zc: seq<int>, u: seq<int>): (z: seq<int>)
    requires Valid(prm) && |vf| == prm.n && |zc| == prm.n && |u| == prm.n
    requires forall i | 0 <= i < prm.n :: 0 <= vf[i] < 2 * prm.q && 0 <= zc[i] < prm.p
    ensures |z| == prm.n
    ensures forall i | 0 <= i < prm.n :: Centred(prm, zc[i], vf[i], u[i], z[i])
    ensures forall i | 0 <= i < prm.n && u[i] <= 2 * prm.q :: -(prm.p / 2) <= z[i] <= prm.p / 2
  {
    var z := seq(prm.n, i requires 0 <= i < prm.n => FinalZ(prm, zc[i], vf[i], u[i]));
    assert forall i | 0 <= i < prm.n :: z[i] == FinalZ(prm, zc[i], vf[i], u[i]);
    z
  }

  /** The signature an accepted attempt returns, given the accumulators
      after its combination step. */
  function SignatureOf(prm: Params, sk: PrivateKey, H: seq<byte> -> Digest, hash: seq<byte>, dr: Draw, x: seq<int>, y: seq<int>): (sig: Signature)
    requires Valid(prm) && KeyOk(prm, sk) && DrawOk(prm, dr) && |x| == prm.n && |y| == prm.n
    requires Challenge(prm, sk.a, H, hash, dr).Some?
    ensures |sig.t| == prm.n && |sig.z| == prm.n
    ensures Some(sig.cIdx) == Challenge(prm, sk.a, H, hash, dr)
  {
    var s := CoinSign(dr.coin);
    var vf := FoldedCommit(prm, sk.a, dr);
    Signature(Axpy(dr.t, s, x), Finalised(prm, vf, Rounded(prm, vf), Axpy(dr.u, s, y)),
      Challenge(prm, sk.a, H, hash, dr).value)
  }

  /** The fold loop: the folded commitment and its rounding. */
  method FoldRound(prm: Params, v: seq<int>, u: seq<int>) returns (vf: seq<int>, z: seq<int>)
    requires Valid(prm) && |v| == prm.n && |u| == prm.n
    requires forall i | 0 <= i < prm.n :: 0 <= v[i] < prm.q
    ensures vf == Folded(prm, v, u)
    ensures z == Rounded(prm, vf)
  {
    var n, q := prm.n, prm.q;
    vf, z := v, Zeros(n);
    var i := 0;
    while i < n
      invariant i <= n && |vf| == n && |z| == n
      invariant forall m | 0 <= m < i :: vf[m] == FoldEntry(prm.q, v[m], u[m]) && z[m] == RoundP(vf[m], prm.d, prm.p)
      invariant forall m | i <= m < n :: vf[m] == v[m]
    {
      var tmp := FoldEven(vf[i], q);
      tmp := LeastResidue(tmp + u[i], 2 * q);
      vf := vf[i := tmp];
      z := z[i := RoundP(tmp, prm.d, prm.p)];
      i := i + 1;
    }
  }

  /** The coin loop: both vectors moved by s times the accumulators. */
  method Adjust(t0: seq<int>, u0: seq<int>, x: seq<int>, y: seq<int>, s: int) returns (t: seq<int>, u: seq<int>)
    requires |t0| == |x| && |u0| == |y| && |t0| == |u0|
    ensures t == Axpy(t0, s, x) && u == Axpy(u0, s, y)
  {
    t, u := t0, u0;
    var i := 0;
    while i < |t0|
      invariant i <= |t0| && |t| == |t0| && |u| == |u0|
      invariant forall m | 0 <= m < i :: t[m] == t0[m] + s * x[m] && u[m] == u0[m] + s * y[m]
      invariant forall m | i <= m < |t0| :: t[m] == t0[m] && u[m] == u0[m]
    {
      t := t[i := t[i] + s * x[i]];
      u := u[i := u[i] + s * y[i]];
      i := i + 1;
    }
  }

  /** The final loop of an accepted attempt. */
  method Finalise(prm: Params, vf: seq<int>, zc: seq<int>, u: seq<int>) returns (z: seq<int>)
    requires Valid(prm) && |vf| == prm.n && |zc| == prm.n && |u| == prm.n
    requires forall i | 0 <= i < prm.n :: 0 <= vf[i] < 2 * prm.q && 0 <= zc[i] < prm.p
    ensures z == Finalised(prm, vf, zc, u)
  {
    var n, q := prm.n, prm.q;
    z := zc;
    var i := 0;
    while i < n
      invariant i <= n && |z| == n
      invariant forall m | 0 <= m < i :: z[m] == FinalZ(prm, zc[m], vf[m], u[m])
      invariant forall m | i <= m < n :: z[m] == zc[m]
    {
      var tmp := vf[i] - u[i];
      if tmp < 0 {
        tmp := tmp + 2 * q;
      }
      if tmp >= 2 * q {
        tmp := tmp - 2 * q;
      }
      tmp := RoundP(tmp, prm.d, prm.p);
      tmp := z[i] - tmp;
      tmp := Center(tmp, prm.p);
      z := z[i := tmp];
      i := i + 1;
    }
  }

  /** One attempt of the signing loop, from the accumulators x0, y0. */
  method Attempt(prm: Params, sk: PrivateKey, H: seq<byte> -> Digest, hash: seq<byte>, dr: Draw, x0: seq<int>, y0: seq<int>)
    returns (sig: Option<Signature>, x: seq<int>, y: seq<int>)
    requires Valid(prm) && KeyOk(prm, sk) && DrawOk(prm, dr) && |x0| == prm.n && |y0| == prm.n
    ensures (x, y) == Carry(sk.f, sk.g, Challenge(prm, sk.a, H, hash, dr), x0, y0)
    ensures sig.Some? <==> Kept(Challenge(prm, sk.a, H, hash, dr), dr)
    ensures sig.Some? ==> sig.value == SignatureOf(prm, sk, H, hash, dr, x, y)
  {
    var n := prm.n;
    x, y := x0, y0;
    var v := CommitSteps(prm, dr.t, sk.a);
    var vf, zc := FoldRound(prm, v, dr.u);
    var c := COracle(H, hash, zc, n, prm.kappa);
    if c.None? {
      return None, x, y;
    }
    x, y := GreedyScAsWritten(sk.f, sk.g, c.value, x, y);
    var s := CoinSign(dr.coin);
    var t, u := Adjust(dr.t, dr.u, x, y, s);
    if !dr.accept {
      return None, x, y;
    }
    var z := Finalise(prm, vf, zc, u);
    sig := Some(Signature(t, z, c.value));
  }

  /** None of the first k attempts was kept. */
  predicate RejectedUpTo(cs: seq<Option<seq<nat>>>, draws: seq<Draw>, k: nat)
    requires k <= |cs| && k <= |draws|
  {
    forall j | 0 <= j < k :: !Kept(cs[j], draws[j])
  }

  lemma RejectedStep(cs: seq<Option<seq<nat>>>, draws: seq<Draw>, k: nat)
    requires k < |cs| && k < |draws| && RejectedUpTo(cs, draws, k) && !Kept(cs[k], draws[k])
    ensures RejectedUpTo(cs, draws, k + 1)
  {
  }

  /** `PrivateKey::signature`. A signature comes from the first accepted
      attempt; its challenge is the oracle of that attempt's own folded
      commitment; every earlier attempt was rejected; and the error is
      returned exactly when 1024 attempts were all rejected. */
  method Sign(prm: Params, sk: PrivateKey, H: seq<byte> -> Digest, hash: seq<byte>, draws: seq<Draw>)
    returns (res: Outcome, x: seq<int>, y: seq<int>)
    requires Valid(prm) && KeyOk(prm, sk)
    requires forall j | 0 <= j < |draws| :: DrawOk(prm, draws[j])
    ensures var cs := ChallengesOf(prm, sk.a, H, hash, draws);
      res.Signed? ==>
        && res.attempt < |draws| && res.attempt < 1024
        && Kept(cs[res.attempt], draws[res.attempt])
        && RejectedUpTo(cs, draws, res.attempt)
        && (x, y) == CarryAfter(sk.f, sk.g, cs, res.attempt + 1)
        && res.sig == SignatureOf(prm, sk, H, hash, draws[res.attempt], x, y)
    ensures res.GaveUp? ==> |draws| >= 1024 && RejectedUpTo(ChallengesOf(prm, sk.a, H, hash, draws), draws, 1024)
    ensures res.OutOfDraws? ==> |draws| < 1024 && RejectedUpTo(ChallengesOf(prm, sk.a, H, hash, draws), draws, |draws|)
  {
    ghost var cs := ChallengesOf(prm, sk.a, H, hash, draws);
    x, y := Zeros(prm.n), Zeros(prm.n);
    var k := 0;
    while k < 1024
      invariant k <= 1024 && k <= |draws|
      invariant (x, y) == CarryAfter(sk.f, sk.g, cs, k)
      invariant RejectedUpTo(cs, draws, k)
    {
      if k == |draws| {
        return OutOfDraws, x, y;
      }
      var sig;
      sig, x, y := Attempt(prm, sk, H, hash, draws[k], x, y);
      if sig.Some? {
        return Signed(sig.value, k), x, y;
      }
      assert cs[k] == Challenge(prm, sk.a, H, hash, draws[k]);
      RejectedStep(cs, draws, k);
      k := k + 1;
    }
    res := GaveUp;
  }
}
