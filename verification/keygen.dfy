/** The integer steps of `PrivateKey::new` in src/bliss.rs. g is drawn
    once, doubled, and has 1 subtracted from its constant coefficient. f is
    drawn into the same buffer on every attempt without being cleared, and
    an attempt is rejected when some transformed coefficient of f is 0
    modulo Q. The random generator is an explicit stream of u64 draws. */
module Keygen {
  import opened Arith
  import opened Params
  import opened Ntt
  import opened Sampler
  import opened Scheme

  datatype Outcome =
    | KeyPair(sk: PrivateKey)
    /** The draws ran out; the source would keep drawing, and spins forever
        once f has fewer zero slots than it needs. */
    | OutOfDraws
    /** The error after 1024 rejected attempts. */
    | GaveUp

  /** g = 2s - 1 at the constant coefficient, 2s elsewhere. */
  function ShapeG(s: seq<int>): (g: seq<int>)
    requires |s| >= 1
    ensures |g| == |s|
    ensures g[0] % 2 == 1
    ensures forall i | 1 <= i < |g| :: g[i] % 2 == 0
  {
    seq(|s|, i requires 0 <= i < |s| => 2 * s[i] - (if i == 0 then 1 else 0))
  }

  /** The sparse vector g was made from. */
  function UnshapeG(g: seq<int>): (s: seq<int>)
    ensures |s| == |g|
  {
    seq(|g|, i requires 0 <= i < |g| => (g[i] + (if i == 0 then 1 else 0)) / 2)
  }

  /** The shaping is undone by `UnshapeG`, and every vector of that
      parity pattern is a shaping. */
  lemma ShapeRoundTrip(s: seq<int>, g: seq<int>)
    requires |s| >= 1 && |g| >= 1
    ensures UnshapeG(ShapeG(s)) == s
    ensures (g[0] % 2 == 1 && forall i | 1 <= i < |g| :: g[i] % 2 == 0) ==> ShapeG(UnshapeG(g)) == g
  {
    assert forall i | 0 <= i < |s| :: UnshapeG(ShapeG(s))[i] == s[i];
  }

  /** The twisted transform `xmu(.., v, W); fft(..)` of a key vector, as
      applied to g and to every candidate f. */
  function Transform(prm: Params, f: seq<int>): (u: seq<int>)
    requires Valid(prm) && |f| == prm.n
    ensures |u| == prm.n
  {
    FftSpec(Xmu(Zeros(prm.n), prm.n, prm.q, f, prm.w), Log2(prm.n), prm.q, prm.w)
  }

  /** Every transformed coefficient is nonzero modulo Q. */
  predicate Invertible(prm: Params, u: seq<int>)
    requires Valid(prm) && |u| == prm.n
  {
    forall i | 0 <= i < prm.n :: RemT(u[i], prm.q) != 0
  }

  /** The invertibility test and inversion loop: each coefficient reduced
      with `% Q`; a zero rejects the attempt, otherwise it is replaced by its
      (Q-2)-th power. */
  method Invert(prm: Params, u: seq<int>) returns (ok: bool, inv: seq<int>)
    requires Valid(prm) && |u| == prm.n
    ensures ok == Invertible(prm, u)
    ensures ok ==> |inv| == prm.n
    ensures ok ==> forall i | 0 <= i < prm.n :: Cong(inv[i], Pow(RemT(u[i], prm.q), prm.q - 2), prm.q)
  {
    var n, q := prm.n, prm.q;
    inv := u;
    var i := 0;
    while i < n
      invariant i <= n && |inv| == n
      invariant forall m | 0 <= m < i :: RemT(u[m], q) != 0
      invariant forall m | 0 <= m < i :: Cong(inv[m], Pow(RemT(u[m], q), q - 2), q)
    {
      var x := RemT(u[i], q);
      if x == 0 {
        return false, inv;
      }
      var y := Pwr(x, q - 2, q);
      inv := inv[i := y];
      i := i + 1;
    }
    ok := true;
  }

  /** The public vector from the transform t of g and the inverted
      transform of f: back through the transform, untwisted with R,
      negated with `cmu(.., -1)`, flipped, twisted with W, transformed, and
      reduced into [0, Q). */
  function PublicSpec(prm: Params, t: seq<int>, inv: seq<int>): (a: seq<int>)
    requires Valid(prm) && |t| == prm.n && |inv| == prm.n
    ensures |a| == prm.n
  {
    var n, q, L, z := prm.n, prm.q, Log2(prm.n), Zeros(prm.n);
    var a1 := FftSpec(Xmu(z, n, q, t, inv), L, q, prm.w);
    var a2 := Cmu(z, n, q, Xmu(z, n, q, a1, prm.r), -1);
    FftSpec(Xmu(z, n, q, FlpSpec(a2, n, q), prm.w), L, q, prm.w)
  }

  method PublicSteps(prm: Params, t: seq<int>, inv: seq<int>) returns (a: seq<int>)
    requires Valid(prm) && |t| == prm.n && |inv| == prm.n
    ensures |a| == prm.n
    ensures forall i | 0 <= i < prm.n :: a[i] == PublicSpec(prm, t, inv)[i] % prm.q
    ensures forall i | 0 <= i < prm.n :: 0 <= a[i] < prm.q
  {
    var n, q := prm.n, prm.q;
    var a1 := Xmu(Zeros(n), n, q, t, inv);
    a1 := Fft(a1, n, q, prm.w);
    var pa := Xmu(Zeros(n), n, q, a1, prm.r);
    var a2 := Cmu(Zeros(n), n, q, pa, -1);
    a2 := Flp(a2, n, q);
    pa := Xmu(Zeros(n), n, q, a2, prm.w);
    pa := Fft(pa, n, q, prm.w);
    a := pa;
    var i := 0;
    while i < n
      invariant i <= n && |a| == n
      invariant forall m | 0 <= m < i :: a[m] == pa[m] % q
      invariant forall m | i <= m < n :: a[m] == pa[m]
    {
      a := a[i := LeastResidue(a[i], q)];
      i := i + 1;
    }
  }

  /** The exact inverses: the (Q-2)-th power of every transformed
      coefficient reduced with `% Q`. */
  function Inverses(prm: Params, u: seq<int>): (inv: seq<int>)
    requires Valid(prm) && |u| == prm.n
    ensures |inv| == prm.n
  {
    seq(prm.n, i requires 0 <= i < prm.n => Pow(RemT(u[i], prm.q), prm.q - 2))
  }

  /** The public vector of the key with transform t of g and secret f,
      computed from the exact inverses of the transform of f. */
  function PublicOf(prm: Params, t: seq<int>, f: seq<int>): (a: seq<int>)
    requires Valid(prm) && |t| == prm.n && |f| == prm.n
    ensures |a| == prm.n
  {
    var p := PublicSpec(prm, t, Inverses(prm, Transform(prm, f)));
    seq(prm.n, i requires 0 <= i < prm.n => p[i] % prm.q)
  }

  /** Reduced modulo Q, the public vector depends only on the inverses
      modulo Q. */
  lemma PublicCong(prm: Params, t: seq<int>, inv1: seq<int>, inv2: seq<int>)
    requires Valid(prm) && |t| == prm.n && |inv1| == prm.n && CongVec(inv1, inv2, prm.q)
    ensures forall i | 0 <= i < prm.n :: PublicSpec(prm, t, inv1)[i] % prm.q == PublicSpec(prm, t, inv2)[i] % prm.q
  {
    var n, q, L, z, w := prm.n, prm.q, Log2(prm.n), Zeros(prm.n), prm.w;
    CongVecRefl(t, q);
    XmuCong(z, n, q, t, t, inv1, inv2);
    var b1, b2 := Xmu(z, n, q, t, inv1), Xmu(z, n, q, t, inv2);
    FftCong(b1, b2, L, q, w);
    var a1, a2 := FftSpec(b1, L, q, w), FftSpec(b2, L, q, w);
    CongVecRefl(prm.r, q);
    XmuCong(z, n, q, a1, a2, prm.r, prm.r);
    var c1, c2 := Xmu(z, n, q, a1, prm.r), Xmu(z, n, q, a2, prm.r);
    CmuCong(z, n, q, c1, c2, -1);
    var d1, d2 := Cmu(z, n, q, c1, -1), Cmu(z, n, q, c2, -1);
    FlpCong(d1, d2, n, q);
    CongVecRefl(w, q);
    XmuCong(z, n, q, FlpSpec(d1, n, q), FlpSpec(d2, n, q), w, w);
    var e1, e2 := Xmu(z, n, q, FlpSpec(d1, n, q), w), Xmu(z, n, q, FlpSpec(d2, n, q), w);
    FftCong(e1, e2, L, q, w);
    forall i | 0 <= i < n
      ensures PublicSpec(prm, t, inv1)[i] % q == PublicSpec(prm, t, inv2)[i] % q
    {
      var x1, x2 := FftSpec(e1, L, q, w)[i], FftSpec(e2, L, q, w)[i];
      CongMod(x2, q);
      CongSym(x1, x2, q);
      CongTrans(x2 % q, x2, x1, q);
      CongUnique(x1, x2 % q, q);
    }
  }

  lemma CongVecRefl(v: seq<int>, q: int)
    requires q != 0
    ensures CongVec(v, v, q)
  {
  }

  /** The nonzero entries of a vector. */
  function Weight(v: seq<int>): (w: nat)
    ensures w <= |v|
  {
    ZeroCountAtMost(v, |v|);
    |v| - ZeroCount(v, |v|)
  }

  /** The g a draw stream yields: the shaping of the first `uniform_poly`
      result from zeros, or None when the stream ends first. */
  function GOf(prm: Params, draws: seq<nat>): (g: Option<seq<int>>)
    requires Valid(prm)
    ensures g.Some? ==> |g.value| == prm.n
  {
    var s := UniformSpec(Zeros(prm.n), prm.nz1, prm.nz2, draws).0;
    if s.None? then None else Some(ShapeG(s.value))
  }

  /** The first k candidates f a draw stream yields after g, and the
      position after them, or None when the stream ends before g or one of
      them is complete. Each candidate is drawn into the buffer left by the
      one before, as the source does, or into zeros when `cleared`. */
  function Drawn(prm: Params, cleared: bool, draws: seq<nat>, k: nat): (r: Option<(seq<seq<int>>, nat)>)
    requires Valid(prm)
    ensures r.Some? ==> |r.value.0| == k && r.value.1 <= |draws|
    ensures r.Some? ==> forall j | 0 <= j < k :: |r.value.0[j]| == prm.n
    decreases k
  {
    if k == 0 then
      var s := UniformSpec(Zeros(prm.n), prm.nz1, prm.nz2, draws);
      if s.0.None? then None else Some(([], s.1))
    else
      var prev := Drawn(prm, cleared, draws, k - 1);
      if prev.None? then None else Extend(prm, cleared, draws, prev.value.0, prev.value.1)
  }

  /** The run `tried`, standing at position p, with one more candidate. */
  function Extend(prm: Params, cleared: bool, draws: seq<nat>, tried: seq<seq<int>>, p: nat)
    : (r: Option<(seq<seq<int>>, nat)>)
    requires Valid(prm) && p <= |draws|
    requires forall j | 0 <= j < |tried| :: |tried[j]| == prm.n
    ensures r.Some? ==> |r.value.0| == |tried| + 1 && r.value.1 <= |draws|
    ensures r.Some? ==> forall j | 0 <= j <= |tried| :: |r.value.0[j]| == prm.n
  {
    var buf := if cleared || |tried| == 0 then Zeros(prm.n) else tried[|tried| - 1];
    var d := UniformSpec(buf, prm.nz1, prm.nz2, draws[p..]);
    if d.0.None? then None else Some((tried + [d.0.value], p + d.1))
  }

  /** `tried` are the first candidates of a run, and the run stands at
      position `pos` of the stream. */
  predicate RunAt(prm: Params, cleared: bool, draws: seq<nat>, tried: seq<seq<int>>, pos: nat)
    requires Valid(prm)
  {
    Drawn(prm, cleared, draws, |tried|) == Some((tried, pos))
  }

  /** `tried` are the first candidates of a run. */
  predicate RunOf(prm: Params, cleared: bool, draws: seq<nat>, tried: seq<seq<int>>)
    requires Valid(prm)
  {
    Drawn(prm, cleared, draws, |tried|).Some? && Drawn(prm, cleared, draws, |tried|).value.0 == tried
  }

  /** The stream holds no candidate after `tried`. */
  predicate RunEnds(prm: Params, cleared: bool, draws: seq<nat>, tried: seq<seq<int>>)
    requires Valid(prm)
  {
    Drawn(prm, cleared, draws, |tried| + 1).None?
  }

  lemma RunAtOf(prm: Params, cleared: bool, draws: seq<nat>, tried: seq<seq<int>>, pos: nat)
    requires Valid(prm) && RunAt(prm, cleared, draws, tried, pos)
    ensures RunOf(prm, cleared, draws, tried)
  {
  }

  /** A run starts once g is drawn, and without g no candidate is drawn. */
  lemma DrawnStart(prm: Params, cleared: bool, draws: seq<nat>)
    requires Valid(prm)
    ensures GOf(prm, draws).Some? ==>
      Drawn(prm, cleared, draws, 0) == Some(([], UniformSpec(Zeros(prm.n), prm.nz1, prm.nz2, draws).1))
    ensures GOf(prm, draws).None? ==> RunEnds(prm, cleared, draws, [])
  {
  }

  /** One more candidate of a run: the draw from the run's buffer at the
      run's position, as a caller computed it. */
  lemma DrawnNext(prm: Params, cleared: bool, draws: seq<nat>, tried: seq<seq<int>>, p: nat,
                  buf: seq<int>, f: Option<seq<int>>, next: nat)
    requires Valid(prm) && RunAt(prm, cleared, draws, tried, p)
    requires buf == if cleared || |tried| == 0 then Zeros(prm.n) else tried[|tried| - 1]
    requires f == UniformSpec(buf, prm.nz1, prm.nz2, draws[p..]).0
    requires next == p + UniformSpec(buf, prm.nz1, prm.nz2, draws[p..]).1
    ensures f.None? ==> RunEnds(prm, cleared, draws, tried)
    ensures f.Some? ==> RunAt(prm, cleared, draws, tried + [f.value], next)
  {
    ExtendBy(prm, cleared, draws, tried, p, buf, f, next);
    assert Drawn(prm, cleared, draws, |tried| + 1) == Extend(prm, cleared, draws, tried, p);
  }

  lemma ExtendBy(prm: Params, cleared: bool, draws: seq<nat>, tried: seq<seq<int>>, p: nat,
                 buf: seq<int>, f: Option<seq<int>>, next: nat)
    requires Valid(prm) && p <= |draws|
    requires forall j | 0 <= j < |tried| :: |tried[j]| == prm.n
    requires buf == if cleared || |tried| == 0 then Zeros(prm.n) else tried[|tried| - 1]
    requires f == UniformSpec(buf, prm.nz1, prm.nz2, draws[p..]).0
    requires next == p + UniformSpec(buf, prm.nz1, prm.nz2, draws[p..]).1
    ensures Extend(prm, cleared, draws, tried, p) == if f.None? then None else Some((tried + [f.value], next))
  {
  }

  /** One draw of f into the (uncleared) buffer: the count of zero slots
      drops by nz1 + nz2, and only zero slots change. With fewer zero slots
      than that, no stream of draws suffices: the source loops forever. */
  method DrawF(prm: Params, f0: seq<int>, draws: seq<nat>, pos: nat)
    returns (f: Option<seq<int>>, next: nat)
    requires Valid(prm) && |f0| == prm.n && pos <= |draws|
    ensures pos <= next <= |draws|
    ensures f.None? ==> next == |draws|
    ensures f.Some? ==> |f.value| == prm.n
    ensures f.Some? ==> ZeroCount(f.value, prm.n) + prm.nz1 + prm.nz2 == ZeroCount(f0, prm.n)
    ensures f.Some? ==> forall m | 0 <= m < prm.n && f.value[m] != f0[m] :: f0[m] == 0 && f.value[m] in {-2, -1, 1, 2}
    ensures ZeroCount(f0, prm.n) < prm.nz1 + prm.nz2 ==> f.None?
    ensures f == UniformSpec(f0, prm.nz1, prm.nz2, draws[pos..]).0
    ensures next == pos + UniformSpec(f0, prm.nz1, prm.nz2, draws[pos..]).1
  {
    var used;
    f, used := UniformPoly(f0, prm.nz1, prm.nz2, draws[pos..]);
    next := pos + used;
  }

  /** The next candidate of a run: `DrawF` from the run's buffer at the
      run's position extends the run by that candidate. */
  method DrawNextF(prm: Params, cleared: bool, f0: seq<int>, draws: seq<nat>, pos: nat, ghost tried: seq<seq<int>>)
    returns (f: Option<seq<int>>, next: nat)
    requires Valid(prm) && |f0| == prm.n && pos <= |draws|
    requires RunAt(prm, cleared, draws, tried, pos)
    requires f0 == if cleared || |tried| == 0 then Zeros(prm.n) else tried[|tried| - 1]
    ensures pos <= next <= |draws|
    ensures f.None? ==> next == |draws|
    ensures f.Some? ==> |f.value| == prm.n
    ensures f.Some? ==> ZeroCount(f.value, prm.n) + prm.nz1 + prm.nz2 == ZeroCount(f0, prm.n)
    ensures f.Some? ==> forall m | 0 <= m < prm.n && f.value[m] != f0[m] :: f0[m] == 0 && f.value[m] in {-2, -1, 1, 2}
    ensures f.None? ==> RunEnds(prm, cleared, draws, tried)
    ensures f.Some? ==> RunAt(prm, cleared, draws, tried + [f.value], next)
  {
    f, next := DrawF(prm, f0, draws, pos);
    DrawnNext(prm, cleared, draws, tried, pos, f0, f, next);
  }

  /** The drawing and shaping of g, and its transform t. */
  method DrawG(prm: Params, draws: seq<nat>) returns (g: Option<seq<int>>, t: seq<int>, next: nat)
    requires Valid(prm)
    ensures next <= |draws|
    ensures g.None? ==> next == |draws|
    ensures g.Some? ==> |g.value| == prm.n && t == Transform(prm, g.value)
    ensures g.Some? ==> g.value == ShapeG(UnshapeG(g.value))
    ensures g.Some? ==> Weight(UnshapeG(g.value)) == prm.nz1 + prm.nz2
    ensures g == GOf(prm, draws)
    ensures g.Some? ==> next == UniformSpec(Zeros(prm.n), prm.nz1, prm.nz2, draws).1
  {
    assert draws[0..] == draws;
    var n, q := prm.n, prm.q;
    ZeroCountAllZero(Zeros(n), n);
    var s;
    s, next := DrawF(prm, Zeros(n), draws, 0);
    if s.None? {
      return None, [], next;
    }
    UniformFromZero(Zeros(n), prm.nz1, prm.nz2, s.value);
    var gv := ShapeG(s.value);
    ShapeRoundTrip(s.value, gv);
    t := Xmu(Zeros(n), n, q, gv, prm.w);
    t := Fft(t, n, q, prm.w);
    g := Some(gv);
  }

  /** One pass of the attempt loop after f has been drawn: transform f, try
      to invert, and on success compute the public vector, which is the one
      the exact inverses give. */
  method Finish(prm: Params, t: seq<int>, f: seq<int>) returns (a: Option<seq<int>>)
    requires Valid(prm) && |t| == prm.n && |f| == prm.n
    ensures a.Some? <==> Invertible(prm, Transform(prm, f))
    ensures a.Some? ==> a.value == PublicOf(prm, t, f)
    ensures a.Some? ==> forall i | 0 <= i < prm.n :: 0 <= a.value[i] < prm.q
  {
    var n, q := prm.n, prm.q;
    var u := Xmu(Zeros(n), n, q, f, prm.w);
    u := Fft(u, n, q, prm.w);
    var ok, inv := Invert(prm, u);
    if ok {
      var av := PublicSteps(prm, t, inv);
      PublicCong(prm, t, inv, Inverses(prm, u));
      assert av == PublicOf(prm, t, f);
      a := Some(av);
    } else {
      a := None;
    }
  }

  /** What a produced key satisfies: g has the odd/even pattern of its
      construction and comes from nz1 + nz2 sparse entries; f has entries in
      {-2, ..., 2} and an invertible transform; a is the public vector of
      (g, f) reduced into [0, Q). */
  predicate Produced(prm: Params, sk: PrivateKey)
    requires Valid(prm)
  {
    && |sk.f| == prm.n && |sk.g| == prm.n && |sk.a| == prm.n
    && sk.g == ShapeG(UnshapeG(sk.g))
    && Weight(UnshapeG(sk.g)) == prm.nz1 + prm.nz2
    && (forall i | 0 <= i < prm.n :: sk.f[i] in {-2, -1, 0, 1, 2})
    && Invertible(prm, Transform(prm, sk.f))
    && sk.a == PublicOf(prm, Transform(prm, sk.g), sk.f)
    && (forall i | 0 <= i < prm.n :: 0 <= sk.a[i] < prm.q)
  }

  lemma ProducedFrom(prm: Params, t: seq<int>, f: seq<int>, g: seq<int>, a: seq<int>)
    requires Valid(prm) && |f| == prm.n && |g| == prm.n && t == Transform(prm, g)
    requires g == ShapeG(UnshapeG(g)) && Weight(UnshapeG(g)) == prm.nz1 + prm.nz2
    requires forall i | 0 <= i < prm.n :: f[i] in {-2, -1, 0, 1, 2}
    requires Invertible(prm, Transform(prm, f)) && a == PublicOf(prm, t, f)
    requires forall i | 0 <= i < prm.n :: 0 <= a[i] < prm.q
    ensures Produced(prm, PrivateKey(f, g, a))
  {
  }

  /** The candidates f of a run, in order: each was rejected as not
      invertible, except the last one of a run that produced a key. */
  predicate Rejected(prm: Params, tried: seq<seq<int>>, accepted: bool)
    requires Valid(prm)
  {
    && (forall j | 0 <= j < |tried| :: |tried[j]| == prm.n)
    && (forall j | 0 <= j < |tried| && !(accepted && j == |tried| - 1) ::
          !Invertible(prm, Transform(prm, tried[j])))
  }

  /** Appending a candidate: the run so far stays rejected, and the new
      candidate is rejected unless it ends the run with a key. */
  lemma RejectedExtend(prm: Params, tried: seq<seq<int>>, f: seq<int>, accepted: bool)
    requires Valid(prm) && Rejected(prm, tried, false) && |f| == prm.n
    requires !accepted ==> !Invertible(prm, Transform(prm, f))
    ensures Rejected(prm, tried + [f], accepted)
  {
    var tr := tried + [f];
    assert forall j | 0 <= j < |tried| :: tr[j] == tried[j];
  }

  /** The nonzero entries one draw of f adds to its buffer. */
  function PerDraw(prm: Params): nat
    requires Valid(prm)
  {
    prm.nz1 + prm.nz2
  }

  /** The state of `PrivateKey::new` between two attempts: the candidates
      `tried` were all rejected, the run stands at `pos`, and the buffer f
      holds the last candidate (zeros before the first, and always when
      `cleared`). */
  predicate Between(prm: Params, cleared: bool, draws: seq<nat>, tried: seq<seq<int>>, f: seq<int>, pos: nat)
    requires Valid(prm)
  {
    && |f| == prm.n && pos <= |draws|
    && (forall i | 0 <= i < prm.n :: f[i] in {-2, -1, 0, 1, 2})
    && Rejected(prm, tried, false)
    && RunAt(prm, cleared, draws, tried, pos)
    && f == if cleared || |tried| == 0 then Zeros(prm.n) else tried[|tried| - 1]
  }

  /** One attempt of the loop: draw f into the buffer f0, then transform,
      test and, if invertible, build the key from g and f. */
  method Candidate(prm: Params, cleared: bool, g: seq<int>, t: seq<int>, f0: seq<int>, draws: seq<nat>, pos: nat,
                   ghost tried: seq<seq<int>>)
    returns (f: Option<seq<int>>, key: Option<PrivateKey>, next: nat)
    requires Valid(prm) && Between(prm, cleared, draws, tried, f0, pos)
    requires |g| == prm.n && t == Transform(prm, g)
    requires g == ShapeG(UnshapeG(g)) && Weight(UnshapeG(g)) == prm.nz1 + prm.nz2
    ensures pos <= next <= |draws|
    ensures f.None? ==> next == |draws| && key.None?
    ensures f.Some? ==> |f.value| == prm.n && ZeroCount(f.value, prm.n) + prm.nz1 + prm.nz2 == ZeroCount(f0, prm.n)
    ensures f.Some? ==> forall i | 0 <= i < prm.n :: f.value[i] in {-2, -1, 0, 1, 2}
    ensures f.Some? ==> Rejected(prm, tried + [f.value], key.Some?)
    ensures key.Some? ==> f.Some? && Produced(prm, key.value) && key.value.f == f.value && key.value.g == g
    ensures f.None? ==> RunEnds(prm, cleared, draws, tried)
    ensures f.Some? ==> RunAt(prm, cleared, draws, tried + [f.value], next)
  {
    f, next := DrawNextF(prm, cleared, f0, draws, pos, tried);
    if f.None? {
      return f, None, next;
    }
    var a := Finish(prm, t, f.value);
    RejectedExtend(prm, tried, f.value, a.Some?);
    if a.Some? {
      ProducedFrom(prm, t, f.value, g, a.value);
      key := Some(PrivateKey(f.value, g, a.value));
    } else {
      key := None;
    }
  }

  /** One attempt from a state between attempts: the stream ends, or the
      candidate yields a key, or the loop reaches the next such state. */
  method Round(prm: Params, cleared: bool, g: seq<int>, t: seq<int>, f0: seq<int>, draws: seq<nat>, pos: nat,
               ghost tried: seq<seq<int>>)
    returns (f: Option<seq<int>>, key: Option<PrivateKey>, next: nat)
    requires Valid(prm) && Between(prm, cleared, draws, tried, f0, pos)
    requires |g| == prm.n && t == Transform(prm, g)
    requires g == ShapeG(UnshapeG(g)) && Weight(UnshapeG(g)) == prm.nz1 + prm.nz2
    ensures RunOf(prm, cleared, draws, tried)
    ensures f.None? ==> key.None? && next == |draws| && RunEnds(prm, cleared, draws, tried)
    ensures f.Some? ==> |f.value| == prm.n
    ensures f.Some? ==> Weight(f.value) == Weight(f0) + PerDraw(prm)
    ensures f.Some? && cleared ==> Weight(f.value) == PerDraw(prm)
    ensures key.Some? ==> f.Some? && Produced(prm, key.value) && key.value.f == f.value && key.value.g == g
    ensures key.Some? ==>
      && Rejected(prm, tried + [f.value], true)
      && RunAt(prm, cleared, draws, tried + [f.value], next)
      && RunOf(prm, cleared, draws, tried + [f.value])
    ensures f.Some? && key.None? ==>
      Between(prm, cleared, draws, tried + [f.value], if cleared then f0 else f.value, next)
  {
    RunAtOf(prm, cleared, draws, tried, pos);
    f, key, next := Candidate(prm, cleared, g, t, f0, draws, pos, tried);
    if f.Some? {
      if cleared {
        UniformFromZero(f0, prm.nz1, prm.nz2, f.value);
      }
      RunAtOf(prm, cleared, draws, tried + [f.value], next);
    }
  }

  /** The loop of `PrivateKey::new` as written, from g and its transform t
      and the run's start at `pos`: up to 1024 attempts, each drawing into the
      buffer the attempt before left. */
  method Attempts(prm: Params, g: seq<int>, t: seq<int>, draws: seq<nat>, pos: nat)
    returns (res: Outcome, attempts: nat, used: nat, ghost tried: seq<seq<int>>)
    requires Valid(prm) && Between(prm, false, draws, [], Zeros(prm.n), pos)
    requires |g| == prm.n && t == Transform(prm, g)
    requires g == ShapeG(UnshapeG(g)) && Weight(UnshapeG(g)) == prm.nz1 + prm.nz2
    ensures used <= |draws| && RunOf(prm, false, draws, tried)
    ensures res.OutOfDraws? ==> used == |draws| && RunEnds(prm, false, draws, tried)
    ensures !res.OutOfDraws? ==> RunAt(prm, false, draws, tried, used)
    ensures |tried| == attempts && Rejected(prm, tried, res.KeyPair?)
    ensures res.KeyPair? ==>
      && Produced(prm, res.sk) && res.sk.g == g
      && attempts >= 1 && tried[attempts - 1] == res.sk.f
      && Weight(res.sk.f) == attempts * PerDraw(prm)
    ensures attempts * PerDraw(prm) <= prm.n
    ensures res.GaveUp? ==> attempts == 1024
  {
    var f := Zeros(prm.n);
    ZeroCountAllZero(f, prm.n);
    var drawn := 0;
    attempts, tried, used := 0, [], pos;
    while attempts < 1024
      invariant Between(prm, false, draws, tried, f, used)
      invariant |tried| == attempts && drawn == Times(attempts, PerDraw(prm))
      invariant Weight(f) == drawn
      decreases 1024 - attempts
    {
      var f1, key;
      f1, key, used := Round(prm, false, g, t, f, draws, used, tried);
      if f1.None? {
        TimesIsMul(attempts, PerDraw(prm));
        return OutOfDraws, attempts, used, tried;
      }
      f := f1.value;
      tried := tried + [f];
      TimesStep(attempts, PerDraw(prm), drawn);
      attempts, drawn := attempts + 1, drawn + PerDraw(prm);
      if key.Some? {
        TimesIsMul(attempts, PerDraw(prm));
        return KeyPair(key.value), attempts, used, tried;
      }
    }
    TimesIsMul(attempts, PerDraw(prm));
    RunAtOf(prm, false, draws, tried, used);
    res := GaveUp;
  }

  /** `PrivateKey::new` as written. Because f is never cleared, the
      candidate of attempt k has k * (nz1 + nz2) nonzero entries, so at most
      n / (nz1 + nz2) attempts can draw at all and the next draw can never
      finish (the source loops forever; here the draws run out): with
      nz1 + nz2 >= 1 and n < 1024 the error after 1024 attempts cannot
      happen. */
  method Generate(prm: Params, draws: seq<nat>) returns (res: Outcome, attempts: nat, used: nat, ghost tried: seq<seq<int>>)
    requires Valid(prm)
    ensures used <= |draws|
    ensures GOf(prm, draws).None? ==> res.OutOfDraws? && attempts == 0
    ensures GOf(prm, draws).Some? ==> RunOf(prm, false, draws, tried)
    ensures res.OutOfDraws? ==> used == |draws| && RunEnds(prm, false, draws, tried)
    ensures !res.OutOfDraws? ==> RunAt(prm, false, draws, tried, used)
    ensures res.KeyPair? ==> GOf(prm, draws) == Some(res.sk.g)
    ensures |tried| == attempts && Rejected(prm, tried, res.KeyPair?)
    ensures res.KeyPair? ==>
      && Produced(prm, res.sk)
      && attempts >= 1 && tried[attempts - 1] == res.sk.f
      && Weight(res.sk.f) == attempts * PerDraw(prm)
    ensures attempts * PerDraw(prm) <= prm.n
    ensures prm.nz1 + prm.nz2 >= 1 && prm.n < 1024 ==> !res.GaveUp?
    ensures res.GaveUp? ==> attempts == 1024
  {
    var g: Option<seq<int>>, t: seq<int>, pos: nat := DrawG(prm, draws);
    DrawnStart(prm, false, draws);
    if g.None? {
      return OutOfDraws, 0, pos, [];
    }
    res, attempts, used, tried := Attempts(prm, g.value, t, draws, pos);
    if PerDraw(prm) >= 1 && res.GaveUp? {
      MulLe(1024, 1, 1024, PerDraw(prm));
    }
  }

  lemma WeighAppend(tried: seq<seq<int>>, f: seq<int>, w: nat)
    requires forall j | 0 <= j < |tried| :: Weight(tried[j]) == w
    requires Weight(f) == w
    ensures forall j | 0 <= j < |tried + [f]| :: Weight((tried + [f])[j]) == w
  {
  }

  /** The loop of `PrivateKey::new` with f cleared before every draw. */
  method FreshAttempts(prm: Params, g: seq<int>, t: seq<int>, draws: seq<nat>, pos: nat)
    returns (res: Outcome, attempts: nat, used: nat, ghost tried: seq<seq<int>>)
    requires Valid(prm) && Between(prm, true, draws, [], Zeros(prm.n), pos)
    requires |g| == prm.n && t == Transform(prm, g)
    requires g == ShapeG(UnshapeG(g)) && Weight(UnshapeG(g)) == prm.nz1 + prm.nz2
    ensures used <= |draws| && RunOf(prm, true, draws, tried)
    ensures res.OutOfDraws? ==> used == |draws| && RunEnds(prm, true, draws, tried)
    ensures !res.OutOfDraws? ==> RunAt(prm, true, draws, tried, used)
    ensures attempts <= 1024 && |tried| == attempts && Rejected(prm, tried, res.KeyPair?)
    ensures res.KeyPair? ==> Produced(prm, res.sk) && res.sk.g == g && attempts >= 1 && tried[attempts - 1] == res.sk.f
    ensures res.GaveUp? ==> attempts == 1024
    ensures forall j | 0 <= j < |tried| :: Weight(tried[j]) == prm.nz1 + prm.nz2
  {
    var z := Zeros(prm.n);
    attempts, tried, used := 0, [], pos;
    while attempts < 1024
      invariant Between(prm, true, draws, tried, z, used)
      invariant attempts <= 1024 && |tried| == attempts
      invariant forall j | 0 <= j < |tried| :: Weight(tried[j]) == prm.nz1 + prm.nz2
      decreases 1024 - attempts
    {
      var f1, key;
      f1, key, used := Round(prm, true, g, t, z, draws, used, tried);
      if f1.None? {
        return OutOfDraws, attempts, used, tried;
      }
      WeighAppend(tried, f1.value, prm.nz1 + prm.nz2);
      tried := tried + [f1.value];
      attempts := attempts + 1;
      if key.Some? {
        return KeyPair(key.value), attempts, used, tried;
      }
    }
    RunAtOf(prm, true, draws, tried, used);
    res := GaveUp;
  }

  /** `PrivateKey::new` with f cleared before every draw, as BLISS key
      generation intends: every candidate has exactly nz1 + nz2 nonzero
      entries, and the error is returned only after 1024 candidates were all
      rejected. */
  method GenerateFresh(prm: Params, draws: seq<nat>) returns (res: Outcome, attempts: nat, used: nat, ghost tried: seq<seq<int>>)
    requires Valid(prm)
    ensures used <= |draws|
    ensures GOf(prm, draws).None? ==> res.OutOfDraws? && attempts == 0
    ensures GOf(prm, draws).Some? ==> RunOf(prm, true, draws, tried)
    ensures res.OutOfDraws? ==> used == |draws| && RunEnds(prm, true, draws, tried)
    ensures !res.OutOfDraws? ==> RunAt(prm, true, draws, tried, used)
    ensures res.KeyPair? ==> GOf(prm, draws) == Some(res.sk.g)
    ensures attempts <= 1024 && |tried| == attempts
    ensures res.KeyPair? ==> Produced(prm, res.sk) && attempts >= 1
    ensures res.GaveUp? ==> attempts == 1024
    ensures Rejected(prm, tried, res.KeyPair?)
    ensures forall j | 0 <= j < |tried| :: Weight(tried[j]) == prm.nz1 + prm.nz2
    ensures res.KeyPair? ==> tried[attempts - 1] == res.sk.f
  {
    var g: Option<seq<int>>, t: seq<int>, pos: nat := DrawG(prm, draws);
    DrawnStart(prm, true, draws);
    if g.None? {
      return OutOfDraws, 0, pos, [];
    }
    res, attempts, used, tried := FreshAttempts(prm, g.value, t, draws, pos);
  }
}
